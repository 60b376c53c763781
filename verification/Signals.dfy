/** Termination signals while a setup child runs: the forwarding handlers of src/install.c and
    the fork/wait skeleton that hm_install and hm_command_run share.

    Parent, handler and child take their own steps; a signal may reach hacman between any two
    of them, also while a handler for another signal is running. */
module Signals {
  import opened Wrappers

  datatype Sig = Hup | Int | Quit | Term

  /** forwarded_signals[]. */
  const FORWARDED: seq<Sig> := [Hup, Int, Quit, Term]

  /** A handler invocation: `recorded` once `setup_signal = sig` is done. `user` tells kill()
      and sigqueue() from a terminal's Ctrl-C, which reaches the child by itself. */
  datatype Frame = Frame(sig: Sig, user: bool, recorded: bool)

  /** How the parent came to restore the signal dispositions. */
  datatype Cause = Reaped(exitedZero: bool) | ForkFailed | WaitFailed

  datatype Parent =
    | Installing(i: nat)            // loop of forward_signals_begin
    | Forking
    | StoringChild                  // setup_child = child
    | PassingOn                     // if (setup_signal != 0) kill(child, setup_signal)
    | Waiting                       // waitpid
    | Clearing(cause: Cause)        // setup_child = 0
    | Restoring(i: nat, cause: Cause)
    | Judging(cause: Cause)         // setup_signal and the exit status
    | Returned(ok: bool)            // back in the caller, lock still held
    | Unlocking
    | Finished
    | Died

  datatype Child =
    | NoChild
    | Resetting(i: nat)             // forward_signals_end in the child
    | Raising                       // if (setup_signal != 0) raise(setup_signal)
    | Ready                         // between that and exec
    | Shell                         // the setup code itself
    | Zombie(exitedZero: bool)
    | Gone

  /** `installed` and `childInstalled` are the signals whose disposition is the forwarding
      handler; `ignored` those that were ignored at startup and stay so.
      `caught`, `userCaught`, `beforeFork`, `sent`, `ran` and `saved` are history: whether a handler was
      entered since installation began, for a user-sent signal before the child was reaped, and
      before the fork; how often kill() was called on the child; whether the setup code was
      executed; and whether the record was written. */
  datatype State = State(
    install: bool,
    ignored: set<Sig>,
    parent: Parent,
    installed: set<Sig>,
    setupChild: bool,
    setupSignal: Option<Sig>,
    frames: seq<Frame>,
    child: Child,
    childInstalled: set<Sig>,
    childSignal: Option<Sig>,
    pending: set<Sig>,
    lock: bool,
    caught: bool,
    userCaught: bool,
    beforeFork: bool,
    sent: nat,
    ran: bool,
    saved: bool)

  datatype Event =
    | Signal(sig: Sig, user: bool)          // some process sends hacman a signal
    | HandlerStep
    | ParentStep(ok: bool)                  // ok: fork and waitpid succeed
    | ChildStep
    | Deliver(sig: Sig, fatal: bool)        // a sent signal reaches the child
    | ChildExit(exitedZero: bool)

  /** hm_install or hm_command_run about to install its handlers, holding the lock. */
  function Init(install: bool, ignored: set<Sig>): State {
    State(install, ignored, Installing(0), {}, false, None, [], NoChild, {}, None, {},
          true, false, false, false, 0, false, false)
  }

  predicate Unreaped(c: Child) {
    !c.NoChild? && !c.Gone?
  }

  /** What a step changes besides the program counters of parent and child. */
  datatype Effect =
    | Nothing
    | Enter(f: Frame)              // a handler starts
    | Record(sig: Sig)             // setup_signal = sig, in the innermost handler
    | Leave                        // the innermost handler returns
    | LeaveAndKill(sig: Sig)       // ... after kill(setup_child, sig)
    | Kill(sig: Sig)
    | Handle(sig: Sig)
    | Unhandle(sig: Sig)
    | Fork
    | SetChild(b: bool)            // setup_child = child, or 0
    | Save(ok: bool)
    | Release                      // the lock, by unlocking or by dying
    | ChildUnhandle(sig: Sig)
    | ChildNote(sig: Sig)          // the inherited handler records in the child
    | Reach(sig: Sig)              // a pending signal is taken by the child
    | Exec

  datatype Change = Change(parent: Parent, child: Child, effect: Effect)

  /** Delivery to hacman: ignored, caught (unless its handler is already running, when it stays
      blocked), or fatal. Death releases the lock. */
  function Arrives(s: State, sig: Sig, user: bool): Option<Change> {
    if s.parent.Died? then None
    else if sig in s.ignored then Some(Change(s.parent, s.child, Nothing))
    else if sig !in s.installed then Some(Change(Died, s.child, Release))
    else if exists i :: 0 <= i < |s.frames| && s.frames[i].sig == sig then None
    else Some(Change(s.parent, s.child, Enter(Frame(sig, user, false))))
  }

  /** forward_signal, one statement at a time; the innermost invocation runs. */
  function Handler(s: State): Option<Change> {
    if s.frames == [] || s.parent.Died? then None
    else
      var f := s.frames[|s.frames| - 1];
      Some(Change(s.parent, s.child,
                  if !f.recorded then Record(f.sig)
                  else if s.setupChild && f.user then LeaveAndKill(f.sig)
                  else Leave))
  }

  /** The main flow, which only runs while no handler does. */
  function Main(s: State, ok: bool): Option<Change> {
    match s.parent
    case Installing(i) =>
      if i >= 4 then Some(Change(Forking, s.child, Nothing))
      else Some(Change(Installing(i + 1), s.child, if FORWARDED[i] in s.ignored then Nothing else Handle(FORWARDED[i])))
    case Forking =>
      Some(if ok then Change(StoringChild, Resetting(0), Fork) else Change(Clearing(ForkFailed), s.child, Nothing))
    case StoringChild => Some(Change(PassingOn, s.child, SetChild(true)))
    case PassingOn =>
      Some(Change(Waiting, s.child, if s.setupSignal.Some? then Kill(s.setupSignal.value) else Nothing))
    case Waiting =>
      if !s.child.Zombie? then None // still waiting, or interrupted and waiting again
      else Some(Change(Clearing(if ok then Reaped(s.child.exitedZero) else WaitFailed), Gone, Nothing))
    case Clearing(cause) => Some(Change(Restoring(0, cause), s.child, SetChild(false)))
    case Restoring(i, cause) =>
      if i >= 4 then Some(Change(Judging(cause), s.child, Nothing))
      else Some(Change(Restoring(i + 1, cause), s.child, Unhandle(FORWARDED[i])))
    case Judging(cause) =>
      if s.setupSignal.Some? && (cause.Reaped? || s.install) then
        Some(Change(Died, s.child, Release)) // forward_signals_reraise
      else Some(Change(Returned(cause == Reaped(true)), s.child, Nothing))
    case Returned(success) => Some(Change(Unlocking, s.child, Save(success)))
    case Unlocking => Some(Change(Finished, s.child, Release))
    case _ => None
  }

  /** child_signals_init up to the exec of the setup code. */
  function ChildMain(s: State): Option<Change> {
    match s.child
    case Resetting(i) =>
      Some(if i >= 4 then Change(s.parent, Raising, Nothing)
           else Change(s.parent, Resetting(i + 1), ChildUnhandle(FORWARDED[i])))
    case Raising => Some(Change(s.parent, if s.childSignal.Some? then Zombie(false) else Ready, Nothing))
    case Ready => Some(Change(s.parent, Shell, Exec))
    case _ => None
  }

  /** A sent signal reaches the child: the inherited handler only records it; the restored
      default ends the child; setup code may have its own idea. */
  function Delivered(s: State, sig: Sig, fatal: bool): Option<Change> {
    if sig !in s.pending || !Unreaped(s.child) then None
    else if s.child.Zombie? || (s.child.Shell? && !fatal) then Some(Change(s.parent, s.child, Reach(sig)))
    else if sig in s.childInstalled then Some(Change(s.parent, s.child, ChildNote(sig)))
    else Some(Change(s.parent, Zombie(false), Reach(sig)))
  }

  function ChangeOf(s: State, e: Event): Option<Change> {
    match e
    case Signal(sig, user) => Arrives(s, sig, user)
    case HandlerStep => Handler(s)
    case ParentStep(ok) => if s.frames == [] then Main(s, ok) else None
    case ChildStep => ChildMain(s)
    case Deliver(sig, fatal) => Delivered(s, sig, fatal)
    case ChildExit(zero) =>
      if s.child.Shell? || (Unreaped(s.child) && !s.child.Zombie? && !zero) then
        Some(Change(s.parent, Zombie(zero), Nothing))
      else None
  }

  // What an effect does to each part of the state.

  function FramesAfter(frames: seq<Frame>, e: Effect, died: bool): seq<Frame> {
    if died then []
    else if e.Enter? then frames + [e.f]
    else if frames != [] && e.Record? then frames[|frames| - 1 := frames[|frames| - 1].(recorded := true)]
    else if frames != [] && (e.Leave? || e.LeaveAndKill?) then frames[..|frames| - 1]
    else frames
  }

  predicate Kills(e: Effect) {
    e.Kill? || e.LeaveAndKill?
  }

  function PendingAfter(s: State, e: Effect): set<Sig> {
    if Kills(e) && Unreaped(s.child) then s.pending + {e.sig}
    else if e.Reach? || e.ChildNote? then s.pending - {e.sig}
    else s.pending
  }

  function After(s: State, c: Change): State {
    var e := c.effect;
    State(s.install, s.ignored, c.parent,
          if e.Handle? then s.installed + {e.sig} else if e.Unhandle? then s.installed - {e.sig} else s.installed,
          if e.SetChild? then e.b else s.setupChild,
          if e.Record? then Some(e.sig) else s.setupSignal,
          FramesAfter(s.frames, e, c.parent.Died?),
          c.child,
          if e.Fork? then s.installed else if e.ChildUnhandle? then s.childInstalled - {e.sig} else s.childInstalled,
          if e.Fork? then s.setupSignal else if e.ChildNote? then Some(e.sig) else s.childSignal,
          PendingAfter(s, e),
          s.lock && !e.Release?,
          s.caught || e.Enter?,
          s.userCaught || (e.Enter? && e.f.user && !s.child.Gone?),
          if e.Fork? then s.caught else s.beforeFork,
          if Kills(e) then s.sent + 1 else s.sent,
          s.ran || e.Exec?,
          s.saved || (e.Save? && e.ok))
  }

  function Apply(s: State, e: Event): Option<State> {
    var c := ChangeOf(s, e);
    if c.None? then None else Some(After(s, c.value))
  }

  function Run(s: State, events: seq<Event>): Option<State> {
    if events == [] then Some(s)
    else
      var before := Run(s, events[..|events| - 1]);
      if before.None? then None else Apply(before.value, events[|events| - 1])
  }

  // ---------- invariant ----------

  function Index(sig: Sig): (i: nat)
    ensures i < 4 && FORWARDED[i] == sig
  {
    match sig
    case Hup => 0
    case Int => 1
    case Quit => 2
    case Term => 3
  }

  /** Exactly the signals from index `lo` up to `hi` that were not ignored are handled. */
  predicate Handled(s: State, installed: set<Sig>, lo: nat, hi: nat) {
    forall sig :: sig in installed <==> sig !in s.ignored && lo <= Index(sig) < hi
  }

  /** While the child is unreaped, all four signals are handled or ignored. */
  predicate Covered(s: State) {
    match s.parent
    case Installing(i) => i <= 4 && Handled(s, s.installed, 0, i) && s.child.NoChild? && !s.setupChild
    case Forking => Handled(s, s.installed, 0, 4) && s.child.NoChild? && !s.setupChild
    case StoringChild => Handled(s, s.installed, 0, 4) && Unreaped(s.child) && !s.setupChild
    case PassingOn => Handled(s, s.installed, 0, 4) && Unreaped(s.child) && s.setupChild
    case Waiting => Handled(s, s.installed, 0, 4) && Unreaped(s.child) && s.setupChild
    case Clearing(cause) => Handled(s, s.installed, 0, 4) && !Unreaped(s.child)
    case Restoring(i, cause) => i <= 4 && Handled(s, s.installed, i, 4) && !Unreaped(s.child)
    case Died => !Unreaped(s.child)
    case _ => s.installed == {} && !Unreaped(s.child)
  }

  /** Handlers that were entered but have not recorded their signal yet. */
  predicate Unrecorded(s: State) {
    exists i :: 0 <= i < |s.frames| && !s.frames[i].recorded
  }

  /** A handler for a user-sent signal is still running. */
  predicate UserRunning(s: State) {
    exists i :: 0 <= i < |s.frames| && s.frames[i].user
  }

  /** A caught signal is recorded, or about to be. */
  predicate Recorded(s: State) {
    && (s.userCaught ==> s.caught)
    && (s.frames != [] ==> s.caught)
    && (s.caught && !s.parent.Died? ==> s.setupSignal.Some? || Unrecorded(s))
  }

  /** A user-sent signal has been passed on by the time the parent waits, or its handler will. */
  predicate PassedOn(s: State) {
    && (s.userCaught && s.parent.Waiting? ==> s.sent >= 1 || UserRunning(s))
    && (s.userCaught && s.child.Gone? ==> s.sent >= 1)
  }

  predicate NeverSaved(s: State) {
    && (s.parent == Returned(true) ==> !s.caught)
    && (s.saved ==> !s.caught)
    && (s.saved ==> s.parent.Unlocking? || s.parent.Finished? || s.parent.Died?)
  }

  predicate Supervised(s: State) {
    s.lock || s.parent.Died? || s.parent.Finished?
  }

  /** What the child knows about signals before it executes the setup code. */
  predicate ChildInformed(s: State) {
    && (s.beforeFork ==> s.childSignal.Some?)
    && (s.child.Resetting? ==> s.child.i <= 4 && forall sig :: sig in s.childInstalled ==> s.child.i <= Index(sig))
    && (s.child.Raising? || s.child.Ready? || s.child.Shell? ==> s.childInstalled == {})
    && (s.child.Ready? || s.child.Shell? || s.ran ==> !s.beforeFork)
    && (s.child.Ready? || s.child.Shell? ==> s.childSignal.None?)
    && (s.child.NoChild? ==> !s.ran)
  }

  predicate Inv(s: State) {
    Covered(s) && Recorded(s) && PassedOn(s) && NeverSaved(s) && Supervised(s) && ChildInformed(s)
  }

  lemma InstallingCovered(s: State)
    requires Covered(s) && s.frames == [] && (s.parent.Installing? || s.parent.Restoring?)
    ensures Covered(After(s, Main(s, true).value))
  {
    var t := After(s, Main(s, true).value);
    if s.parent.i < 4 {
      forall sig
        ensures Index(sig) == s.parent.i <==> sig == FORWARDED[s.parent.i]
      {
      }
    }
  }

  lemma MainCovered(s: State, ok: bool)
    requires Covered(s) && s.frames == [] && Main(s, ok).Some?
    requires !s.parent.Installing? && !s.parent.Restoring?
    ensures Covered(After(s, Main(s, ok).value))
  {
    match s.parent
    case Forking => if ok {} else {}
    case PassingOn => if s.setupSignal.Some? {} else {}
    case _ =>
  }

  /** Coverage is about the parent's place, the handled signals, and whether a child is unreaped. */
  lemma SameCoverage(s: State, t: State)
    requires Covered(s)
    requires t.parent == s.parent && t.installed == s.installed && t.ignored == s.ignored
    requires t.setupChild == s.setupChild && (t.child.NoChild? <==> s.child.NoChild?)
    requires Unreaped(t.child) <==> Unreaped(s.child)
    ensures Covered(t)
  {
    assert forall lo: nat, hi: nat :: Handled(t, t.installed, lo, hi) == Handled(s, s.installed, lo, hi);
  }

  lemma ArrivalCovered(s: State, sig: Sig, user: bool)
    requires Covered(s) && Arrives(s, sig, user).Some?
    ensures Covered(After(s, Arrives(s, sig, user).value))
  {
    var t := After(s, Arrives(s, sig, user).value);
    if sig in s.ignored || sig in s.installed {
      SameCoverage(s, t);
    } else {
      assert !Unreaped(s.child);
    }
  }

  lemma ParentCovered(s: State, ok: bool)
    requires Covered(s) && ChangeOf(s, ParentStep(ok)).Some?
    ensures Covered(After(s, ChangeOf(s, ParentStep(ok)).value))
  {
    if s.parent.Installing? || s.parent.Restoring? {
      InstallingCovered(s);
    } else {
      MainCovered(s, ok);
    }
  }

  lemma CoveredKeeps(s: State, e: Event)
    requires Covered(s) && ChangeOf(s, e).Some?
    ensures Covered(After(s, ChangeOf(s, e).value))
  {
    match e
    case ParentStep(ok) => ParentCovered(s, ok);
    case Signal(sig, user) => ArrivalCovered(s, sig, user);
    case _ =>
      ChildStaysCovered(s, e);
      SameCoverage(s, After(s, ChangeOf(s, e).value));
  }

  lemma ChildStaysCovered(s: State, e: Event)
    requires !e.ParentStep? && !e.Signal? && ChangeOf(s, e).Some?
    ensures var t := After(s, ChangeOf(s, e).value);
      && t.parent == s.parent && t.installed == s.installed && t.ignored == s.ignored
      && t.setupChild == s.setupChild && (t.child.NoChild? <==> s.child.NoChild?)
      && (Unreaped(t.child) <==> Unreaped(s.child))
  {
    match e
    case HandlerStep =>
    case ChildStep =>
    case Deliver(_, _) =>
    case ChildExit(_) =>
  }

  lemma RecordedKeeps(s: State, e: Event)
    requires Recorded(s) && ChangeOf(s, e).Some?
    ensures Recorded(After(s, ChangeOf(s, e).value))
  {
    var c := ChangeOf(s, e).value;
    var t := After(s, c);
    var last := |s.frames| - 1;
    if c.effect.Enter? {
      assert !t.frames[|s.frames|].recorded;
    } else if c.effect.Leave? || c.effect.LeaveAndKill? {
      if i :| 0 <= i < |s.frames| && !s.frames[i].recorded {
        assert !t.frames[i].recorded;
      }
    }
  }

  lemma PassedOnKeeps(s: State, e: Event)
    requires Covered(s) && Recorded(s) && PassedOn(s) && ChangeOf(s, e).Some?
    ensures PassedOn(After(s, ChangeOf(s, e).value))
  {
    var c := ChangeOf(s, e).value;
    var t := After(s, c);
    if c.effect.Enter? {
      assert t.frames[|s.frames|] == c.effect.f;
      assert forall i :: 0 <= i < |s.frames| ==> t.frames[i] == s.frames[i];
    } else if i :| 0 <= i < |s.frames| && s.frames[i].user {
      if i < |t.frames| {
        assert t.frames[i].user == s.frames[i].user;
      }
    }
  }

  lemma NeverSavedKeeps(s: State, e: Event)
    requires Covered(s) && Recorded(s) && NeverSaved(s) && Supervised(s) && ChangeOf(s, e).Some?
    ensures var t := After(s, ChangeOf(s, e).value); NeverSaved(t) && Supervised(t)
  {
    if e.Signal? {
      if e.sig in s.ignored {} else if e.sig !in s.installed {} else {}
    }
  }

  lemma ChildInformedKeeps(s: State, e: Event)
    requires Covered(s) && Recorded(s) && ChildInformed(s) && ChangeOf(s, e).Some?
    ensures ChildInformed(After(s, ChangeOf(s, e).value))
  {
  }

  lemma ApplyKeeps(s: State, e: Event)
    requires Inv(s) && Apply(s, e).Some?
    ensures Inv(Apply(s, e).value)
  {
    CoveredKeeps(s, e);
    RecordedKeeps(s, e);
    PassedOnKeeps(s, e);
    NeverSavedKeeps(s, e);
    ChildInformedKeeps(s, e);
  }

  lemma {:induction false} Always(install: bool, ignored: set<Sig>, events: seq<Event>)
    requires Run(Init(install, ignored), events).Some?
    ensures Inv(Run(Init(install, ignored), events).value)
  {
    if events != [] {
      Always(install, ignored, events[..|events| - 1]);
      ApplyKeeps(Run(Init(install, ignored), events[..|events| - 1]).value, events[|events| - 1]);
    }
  }

  /** Supervision, for hm_install and hm_command_run, any signals ignored at startup and every
      interleaving: the update lock is held for as long as the child is unreaped; a caught
      signal means the record is not written; a user-sent one caught before the child was reaped
      has been sent to the child by then; and one caught before the fork keeps the setup code
      from being executed at all. */
  lemma {:induction false} SetupIsSupervised(install: bool, ignored: set<Sig>, events: seq<Event>)
    requires Run(Init(install, ignored), events).Some?
    ensures var s := Run(Init(install, ignored), events).value;
      && (Unreaped(s.child) ==> s.lock)
      && (s.caught ==> !s.saved)
      && (s.userCaught && s.child.Gone? ==> s.sent >= 1)
      && (s.beforeFork ==> !s.ran)
  {
    Always(install, ignored, events);
  }

  /** One more event at the end of a run. */
  lemma Extend(s0: State, events: seq<Event>, s: State, e: Event) returns (longer: seq<Event>, t: State)
    requires Run(s0, events) == Some(s) && ChangeOf(s, e).Some?
    ensures longer == events + [e] && Run(s0, longer) == Some(t) && t == After(s, ChangeOf(s, e).value)
  {
    longer := events + [e];
    t := After(s, ChangeOf(s, e).value);
    assert longer[..|longer| - 1] == events;
  }

  /** A run between the two statements of forward_signals_to, for whatever child. */
  predicate BetweenStatements(s: State) {
    && s.parent == PassingOn && s.frames == [] && s.setupChild && s.sent == 0
    && s.ignored == {} && Term in s.installed && s.setupSignal.None?
  }

  lemma UpToForking() returns (events: seq<Event>, s: State)
    ensures Run(Init(false, {}), events) == Some(s)
    ensures forall i :: 0 <= i < |events| ==> events[i] == ParentStep(true)
    ensures s.parent == Forking && s.frames == [] && s.sent == 0 && s.setupSignal.None?
    ensures s.ignored == {} && Term in s.installed
  {
    var s0 := Init(false, {});
    events, s := [], s0;
    for i := 0 to 4
      invariant Run(s0, events) == Some(s)
      invariant forall k :: 0 <= k < |events| ==> events[k] == ParentStep(true)
      invariant s.parent == Installing(i) && s.frames == [] && s.sent == 0 && s.setupSignal.None?
      invariant s.ignored == {} && (i == 4 ==> Term in s.installed)
    {
      events, s := Extend(s0, events, s, ParentStep(true));
    }
    events, s := Extend(s0, events, s, ParentStep(true));
  }

  lemma UpToPassingOn() returns (events: seq<Event>, s: State)
    ensures Run(Init(false, {}), events) == Some(s) && BetweenStatements(s)
    ensures forall i :: 0 <= i < |events| ==> events[i] == ParentStep(true)
  {
    var s0 := Init(false, {});
    events, s := UpToForking();
    events, s := Extend(s0, events, s, ParentStep(true));
    events, s := Extend(s0, events, s, ParentStep(true));
  }

  /** A user-sent signal whose handler has recorded it and is about to look at setup_child. */
  lemma TermArrives(before: seq<Event>, s: State) returns (events: seq<Event>, t: State)
    requires Run(Init(false, {}), before) == Some(s) && BetweenStatements(s)
    ensures Run(Init(false, {}), events) == Some(t) && events == before + [Signal(Term, true), HandlerStep]
    ensures t.frames == [Frame(Term, true, true)] && t.setupSignal == Some(Term) && t.setupChild
    ensures t.parent == PassingOn && t.sent == 0
  {
    var s0 := Init(false, {});
    events, t := Extend(s0, before, s, Signal(Term, true));
    assert t.frames == [Frame(Term, true, false)];
    events, t := Extend(s0, events, t, HandlerStep);
  }

  lemma BothSend(before: seq<Event>, s: State) returns (events: seq<Event>, t: State)
    requires Run(Init(false, {}), before) == Some(s)
    requires s.frames == [Frame(Term, true, true)] && s.setupSignal == Some(Term) && s.setupChild
    requires s.parent == PassingOn && s.sent == 0
    ensures Run(Init(false, {}), events) == Some(t) && events == before + [HandlerStep, ParentStep(true)]
    ensures t.sent == 2
  {
    var s0 := Init(false, {});
    events, t := Extend(s0, before, s, HandlerStep);
    assert t.frames == [] && t.sent == 1;
    events, t := Extend(s0, events, t, ParentStep(true));
  }

  /** Exactly once is too much to ask: a single signal between the two statements of
      forward_signals_to is sent by its handler and again by the parent. */
  lemma SentTwice() returns (events: seq<Event>, k: nat)
    ensures var r := Run(Init(false, {}), events); r.Some? && r.value.sent == 2
    ensures k < |events| && forall i :: 0 <= i < |events| && i != k ==> !events[i].Signal?
  {
    var s: State;
    events, s := UpToPassingOn();
    k := |events|;
    events, s := TermArrives(events, s);
    events, s := BothSend(events, s);
  }

  // ---------- how often a single signal is sent ----------

  /** setup_child is set from forward_signals_to until it is cleared. */
  predicate ChildSet(p: Parent) {
    p.PassingOn? || p.Waiting? || (p.Clearing? && !p.cause.ForkFailed?)
  }

  /** The parent has yet to pass a recorded signal on. */
  predicate BeforePassing(p: Parent) {
    p.Installing? || p.Forking? || p.StoringChild? || p.PassingOn?
  }

  predicate Stage(s: State) {
    && (!s.parent.Died? ==> (s.setupChild <==> ChildSet(s.parent)))
    && (BeforePassing(s.parent) || s.parent.Waiting? ==> !s.child.Gone?)
    && (s.child.Gone? ==> !(s.parent.Clearing? && s.parent.cause.ForkFailed?))
  }

  /** No signal has arrived yet. */
  predicate Quiet(s: State) {
    Stage(s) && !s.parent.Died? && s.frames == [] && s.setupSignal.None? && s.sent == 0 && !s.caught
  }

  /** How often a signal that arrives at `at` is sent to a child that is waited for: by its
      handler if a user sent it and the child is known by then, and by the parent if that has yet
      to look. */
  function Sends(at: Parent, user: bool): nat {
    (if user && ChildSet(at) then 1 else 0) + (if BeforePassing(at) then 1 else 0)
  }

  /** One signal has been caught, when the parent was at `at`. */
  predicate CaughtOnce(s: State, at: Parent, user: bool) {
    && Stage(s)
    && (if s.frames != [] then
          && |s.frames| == 1 && s.frames[0].user == user && s.parent == at && !at.Died? && s.sent == 0
          && (s.frames[0].recorded ==> s.setupSignal.Some?)
        else
          && s.setupSignal.Some?
          && (BeforePassing(s.parent) ==> BeforePassing(at))
          && s.sent == (if user && ChildSet(at) then 1 else 0)
                       + (if BeforePassing(at) && (s.parent.Waiting? || s.child.Gone?) then 1 else 0))
  }

  lemma QuietKeeps(s: State, e: Event)
    requires Quiet(s) && !e.Signal? && ChangeOf(s, e).Some?
    ensures Quiet(After(s, ChangeOf(s, e).value))
  {
  }

  lemma HandlerKeepsCount(s: State, at: Parent, user: bool)
    requires CaughtOnce(s, at, user) && Handler(s).Some?
    ensures CaughtOnce(After(s, Handler(s).value), at, user)
  {
  }

  lemma StartKeepsCount(s: State, ok: bool, at: Parent, user: bool)
    requires CaughtOnce(s, at, user) && s.frames == [] && BeforePassing(s.parent)
    ensures CaughtOnce(After(s, Main(s, ok).value), at, user)
  {
    match s.parent
    case Installing(i) => if i < 4 {} else {}
    case Forking => if ok {} else {}
    case _ =>
  }

  /** From the wait on the parent sends nothing. */
  lemma EndSendsNothing(s: State, ok: bool)
    requires !BeforePassing(s.parent) && Main(s, ok).Some?
    ensures var c := Main(s, ok).value;
      && !Kills(c.effect) && !c.effect.Record? && !c.effect.Enter? && !BeforePassing(c.parent)
      && (c.parent.Waiting? || c.child.Gone? <==> s.parent.Waiting? || s.child.Gone?)
  {
    match s.parent
    case Restoring(i, _) => if i < 4 {} else {}
    case Judging(cause) => if s.setupSignal.Some? && (cause.Reaped? || s.install) {} else {}
    case _ =>
  }

  lemma EndKeepsStage(s: State, ok: bool)
    requires Stage(s) && !BeforePassing(s.parent) && Main(s, ok).Some?
    ensures Stage(After(s, Main(s, ok).value))
  {
    match s.parent
    case Restoring(i, _) => if i < 4 {} else {}
    case Judging(cause) => if s.setupSignal.Some? && (cause.Reaped? || s.install) {} else {}
    case Waiting => if ok {} else {}
    case _ =>
  }

  lemma EndKeepsCount(s: State, ok: bool, at: Parent, user: bool)
    requires CaughtOnce(s, at, user) && s.frames == [] && !BeforePassing(s.parent) && Main(s, ok).Some?
    ensures CaughtOnce(After(s, Main(s, ok).value), at, user)
  {
    EndSendsNothing(s, ok);
    EndKeepsStage(s, ok);
    CountStays(s, Main(s, ok).value, at, user);
  }

  lemma CountStays(s: State, c: Change, at: Parent, user: bool)
    requires CaughtOnce(s, at, user) && s.frames == [] && Stage(After(s, c)) && !BeforePassing(c.parent)
    requires !Kills(c.effect) && !c.effect.Record? && !c.effect.Enter?
    requires c.parent.Waiting? || c.child.Gone? <==> s.parent.Waiting? || s.child.Gone?
    ensures CaughtOnce(After(s, c), at, user)
  {
  }

  lemma MainKeepsCount(s: State, ok: bool, at: Parent, user: bool)
    requires CaughtOnce(s, at, user) && s.frames == [] && Main(s, ok).Some?
    ensures CaughtOnce(After(s, Main(s, ok).value), at, user)
  {
    if BeforePassing(s.parent) {
      StartKeepsCount(s, ok, at, user);
    } else {
      EndKeepsCount(s, ok, at, user);
    }
  }

  lemma CaughtOnceKeeps(s: State, e: Event, at: Parent, user: bool)
    requires CaughtOnce(s, at, user) && !e.Signal? && ChangeOf(s, e).Some?
    ensures CaughtOnce(After(s, ChangeOf(s, e).value), at, user)
  {
    match e
    case HandlerStep => HandlerKeepsCount(s, at, user);
    case ParentStep(ok) => MainKeepsCount(s, ok, at, user);
    case ChildStep =>
    case Deliver(_, _) =>
    case ChildExit(_) =>
  }

  lemma {:induction false} QuietRun(install: bool, ignored: set<Sig>, events: seq<Event>)
    requires Run(Init(install, ignored), events).Some?
    requires forall i :: 0 <= i < |events| ==> !events[i].Signal?
    ensures Quiet(Run(Init(install, ignored), events).value)
  {
    if events != [] {
      var before := events[..|events| - 1];
      QuietRun(install, ignored, before);
      QuietKeeps(Run(Init(install, ignored), before).value, events[|events| - 1]);
    }
  }

  /** A signal that is ignored or kills hacman is not caught, then or later. */
  predicate Uncaught(s: State) {
    !s.caught && s.frames == []
  }

  lemma {:induction false} CaughtRun(install: bool, ignored: set<Sig>, events: seq<Event>, k: nat)
    requires Run(Init(install, ignored), events).Some?
    requires k < |events| && events[k].Signal?
    requires forall i :: 0 <= i < |events| && i != k ==> !events[i].Signal?
    ensures Run(Init(install, ignored), events[..k]).Some?
    ensures var s := Run(Init(install, ignored), events).value;
      Uncaught(s) || CaughtOnce(s, Run(Init(install, ignored), events[..k]).value.parent, events[k].user)
  {
    var n := |events| - 1;
    var before := events[..n];
    if k == n {
      QuietRun(install, ignored, before);
      Arrival(Run(Init(install, ignored), before).value, events[n]);
    } else {
      CaughtRun(install, ignored, before, k);
      assert before[..k] == events[..k];
      LaterKeeps(Run(Init(install, ignored), before).value, events[n],
                 Run(Init(install, ignored), events[..k]).value.parent, events[k].user);
    }
  }

  lemma Arrival(s: State, e: Event)
    requires Quiet(s) && e.Signal? && ChangeOf(s, e).Some?
    ensures var t := After(s, ChangeOf(s, e).value); Uncaught(t) || CaughtOnce(t, s.parent, e.user)
  {
  }

  lemma LaterKeeps(s: State, e: Event, at: Parent, user: bool)
    requires Uncaught(s) || CaughtOnce(s, at, user)
    requires !e.Signal? && ChangeOf(s, e).Some?
    ensures var t := After(s, ChangeOf(s, e).value); Uncaught(t) || CaughtOnce(t, at, user)
  {
    if CaughtOnce(s, at, user) {
      CaughtOnceKeeps(s, e, at, user);
    }
  }

  /** Exactly how often a signal is sent. In every run with a single signal that was caught, in
      which the child has been reaped: the child was sent it twice if and only if a user sent it and
      it arrived between the two statements of forward_signals_to. Once its handler has returned, a
      user-sent one has been sent once if it arrived at any other time before setup_child was
      cleared, and one from a terminal if it arrived before forward_signals_to looked, although
      that has reached the child by itself; any other has not been sent. */
  lemma {:induction false} SentTwiceExactly(install: bool, ignored: set<Sig>, events: seq<Event>, k: nat)
    requires Run(Init(install, ignored), events).Some?
    requires k < |events| && events[k].Signal?
    requires forall i :: 0 <= i < |events| && i != k ==> !events[i].Signal?
    requires var s := Run(Init(install, ignored), events).value; s.caught && s.child.Gone?
    ensures Run(Init(install, ignored), events[..k]).Some?
    ensures var s := Run(Init(install, ignored), events).value;
      var at := Run(Init(install, ignored), events[..k]).value.parent;
      && (s.sent == 2 <==> events[k].user && at == PassingOn)
      && (s.frames == [] ==> s.sent == Sends(at, events[k].user))
  {
    CaughtRun(install, ignored, events, k);
  }
}
