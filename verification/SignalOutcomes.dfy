/** How a supervised setup ends: when it is recorded, and when hacman dies of a signal. */
module SignalOutcomes {
  import opened Wrappers
  import opened Signals

  /** The wait for the child succeeded: a step of the waiting parent that was not the failure of
      waitpid. */
  ghost predicate WaitSucceeded(s0: State, events: seq<Event>) {
    exists k :: 0 <= k < |events| && WaitedAt(s0, events, k)
  }

  ghost predicate WaitedAt(s0: State, events: seq<Event>, k: nat) {
    && k < |events| && events[k] == ParentStep(true)
    && Run(s0, events[..k]).Some? && Run(s0, events[..k]).value.parent.Waiting?
  }

  lemma {:induction false} WaitedEarlier(s0: State, events: seq<Event>, e: Event)
    requires Run(s0, events).Some?
    ensures WaitSucceeded(s0, events + [e]) <==>
      WaitSucceeded(s0, events) || (e == ParentStep(true) && Run(s0, events).value.parent.Waiting?)
  {
    var more := events + [e];
    assert more[..|events|] == events;
    assert forall k :: 0 <= k <= |events| ==> more[..k] == events[..k];
    forall k | 0 <= k < |events|
      ensures WaitedAt(s0, events, k) <==> WaitedAt(s0, more, k)
    {
    }
    assert WaitedAt(s0, more, |events|) <==> e == ParentStep(true) && Run(s0, events).value.parent.Waiting?;
  }

  // ---------- runs in which nothing is caught ----------

  /** No signal is on its way to the child. */
  predicate Undisturbed(s: State) {
    s.frames == [] && s.setupSignal.None? && s.childSignal.None? && s.pending == {}
  }

  /** `zero`: the setup has exited with 0; `waited`: the wait for it has succeeded. */
  predicate Outcome(s: State, zero: bool, waited: bool) {
    match s.parent
    case Installing(_) => !zero && !waited && !s.saved && s.child.NoChild?
    case Forking => !zero && !waited && !s.saved && s.child.NoChild?
    case StoringChild => !waited && !s.saved && (zero <==> s.child == Zombie(true))
    case PassingOn => !waited && !s.saved && (zero <==> s.child == Zombie(true))
    case Waiting => !waited && !s.saved && (zero <==> s.child == Zombie(true))
    case Clearing(cause) => !Unreaped(s.child) && !s.saved && (cause == Reaped(true) <==> zero && waited)
    case Restoring(_, cause) => !Unreaped(s.child) && !s.saved && (cause == Reaped(true) <==> zero && waited)
    case Judging(cause) => !Unreaped(s.child) && !s.saved && (cause == Reaped(true) <==> zero && waited)
    case Returned(success) => !Unreaped(s.child) && !s.saved && (success <==> zero && waited)
    case Unlocking => !Unreaped(s.child) && (s.saved <==> zero && waited)
    case Finished => !Unreaped(s.child) && (s.saved <==> zero && waited)
    case Died => true
  }

  lemma UncaughtStep(s: State, e: Event, zero: bool, waited: bool)
    requires Undisturbed(s) && Outcome(s, zero, waited) && ChangeOf(s, e).Some? && !After(s, ChangeOf(s, e).value).caught
    requires !s.parent.Died?
    ensures var t := After(s, ChangeOf(s, e).value);
      t.parent.Died? || (Undisturbed(t) && Outcome(t, zero || e == ChildExit(true),
                                                   waited || (e == ParentStep(true) && s.parent.Waiting?)))
  {
    match e
    case ParentStep(ok) => UncaughtParent(s, ok, zero, waited);
    case Signal(sig, user) => if sig in s.ignored {} else if sig !in s.installed {} else {}
    case ChildStep =>
    case ChildExit(_) =>
    case _ =>
  }

  lemma UncaughtParent(s: State, ok: bool, zero: bool, waited: bool)
    requires Undisturbed(s) && Outcome(s, zero, waited) && Main(s, ok).Some?
    ensures var t := After(s, Main(s, ok).value);
      Undisturbed(t) && Outcome(t, zero, waited || (ok && s.parent.Waiting?))
  {
    match s.parent
    case Waiting => UncaughtWait(s, ok, zero, waited);
    case Clearing(_) => UncaughtEnd(s, ok, zero, waited);
    case Restoring(_, _) => UncaughtEnd(s, ok, zero, waited);
    case Judging(_) => UncaughtEnd(s, ok, zero, waited);
    case Returned(_) => UncaughtEnd(s, ok, zero, waited);
    case Unlocking => UncaughtEnd(s, ok, zero, waited);
    case _ => UncaughtStart(s, ok, zero, waited);
  }

  lemma UncaughtStart(s: State, ok: bool, zero: bool, waited: bool)
    requires Undisturbed(s) && Outcome(s, zero, waited) && Main(s, ok).Some? && BeforePassing(s.parent)
    ensures var t := After(s, Main(s, ok).value); Undisturbed(t) && Outcome(t, zero, waited)
  {
    match s.parent
    case Installing(i) => if i < 4 {} else {}
    case Forking => if ok {} else {}
    case _ =>
  }

  lemma UncaughtWait(s: State, ok: bool, zero: bool, waited: bool)
    requires Undisturbed(s) && Outcome(s, zero, waited) && s.parent.Waiting? && Main(s, ok).Some?
    ensures var t := After(s, Main(s, ok).value); Undisturbed(t) && Outcome(t, zero, waited || ok)
  {
    if ok {} else {}
  }

  lemma UncaughtEnd(s: State, ok: bool, zero: bool, waited: bool)
    requires Undisturbed(s) && Outcome(s, zero, waited) && Main(s, ok).Some?
    requires !BeforePassing(s.parent) && !s.parent.Waiting?
    ensures var t := After(s, Main(s, ok).value); Undisturbed(t) && Outcome(t, zero, waited)
  {
    match s.parent
    case Restoring(i, _) => if i < 4 {} else {}
    case _ =>
  }

  lemma {:induction false} UncaughtRun(install: bool, ignored: set<Sig>, events: seq<Event>)
    requires Run(Init(install, ignored), events).Some? && !Run(Init(install, ignored), events).value.caught
    ensures var s := Run(Init(install, ignored), events).value;
      s.parent.Died? ||
      (Undisturbed(s) && Outcome(s, ChildExit(true) in events, WaitSucceeded(Init(install, ignored), events)))
  {
    var s0 := Init(install, ignored);
    if events != [] {
      var n := |events| - 1;
      var before := Run(s0, events[..n]).value;
      assert events == events[..n] + [events[n]];
      WaitedEarlier(s0, events[..n], events[n]);
      UncaughtRun(install, ignored, events[..n]);
      if !before.parent.Died? {
        UncaughtStep(before, events[n], ChildExit(true) in events[..n], WaitSucceeded(s0, events[..n]));
      } else {
        DeadStaysDead(before, events[n]);
      }
    }
  }

  lemma DeadStaysDead(s: State, e: Event)
    requires s.parent.Died? && ChangeOf(s, e).Some?
    ensures After(s, ChangeOf(s, e).value).parent.Died?
  {
  }

  /** What gets recorded. In every run that comes to its end without having caught a signal, for
      hm_install and hm_command_run alike, the record is written if and only if the setup exited
      with 0 and the wait for it succeeded. */
  lemma {:induction false} RecordedExactly(install: bool, ignored: set<Sig>, events: seq<Event>)
    requires Run(Init(install, ignored), events).Some?
    requires var s := Run(Init(install, ignored), events).value; s.parent == Finished && !s.caught
    ensures Run(Init(install, ignored), events).value.saved <==>
      ChildExit(true) in events && WaitSucceeded(Init(install, ignored), events)
  {
    UncaughtRun(install, ignored, events);
  }

  // ---------- runs in which a signal is caught ----------

  /** After a successful wait, cleanup knows it; it is not left with a signal caught. */
  predicate Bound(s: State, waited: bool) {
    && (waited && s.parent.Clearing? ==> s.parent.cause.Reaped?)
    && (waited && s.parent.Restoring? ==> s.parent.cause.Reaped?)
    && (waited && s.parent.Judging? ==> s.parent.cause.Reaped?)
    && (waited && (s.parent.Returned? || s.parent.Unlocking? || s.parent.Finished?) ==> !s.caught)
    && (s.parent.Installing? || s.parent.Forking? || s.parent.StoringChild? || s.parent.PassingOn? || s.parent.Waiting?
        ==> !waited)
  }

  lemma BoundStep(s: State, e: Event, waited: bool)
    requires Inv(s) && Bound(s, waited) && ChangeOf(s, e).Some?
    ensures Bound(After(s, ChangeOf(s, e).value), waited || (e == ParentStep(true) && s.parent.Waiting?))
  {
    match e
    case ParentStep(ok) => BoundParent(s, ok, waited);
    case Signal(sig, user) => if sig in s.ignored {} else if sig !in s.installed {} else {}
    case HandlerStep =>
    case ChildStep =>
    case Deliver(_, _) =>
    case ChildExit(_) =>
  }

  lemma BoundParent(s: State, ok: bool, waited: bool)
    requires Recorded(s) && Bound(s, waited) && s.frames == [] && Main(s, ok).Some?
    ensures Bound(After(s, Main(s, ok).value), waited || (ok && s.parent.Waiting?))
  {
    match s.parent
    case Installing(i) => if i < 4 {} else {}
    case Restoring(i, _) => if i < 4 {} else {}
    case Forking => if ok {} else {}
    case Waiting => if ok {} else {}
    case Judging(cause) => if s.setupSignal.Some? {} else {}
    case _ =>
  }

  lemma {:induction false} BoundRun(install: bool, ignored: set<Sig>, events: seq<Event>)
    requires Run(Init(install, ignored), events).Some?
    ensures Bound(Run(Init(install, ignored), events).value, WaitSucceeded(Init(install, ignored), events))
  {
    var s0 := Init(install, ignored);
    if events != [] {
      var n := |events| - 1;
      assert events == events[..n] + [events[n]];
      WaitedEarlier(s0, events[..n], events[n]);
      BoundRun(install, ignored, events[..n]);
      Always(install, ignored, events[..n]);
      BoundStep(Run(s0, events[..n]).value, events[n], WaitSucceeded(s0, events[..n]));
    }
  }

  /** A run that caught a signal and has waited for its child does not come back to its caller: it
      can leave the cleanup only by dying, which is the one step left once cleanup is done. */
  lemma {:induction false} CaughtMeansDeath(install: bool, ignored: set<Sig>, events: seq<Event>)
    requires Run(Init(install, ignored), events).Some? && WaitSucceeded(Init(install, ignored), events)
    requires Run(Init(install, ignored), events).value.caught
    ensures var s := Run(Init(install, ignored), events).value;
      && !s.parent.Returned? && !s.parent.Unlocking? && !s.parent.Finished? && !s.saved
      && (s.parent.Judging? && s.frames == [] ==>
            forall ok :: Apply(s, ParentStep(ok)).Some? && Apply(s, ParentStep(ok)).value.parent.Died?)
  {
    BoundRun(install, ignored, events);
    Always(install, ignored, events);
  }

  // ---------- every run can come to an end ----------

  function ParentLeft(p: Parent): nat {
    match p
    case Installing(i) => if i <= 4 then 20 - i else 16
    case Forking => 15
    case StoringChild => 14
    case PassingOn => 13
    case Waiting => 12
    case Clearing(_) => 11
    case Restoring(i, _) => if i <= 4 then 10 - i else 6
    case Judging(_) => 5
    case Returned(_) => 4
    case Unlocking => 3
    case Finished => 0
    case Died => 0
  }

  function ChildLeft(c: Child): nat {
    match c
    case Resetting(i) => if i <= 4 then 9 - i else 5
    case Raising => 4
    case Ready => 3
    case Shell => 2
    case _ => 0
  }

  function HandlersLeft(frames: seq<Frame>): nat {
    if frames == [] then 0 else 2 * |frames| - if frames[|frames| - 1].recorded then 1 else 0
  }

  predicate Over(s: State) {
    s.parent.Died? || s.parent.Finished?
  }

  /** A bound on what is left to do when no further signal arrives. */
  function Left(s: State): nat {
    100 * ParentLeft(s.parent) + HandlersLeft(s.frames) + ChildLeft(s.child)
  }

  /** No signal, no failing fork or waitpid, and the child ends by exiting with 0. */
  predicate Smooth(e: Event) {
    e == ParentStep(true) || e == HandlerStep || e == ChildStep || e == ChildExit(true)
  }

  /** The handler, the parent or, while that waits, the child can go on. */
  lemma NextStep(s: State) returns (e: Event)
    requires Inv(s) && !Over(s)
    ensures Smooth(e) && ChangeOf(s, e).Some? && Left(After(s, ChangeOf(s, e).value)) < Left(s)
  {
    if s.frames != [] {
      e := HandlerStep;
    } else if s.parent.Waiting? && !s.child.Zombie? {
      e := if s.child.Shell? then ChildExit(true) else ChildStep;
      ChildGoesOn(s, e);
    } else {
      e := ParentStep(true);
      ParentGoesOn(s);
    }
  }

  lemma ChildGoesOn(s: State, e: Event)
    requires Inv(s) && Unreaped(s.child) && !s.child.Zombie?
    requires e == if s.child.Shell? then ChildExit(true) else ChildStep
    ensures ChangeOf(s, e).Some? && Left(After(s, ChangeOf(s, e).value)) < Left(s)
  {
    match s.child
    case Resetting(i) => if i < 4 {} else {}
    case Raising => if s.childSignal.Some? {} else {}
    case _ =>
  }

  lemma ParentGoesOn(s: State)
    requires Covered(s) && s.frames == [] && !Over(s) && (s.parent.Waiting? ==> s.child.Zombie?)
    ensures Main(s, true).Some? && Left(After(s, Main(s, true).value)) < Left(s)
  {
    if BeforePassing(s.parent) || s.parent.Waiting? {
      StartGoesOn(s);
    } else {
      EndGoesOn(s);
    }
  }

  lemma StartGoesOn(s: State)
    requires Covered(s) && s.frames == [] && (BeforePassing(s.parent) || (s.parent.Waiting? && s.child.Zombie?))
    ensures Main(s, true).Some? && Left(After(s, Main(s, true).value)) < Left(s)
  {
    match s.parent
    case Installing(i) => if i < 4 {} else {}
    case PassingOn => if s.setupSignal.Some? {} else {}
    case _ =>
  }

  lemma EndGoesOn(s: State)
    requires Covered(s) && s.frames == [] && !Over(s) && !BeforePassing(s.parent) && !s.parent.Waiting?
    ensures Main(s, true).Some? && Left(After(s, Main(s, true).value)) < Left(s)
  {
    match s.parent
    case Restoring(i, _) => if i < 4 {} else {}
    case Judging(cause) => if s.setupSignal.Some? && (cause.Reaped? || s.install) {} else {}
    case _ =>
  }

  /** Nothing gets stuck: from wherever a run has got to, it can come to an end without a further
      signal. */
  lemma {:induction false} CanEnd(install: bool, ignored: set<Sig>, events: seq<Event>) returns (longer: seq<Event>)
    requires Run(Init(install, ignored), events).Some?
    ensures events <= longer && Run(Init(install, ignored), longer).Some?
    ensures forall i :: |events| <= i < |longer| ==> Smooth(longer[i])
    ensures var s := Run(Init(install, ignored), longer).value; s.parent.Died? || s.parent.Finished?
    decreases Left(Run(Init(install, ignored), events).value)
  {
    var s0 := Init(install, ignored);
    var s := Run(s0, events).value;
    if Over(s) {
      longer := events;
    } else {
      Always(install, ignored, events);
      var e := NextStep(s);
      var more, t := Extend(s0, events, s, e);
      longer := CanEnd(install, ignored, more);
      assert longer[|events|] == more[|events|] == e;
    }
  }

  lemma {:induction false} EndsUnlocked(install: bool, ignored: set<Sig>, events: seq<Event>)
    requires Run(Init(install, ignored), events).Some?
    ensures var s := Run(Init(install, ignored), events).value; Over(s) ==> !s.lock
  {
    var s0 := Init(install, ignored);
    if events != [] {
      EndsUnlocked(install, ignored, events[..|events| - 1]);
      OverUnlocks(Run(s0, events[..|events| - 1]).value, events[|events| - 1]);
    }
  }

  lemma OverUnlocks(s: State, e: Event)
    requires ChangeOf(s, e).Some? && (Over(s) ==> !s.lock)
    ensures var t := After(s, ChangeOf(s, e).value); Over(t) ==> !t.lock
  {
    match e
    case ParentStep(_) =>
    case Signal(_, _) =>
    case _ =>
  }

  // ---------- runs in which nothing goes wrong ----------

  predicate OnTrack(s: State) {
    && Undisturbed(s)
    && (s.child.Zombie? ==> s.child == Zombie(true))
    && match s.parent
       case Clearing(cause) => cause == Reaped(true)
       case Restoring(_, cause) => cause == Reaped(true)
       case Judging(cause) => cause == Reaped(true)
       case Returned(success) => success
       case Unlocking => s.saved
       case Finished => s.saved
       case Died => false
       case _ => true
  }

  lemma SmoothStep(s: State, e: Event)
    requires OnTrack(s) && Smooth(e) && ChangeOf(s, e).Some?
    ensures OnTrack(After(s, ChangeOf(s, e).value))
  {
    match e
    case ParentStep(_) => if BeforePassing(s.parent) { SmoothStart(s); } else { SmoothEnd(s); }
    case ChildStep =>
    case _ =>
  }

  lemma SmoothStart(s: State)
    requires OnTrack(s) && BeforePassing(s.parent) && Main(s, true).Some?
    ensures OnTrack(After(s, Main(s, true).value))
  {
    match s.parent
    case Installing(i) => if i < 4 {} else {}
    case _ =>
  }

  lemma SmoothEnd(s: State)
    requires OnTrack(s) && !BeforePassing(s.parent) && Main(s, true).Some?
    ensures OnTrack(After(s, Main(s, true).value))
  {
    if s.parent.Restoring? || s.parent.Judging? {
      SmoothCleanup(s);
    }
  }

  lemma SmoothCleanup(s: State)
    requires OnTrack(s) && (s.parent.Restoring? || s.parent.Judging?)
    ensures OnTrack(After(s, Main(s, true).value))
  {
    if s.parent.Restoring? && s.parent.i < 4 {} else {}
  }

  lemma {:induction false} SmoothRun(install: bool, ignored: set<Sig>, events: seq<Event>)
    requires Run(Init(install, ignored), events).Some? && forall i :: 0 <= i < |events| ==> Smooth(events[i])
    ensures OnTrack(Run(Init(install, ignored), events).value)
  {
    if events != [] {
      SmoothRun(install, ignored, events[..|events| - 1]);
      SmoothStep(Run(Init(install, ignored), events[..|events| - 1]).value, events[|events| - 1]);
    }
  }

  /** A setup with which nothing goes wrong is recorded in the end, and it can always get there. */
  lemma {:induction false} SmoothRunRecords(install: bool, ignored: set<Sig>, events: seq<Event>)
    returns (longer: seq<Event>)
    requires Run(Init(install, ignored), events).Some? && forall i :: 0 <= i < |events| ==> Smooth(events[i])
    ensures events <= longer && Run(Init(install, ignored), longer).Some?
    ensures var s := Run(Init(install, ignored), longer).value; s.parent == Finished && s.saved && !s.lock
  {
    longer := CanEnd(install, ignored, events);
    forall i | 0 <= i < |longer|
      ensures Smooth(longer[i])
    {
      if i < |events| {
        assert longer[i] == events[i];
      }
    }
    SmoothRun(install, ignored, longer);
    EndsUnlocked(install, ignored, longer);
  }

  // ---------- handlers ----------

  /** Running handlers are for different signals. */
  predicate Distinct(frames: seq<Frame>) {
    forall i, j :: 0 <= i < j < |frames| ==> frames[i].sig != frames[j].sig
  }

  lemma DistinctStep(s: State, e: Event)
    requires Distinct(s.frames) && ChangeOf(s, e).Some?
    ensures Distinct(After(s, ChangeOf(s, e).value).frames)
  {
    match e
    case Signal(sig, user) => if sig in s.ignored {} else if sig !in s.installed {} else {}
    case HandlerStep =>
    case _ =>
  }

  /** A signal interrupts hacman and any handler, except one for itself, during which it stays
      blocked; while it is handled nothing but its own handlers moves the parent. */
  lemma {:induction false} HandlersNest(install: bool, ignored: set<Sig>, events: seq<Event>, sig: Sig, user: bool)
    requires Run(Init(install, ignored), events).Some?
    ensures var s := Run(Init(install, ignored), events).value;
      && Distinct(s.frames)
      && (s.frames != [] ==> forall ok :: Apply(s, ParentStep(ok)).None?)
      && (!s.parent.Died? && sig in s.installed ==>
            (Apply(s, Signal(sig, user)).None? <==> exists i :: 0 <= i < |s.frames| && s.frames[i].sig == sig))
  {
    if events != [] {
      var before := Run(Init(install, ignored), events[..|events| - 1]).value;
      HandlersNest(install, ignored, events[..|events| - 1], sig, user);
      DistinctStep(before, events[|events| - 1]);
    }
    Always(install, ignored, events);
    InstalledNotIgnored(install, ignored, events, sig);
  }

  lemma {:induction false} InstalledNotIgnored(install: bool, ignored: set<Sig>, events: seq<Event>, sig: Sig)
    requires Run(Init(install, ignored), events).Some?
    ensures var s := Run(Init(install, ignored), events).value; s.ignored == ignored && !(sig in s.installed && sig in ignored)
  {
    if events != [] {
      InstalledNotIgnored(install, ignored, events[..|events| - 1], sig);
      var s := Run(Init(install, ignored), events[..|events| - 1]).value;
      var e := events[|events| - 1];
      if e.ParentStep? {
        assert s.parent.Installing? && s.parent.i < 4 ==> FORWARDED[s.parent.i] in s.ignored || FORWARDED[s.parent.i] !in s.ignored;
      }
    }
  }

  // ---------- a fork that fails ----------

  predicate Childless(s: State) {
    && s.child.NoChild? && !s.ran && !s.saved && s.sent == 0 && !s.setupChild
    && match s.parent
       case Clearing(cause) => cause == ForkFailed
       case Restoring(_, cause) => cause == ForkFailed
       case Judging(cause) => cause == ForkFailed
       case Returned(success) => !success
       case Unlocking => true
       case Finished => true
       case Died => true
       case _ => false
  }

  lemma ChildlessStep(s: State, e: Event)
    requires Childless(s) && ChangeOf(s, e).Some?
    ensures Childless(After(s, ChangeOf(s, e).value))
  {
    match e
    case ParentStep(ok) => ChildlessParent(s, ok);
    case Signal(sig, user) => if sig in s.ignored {} else if sig !in s.installed {} else {}
    case HandlerStep =>
    case _ =>
  }

  lemma ChildlessParent(s: State, ok: bool)
    requires Childless(s) && Main(s, ok).Some?
    ensures Childless(After(s, Main(s, ok).value))
  {
    match s.parent
    case Restoring(i, _) => if i < 4 {} else {}
    case Judging(_) => if s.setupSignal.Some? && s.install {} else {}
    case _ =>
  }

  lemma ForkFails(s: State)
    requires Unstarted(s) && s.parent == Forking && ChangeOf(s, ParentStep(false)).Some?
    ensures Childless(After(s, ChangeOf(s, ParentStep(false)).value))
  {
  }

  lemma {:induction false} FailedForkRun(install: bool, ignored: set<Sig>, events: seq<Event>, k: nat)
    requires Run(Init(install, ignored), events).Some? && k < |events| && events[k] == ParentStep(false)
    requires Run(Init(install, ignored), events[..k]).Some? && Run(Init(install, ignored), events[..k]).value.parent == Forking
    ensures Childless(Run(Init(install, ignored), events).value)
  {
    var n := |events| - 1;
    var before := Run(Init(install, ignored), events[..n]).value;
    if k == n {
      UnstartedRun(install, ignored, events[..n]);
      ForkFails(before);
    } else {
      assert events[..n][..k] == events[..k];
      FailedForkRun(install, ignored, events[..n], k);
      ChildlessStep(before, events[n]);
    }
  }

  /** A fork that fails starts nothing: no setup code runs, nothing is sent or recorded. */
  lemma {:induction false} FailedForkRunsNothing(install: bool, ignored: set<Sig>, events: seq<Event>, k: nat)
    requires Run(Init(install, ignored), events).Some? && k < |events| && events[k] == ParentStep(false)
    requires Run(Init(install, ignored), events[..k]).Some? && Run(Init(install, ignored), events[..k]).value.parent == Forking
    ensures var s := Run(Init(install, ignored), events).value; s.child.NoChild? && !s.ran && !s.saved && s.sent == 0
  {
    FailedForkRun(install, ignored, events, k);
  }

  /** Before the fork there is no child. */
  predicate Unstarted(s: State) {
    s.parent.Installing? || s.parent.Forking? ==>
      s.child.NoChild? && !s.ran && !s.saved && s.sent == 0 && !s.setupChild
  }

  lemma {:induction false} UnstartedRun(install: bool, ignored: set<Sig>, events: seq<Event>)
    requires Run(Init(install, ignored), events).Some?
    ensures Unstarted(Run(Init(install, ignored), events).value)
  {
    if events != [] {
      var before := Run(Init(install, ignored), events[..|events| - 1]).value;
      UnstartedRun(install, ignored, events[..|events| - 1]);
      UnstartedStep(before, events[|events| - 1]);
    }
  }

  lemma UnstartedStep(s: State, e: Event)
    requires Unstarted(s) && ChangeOf(s, e).Some?
    ensures Unstarted(After(s, ChangeOf(s, e).value))
  {
    match e
    case ParentStep(ok) =>
    case Signal(sig, user) => if sig in s.ignored {} else if sig !in s.installed {} else {}
    case HandlerStep =>
    case _ =>
  }

  /** A child that was killed, or never got to the setup code, has not exited with 0. */
  lemma {:induction false} ZeroMeansExit(install: bool, ignored: set<Sig>, events: seq<Event>)
    requires Run(Init(install, ignored), events).Some?
    ensures var s := Run(Init(install, ignored), events).value;
      && (s.child == Zombie(true) ==> ChildExit(true) in events && s.ran)
      && (s.child == Shell ==> s.ran)
  {
    if events != [] {
      var before := Run(Init(install, ignored), events[..|events| - 1]).value;
      ZeroMeansExit(install, ignored, events[..|events| - 1]);
      ZeroStep(before, events[|events| - 1]);
    }
  }

  lemma ZeroStep(s: State, e: Event)
    requires ChangeOf(s, e).Some? && (s.child == Shell || s.child == Zombie(true) ==> s.ran)
    ensures var t := After(s, ChangeOf(s, e).value);
      && (t.child == Shell || t.child == Zombie(true) ==> t.ran)
      && (t.child == Zombie(true) ==> s.child == Zombie(true) || e == ChildExit(true))
  {
    match e
    case ParentStep(ok) => if !s.parent.Waiting? && !s.parent.Forking? { ParentLeavesChild(s, ok); }
    case ChildExit(_) =>
    case ChildStep =>
    case Deliver(_, _) =>
    case _ =>
  }

  // ---------- the child's side ----------

  /** Whoever is still on the way to the setup code. */
  predicate Preparing(c: Child) {
    c.Resetting? || c.Raising? || c.Ready?
  }

  /** The setup code will never be executed: the child has a signal to raise, or has ended. */
  predicate Doomed(s: State) {
    && !s.ran
    && match s.child
       case Resetting(_) => s.childSignal.Some?
       case Raising => s.childSignal.Some?
       case Zombie(zero) => !zero
       case Gone => true
       case _ => false
  }

  lemma DoomedStays(s: State, e: Event)
    requires Doomed(s) && Covered(s) && ChangeOf(s, e).Some?
    ensures Doomed(After(s, ChangeOf(s, e).value))
  {
    match e
    case ParentStep(ok) => DoomedParent(s, ok);
    case ChildStep =>
    case Deliver(_, _) =>
    case ChildExit(_) =>
    case Signal(sig, user) => if sig in s.ignored {} else if sig !in s.installed {} else {}
    case HandlerStep =>
  }

  lemma DoomedParent(s: State, ok: bool)
    requires Doomed(s) && Covered(s) && Main(s, ok).Some?
    ensures Doomed(After(s, Main(s, ok).value))
  {
    if s.parent.Waiting? {
      if ok {} else {}
    } else {
      assert !s.parent.Forking?;
      ParentLeavesChild(s, ok);
    }
  }

  lemma ParentLeavesChild(s: State, ok: bool)
    requires !s.parent.Waiting? && !s.parent.Forking? && Main(s, ok).Some?
    ensures var t := After(s, Main(s, ok).value); t.child == s.child && t.childSignal == s.childSignal && t.ran == s.ran
  {
    match s.parent
    case Installing(i) => if i < 4 {} else {}
    case Restoring(i, _) => if i < 4 {} else {}
    case _ =>
  }

  /** Before it executes the setup code, a child that has run nothing has something to lose. */
  predicate NotYetRun(s: State) {
    Preparing(s.child) || s.child.NoChild? ==> !s.ran
  }

  lemma {:induction false} NotYetRunAlways(install: bool, ignored: set<Sig>, events: seq<Event>)
    requires Run(Init(install, ignored), events).Some?
    ensures NotYetRun(Run(Init(install, ignored), events).value)
  {
    if events != [] {
      NotYetRunAlways(install, ignored, events[..|events| - 1]);
      Always(install, ignored, events[..|events| - 1]);
      NotYetRunStep(Run(Init(install, ignored), events[..|events| - 1]).value, events[|events| - 1]);
    }
  }

  lemma NotYetRunStep(s: State, e: Event)
    requires NotYetRun(s) && Covered(s) && ChangeOf(s, e).Some?
    ensures NotYetRun(After(s, ChangeOf(s, e).value))
  {
    match e
    case ParentStep(ok) => if !s.parent.Waiting? && !s.parent.Forking? { ParentLeavesChild(s, ok); }
    case ChildStep =>
    case _ =>
  }

  lemma {:induction false} DoomedRun(install: bool, ignored: set<Sig>, events: seq<Event>, k: nat)
    requires Run(Init(install, ignored), events).Some? && k < |events| && events[k].Deliver?
    requires Run(Init(install, ignored), events[..k]).Some? && Preparing(Run(Init(install, ignored), events[..k]).value.child)
    ensures Doomed(Run(Init(install, ignored), events).value)
  {
    var n := |events| - 1;
    var before := Run(Init(install, ignored), events[..n]).value;
    Always(install, ignored, events[..n]);
    if k == n {
      NotYetRunAlways(install, ignored, events[..n]);
      DeliveredDooms(before, events[n]);
    } else {
      assert events[..n][..k] == events[..k];
      DoomedRun(install, ignored, events[..n], k);
      DoomedStays(before, events[n]);
    }
  }

  lemma DeliveredDooms(s: State, e: Event)
    requires ChildInformed(s) && NotYetRun(s) && e.Deliver? && Preparing(s.child) && ChangeOf(s, e).Some?
    ensures Doomed(After(s, ChangeOf(s, e).value))
  {
  }

  /** A signal that reaches the child before it has executed the setup code keeps it from doing so,
      whether the inherited handler still records it or not. */
  lemma {:induction false} ReachedBeforeExec(install: bool, ignored: set<Sig>, events: seq<Event>, k: nat)
    requires Run(Init(install, ignored), events).Some? && k < |events| && events[k].Deliver?
    requires Run(Init(install, ignored), events[..k]).Some? && Preparing(Run(Init(install, ignored), events[..k]).value.child)
    ensures !Run(Init(install, ignored), events).value.ran
  {
    DoomedRun(install, ignored, events, k);
  }

  /** Only what was sent is delivered. */
  predicate Owed(s: State) {
    s.pending != {} ==> s.sent >= 1
  }

  lemma {:induction false} OwedAlways(install: bool, ignored: set<Sig>, events: seq<Event>)
    requires Run(Init(install, ignored), events).Some?
    ensures Owed(Run(Init(install, ignored), events).value)
  {
    if events != [] {
      OwedAlways(install, ignored, events[..|events| - 1]);
    }
  }

  /** A signal that was sent to a child not reaped can be delivered from then on. */
  lemma {:induction false} SentIsPending(install: bool, ignored: set<Sig>, events: seq<Event>, e: Event, fatal: bool)
    requires Run(Init(install, ignored), events).Some? && Apply(Run(Init(install, ignored), events).value, e).Some?
    requires var s := Run(Init(install, ignored), events).value; var t := Apply(s, e).value;
      t.sent > s.sent && !t.child.NoChild? && !t.child.Gone?
    ensures exists sig :: Apply(Apply(Run(Init(install, ignored), events).value, e).value, Deliver(sig, fatal)).Some?
  {
    var s := Run(Init(install, ignored), events).value;
    var t := Apply(s, e).value;
    var sig := ChangeOf(s, e).value.effect.sig;
    KilledIsPending(s, e);
    assert Apply(t, Deliver(sig, fatal)).Some?;
  }

  lemma KilledIsPending(s: State, e: Event)
    requires ChangeOf(s, e).Some? && After(s, ChangeOf(s, e).value).sent > s.sent && Unreaped(After(s, ChangeOf(s, e).value).child)
    ensures var c := ChangeOf(s, e).value; Kills(c.effect) && c.effect.sig in After(s, c).pending
  {
    match e
    case ParentStep(ok) =>
    case HandlerStep =>
    case _ =>
  }

  /** A signal is delivered only if it was sent, to a child that is not reaped. Setup code that
      lives through it goes on, other setup code ends without having exited with 0, and a child
      that has ended stays as it is. */
  lemma {:induction false} DeliveredMeans(install: bool, ignored: set<Sig>, events: seq<Event>, sig: Sig, fatal: bool)
    requires Run(Init(install, ignored), events).Some?
    requires Apply(Run(Init(install, ignored), events).value, Deliver(sig, fatal)).Some?
    ensures var s := Run(Init(install, ignored), events).value; var t := Apply(s, Deliver(sig, fatal)).value;
      && s.sent >= 1 && !s.child.NoChild? && !s.child.Gone? && sig in s.pending && sig !in t.pending
      && (s.child.Shell? ==> t.child == if fatal then Zombie(false) else Shell)
      && (s.child.Zombie? ==> t.child == s.child)
  {
    Always(install, ignored, events);
    OwedAlways(install, ignored, events);
  }
}
