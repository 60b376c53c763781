/** What the history in the state of a supervised setup says about the run, what the child still has
    of its parent's handlers, and that a dead hacman does nothing. */
module SignalHistory {
  import opened Wrappers
  import opened Signals
  import opened SignalOutcomes

  // ---------- caught signals ----------

  /** The signal finds its handler installed and not running, so the handler starts. */
  predicate CatchesNow(s: State, e: Event) {
    && e.Signal? && !s.parent.Died? && e.sig !in s.ignored && e.sig in s.installed
    && forall i :: 0 <= i < |s.frames| ==> s.frames[i].sig != e.sig
  }

  /** ... sent by a user, while the child is not reaped. */
  predicate CatchesUserNow(s: State, e: Event) {
    CatchesNow(s, e) && e.user && !s.child.Gone?
  }

  /** The child is forked, in a process that has caught a signal before. */
  predicate ForksLateNow(s: State, e: Event) {
    e == ParentStep(true) && s.parent == Forking && s.frames == [] && s.caught
  }

  /** Before event `k` the state is `s`. */
  ghost predicate Before(s0: State, events: seq<Event>, k: int, s: State) {
    0 <= k < |events| && Run(s0, events[..k]) == Some(s)
  }

  ghost predicate Caught(s0: State, events: seq<Event>, k: int) {
    exists s :: Before(s0, events, k, s) && CatchesNow(s, events[k])
  }

  ghost predicate CaughtUser(s0: State, events: seq<Event>, k: int) {
    exists s :: Before(s0, events, k, s) && CatchesUserNow(s, events[k])
  }

  ghost predicate ForkedLate(s0: State, events: seq<Event>, k: int) {
    exists s :: Before(s0, events, k, s) && ForksLateNow(s, events[k])
  }

  lemma {:induction false} EarlierEvent(s0: State, events: seq<Event>, s: State, e: Event, k: int)
    requires Run(s0, events) == Some(s)
    ensures Caught(s0, events + [e], k) <==> if k == |events| then CatchesNow(s, e) else Caught(s0, events, k)
    ensures CaughtUser(s0, events + [e], k) <==> if k == |events| then CatchesUserNow(s, e) else CaughtUser(s0, events, k)
    ensures ForkedLate(s0, events + [e], k) <==> if k == |events| then ForksLateNow(s, e) else ForkedLate(s0, events, k)
  {
    if 0 <= k <= |events| {
      assert (events + [e])[..k] == events[..k];
    }
    if k == |events| {
      assert Before(s0, events + [e], k, s);
    } else {
      forall r ensures Before(s0, events + [e], k, r) <==> Before(s0, events, k, r) {
      }
    }
  }

  lemma HistoryStep(s: State, e: Event)
    requires Apply(s, e).Some?
    ensures var t := Apply(s, e).value;
      && (t.caught <==> s.caught || CatchesNow(s, e))
      && (t.userCaught <==> s.userCaught || CatchesUserNow(s, e))
  {
    match e
    case Signal(sig, user) =>
    case ParentStep(ok) => MainCatches(s, ok);
    case _ =>
  }

  lemma MainCatches(s: State, ok: bool)
    requires Main(s, ok).Some?
    ensures !Main(s, ok).value.effect.Enter? && (Main(s, ok).value.effect.Fork? <==> s.parent == Forking && ok)
  {
  }

  /** Once there is a child the parent does not fork again. */
  predicate ForkedOnce(s: State) {
    s.parent.Installing? || s.parent.Forking? ==> !s.beforeFork
  }

  lemma ForkStep(s: State, e: Event)
    requires Apply(s, e).Some? && ForkedOnce(s)
    ensures var t := Apply(s, e).value; ForkedOnce(t) && (t.beforeFork <==> s.beforeFork || ForksLateNow(s, e))
  {
    match e
    case ParentStep(ok) =>
      MainCatches(s, ok);
      if s.parent.Installing? {} else if s.parent.Forking? {} else {}
    case _ =>
  }

  ghost predicate CaughtMeans(s0: State, events: seq<Event>, s: State) {
    && (s.caught <==> exists k :: Caught(s0, events, k))
    && (s.userCaught <==> exists k :: CaughtUser(s0, events, k))
    && (s.beforeFork <==> exists k :: ForkedLate(s0, events, k))
  }

  lemma {:induction false} CaughtOn(s0: State, events: seq<Event>, s: State, e: Event)
    requires Run(s0, events) == Some(s) && CaughtMeans(s0, events, s) && ForkedOnce(s) && Apply(s, e).Some?
    ensures CaughtMeans(s0, events + [e], Apply(s, e).value)
  {
    HistoryStep(s, e);
    ForkStep(s, e);
    forall k
      ensures Caught(s0, events + [e], k) <==> if k == |events| then CatchesNow(s, e) else Caught(s0, events, k)
      ensures CaughtUser(s0, events + [e], k) <==> if k == |events| then CatchesUserNow(s, e) else CaughtUser(s0, events, k)
      ensures ForkedLate(s0, events + [e], k) <==> if k == |events| then ForksLateNow(s, e) else ForkedLate(s0, events, k)
    {
      EarlierEvent(s0, events, s, e, k);
    }
    assert !Caught(s0, events, |events|) && !CaughtUser(s0, events, |events|) && !ForkedLate(s0, events, |events|);
  }

  lemma {:induction false} MeansAlways(install: bool, ignored: set<Sig>, events: seq<Event>)
    requires Run(Init(install, ignored), events).Some?
    ensures var s := Run(Init(install, ignored), events).value;
      CaughtMeans(Init(install, ignored), events, s) && ForkedOnce(s)
  {
    if events != [] {
      var before, e := events[..|events| - 1], events[|events| - 1];
      assert events == before + [e];
      MeansAlways(install, ignored, before);
      var s := Run(Init(install, ignored), before).value;
      CaughtOn(Init(install, ignored), before, s, e);
      ForkStep(s, e);
    }
  }

  /** What the flags say, over every run: that a handler was started; that one was started for a
      signal a user sent before the child was reaped; that one was started before the fork. */
  lemma {:induction false} HistoryMeans(install: bool, ignored: set<Sig>, events: seq<Event>)
    requires Run(Init(install, ignored), events).Some?
    ensures CaughtMeans(Init(install, ignored), events, Run(Init(install, ignored), events).value)
  {
    MeansAlways(install, ignored, events);
  }

  // ---------- the child before exec ----------

  /** The child has the handlers of its parent, but for the signals it has already reset. */
  predicate Inherits(s: State) {
    match s.child
    case Resetting(i) => i <= 4 && forall sig :: sig in s.childInstalled <==> sig !in s.ignored && i <= Index(sig)
    case _ => true
  }

  lemma InheritsStep(s: State, e: Event)
    requires Covered(s) && Inherits(s) && ChangeOf(s, e).Some?
    ensures Inherits(After(s, ChangeOf(s, e).value))
  {
    match e
    case ChildStep =>
      if s.child.Resetting? && s.child.i < 4 {
        forall sig ensures Index(sig) == s.child.i <==> sig == FORWARDED[s.child.i] {
        }
      }
    case ParentStep(ok) =>
    case Deliver(_, _) =>
    case _ =>
  }

  lemma {:induction false} InheritsAlways(install: bool, ignored: set<Sig>, events: seq<Event>)
    requires Run(Init(install, ignored), events).Some?
    ensures Inherits(Run(Init(install, ignored), events).value)
  {
    if events != [] {
      Always(install, ignored, events[..|events| - 1]);
      InheritsAlways(install, ignored, events[..|events| - 1]);
      InheritsStep(Run(Init(install, ignored), events[..|events| - 1]).value, events[|events| - 1]);
    }
  }

  /** A signal that is delivered to the child between fork and exec is noted as long as its inherited
      handler is in place, which it is until the child has reset it; after that it ends the child. */
  lemma {:induction false} DeliveredEarly(install: bool, ignored: set<Sig>, events: seq<Event>, sig: Sig, fatal: bool)
    requires Run(Init(install, ignored), events).Some?
    requires Apply(Run(Init(install, ignored), events).value, Deliver(sig, fatal)).Some?
    ensures var s := Run(Init(install, ignored), events).value; var t := Apply(s, Deliver(sig, fatal)).value;
      match s.child
      case Resetting(i) =>
        && i <= 4
        && if sig !in ignored && sig !in [Hup, Int, Quit, Term][..i] then t.child == s.child && t.childSignal == Some(sig)
           else t.child == Zombie(false)
      case Raising => t.child == Zombie(false)
      case Ready => t.child == Zombie(false)
      case _ => true
  {
    Always(install, ignored, events);
    InheritsAlways(install, ignored, events);
    InstalledNotIgnored(install, ignored, events, sig);
    var s := Run(Init(install, ignored), events).value;
    if s.child.Resetting? {
      assert sig in [Hup, Int, Quit, Term][..s.child.i] <==> Index(sig) < s.child.i;
    }
  }

  // ---------- after death ----------

  lemma {:induction false} NoFramesWhenDead(install: bool, ignored: set<Sig>, events: seq<Event>)
    requires Run(Init(install, ignored), events).Some?
    ensures var s := Run(Init(install, ignored), events).value; s.parent.Died? ==> s.frames == []
  {
    if events != [] {
      NoFramesWhenDead(install, ignored, events[..|events| - 1]);
    }
  }

  /** A hacman that has died runs no handler, takes no step and receives no signal any more. */
  lemma {:induction false} DeadDoesNothing(install: bool, ignored: set<Sig>, events: seq<Event>, sig: Sig, user: bool, ok: bool)
    requires Run(Init(install, ignored), events).Some? && Run(Init(install, ignored), events).value.parent.Died?
    ensures var s := Run(Init(install, ignored), events).value;
      && s.frames == [] && !s.lock
      && Apply(s, HandlerStep).None? && Apply(s, ParentStep(ok)).None? && Apply(s, Signal(sig, user)).None?
  {
    NoFramesWhenDead(install, ignored, events);
    EndsUnlocked(install, ignored, events);
  }
}
