/** What the world around the processes can do to a slot at any time, and what the history that the
    state carries says about the run. */
module ProtocolWorld {
  import opened Text
  import opened CacheRecord
  import opened Schedule
  import opened Wrappers
  import opened Protocol

  // ---------- the world ----------

  /** Setup of this process is at a point where it puts something into the work directory: the script
      that hacman writes there, or the command or install script that is running. */
  predicate PutsThere(q: Proc) {
    match q.pc
    case Materialize => q.p.embedded
    case RunCommand => true
    case Install => true
    case _ => false
  }

  /** Nothing of the world waits for the processes: in every state the clock can take any value it
      can hold, the program can come and go, a process that has not ended can die, and a child that
      outlived its process can write. */
  lemma WorldIsFree(s: State, seconds: int, b: bool, identity: string, pid: Pid, childSurvives: bool)
    ensures Apply(s, Tick(seconds)).Some? <==> 0 <= s.clock + seconds < 0x8000_0000_0000_0000
    ensures Apply(s, Presence(b)).Some?
    ensures Apply(s, OrphanWrite(identity)).Some? <==> identity in s.work.orphans
    ensures Apply(s, Crash(pid, childSurvives)).Some? <==>
            pid in s.procs && s.procs[pid].pc != Crashed && !s.procs[pid].pc.Done?
  {
  }

  /** A setup that is at such a point can write at any time, and no other process can. */
  lemma SetupIsFree(s: State, pid: Pid)
    ensures Apply(s, SetupWrite(pid)).Some? <==> pid in s.procs && PutsThere(s.procs[pid])
  {
    if pid in s.procs {
      match s.procs[pid].pc
      case Materialize =>
      case RunCommand =>
      case Install =>
      case _ =>
    }
  }

  /** Any number of processes can be started, each at the first load of its project. */
  lemma StartsAnywhere(s: State, pid: Pid, p: Project, o: Options)
    ensures Apply(s, Start(pid, p, o)).Some? <==>
            && pid !in s.procs && p.command == s.command
            && |p.identity| <= 127 && '\0' !in p.identity && '\n' !in p.identity
            && (p.embedded ==> p.command) && (p.binCached ==> p.hasBin)
    ensures Apply(s, Start(pid, p, o)).Some? ==>
              && pid in Apply(s, Start(pid, p, o)).value.procs
              && var q := Apply(s, Start(pid, p, o)).value.procs[pid]; q.p == p && q.o == o && q.pc == LoadQuiet
  {
  }

  /** A check can return any marker that a record can hold. */
  lemma ChecksReturnAnything(s: State, pid: Pid, mark: string)
    requires pid in s.procs && s.procs[pid].pc == Check
    ensures var e := Step(pid, Choice(true, mark, 0));
      Apply(s, e).Some? <==> |mark| <= 255 && '\0' !in mark
  {
  }

  /** A process that dies leaves the record and its temporary file alone, loses the lock, and takes
      its setup child with it unless that survives. */
  lemma DeathMeans(s: State, pid: Pid, childSurvives: bool)
    requires Apply(s, Crash(pid, childSurvives)).Some?
    ensures var t := Apply(s, Crash(pid, childSurvives)).value; var q := s.procs[pid];
      && t.record == s.record && t.tmps == s.tmps && t.log == s.log && t.zeroExits == s.zeroExits
      && t.procs == s.procs[pid := q.(pc := Crashed)]
      && t.lock == (if s.lock == Some(pid) then None else s.lock)
      && t.work.orphans == s.work.orphans +
           (if childSurvives && (q.pc.RunCommand? || q.pc.Install?) then {q.p.identity} else {})
  {
    if childSurvives {} else {}
  }

  // ---------- the history ----------

  ghost predicate NeverBack(events: seq<Event>) {
    forall k :: 0 <= k < |events| && events[k].Tick? ==> events[k].seconds >= 0
  }

  /** Event `k` of the run is a locked recheck of a project whose program is missing. */
  ghost predicate MissedBin(s0: State, events: seq<Event>, k: int) {
    && 0 <= k < |events| && events[k].Step? && Run(s0, events[..k]).Some?
    && var s := Run(s0, events[..k]).value; var pid := events[k].pid;
    && pid in s.procs && s.procs[pid].pc.DecideLocked? && s.procs[pid].p.binCached && !s.present
  }

  /** Event `k` of the run is the exit with 0 of the setup of `pid`. */
  ghost predicate SetupExits(s0: State, events: seq<Event>, k: int, pid: Pid) {
    && 0 <= k < |events| && events[k].Step? && events[k].pid == pid && events[k].choice.ok
    && Run(s0, events[..k]).Some?
    && var s := Run(s0, events[..k]).value;
    && pid in s.procs && (s.procs[pid].pc.RunCommand? || s.procs[pid].pc.Install?)
  }

  ghost predicate History(s0: State, events: seq<Event>, s: State) {
    && (s.steady <==> NeverBack(events))
    && (s.rechecksSawBin <==> forall k :: !MissedBin(s0, events, k))
    && (forall pid :: pid in s.zeroExits <==> exists k :: SetupExits(s0, events, k, pid))
  }

  lemma EarlierEvents(s0: State, events: seq<Event>, e: Event, k: int, pid: Pid)
    requires 0 <= k < |events|
    ensures (events + [e])[..k] == events[..k] && (events + [e])[k] == events[k]
    ensures MissedBin(s0, events + [e], k) <==> MissedBin(s0, events, k)
    ensures SetupExits(s0, events + [e], k, pid) <==> SetupExits(s0, events, k, pid)
  {
    assert (events + [e])[..k] == events[..k];
  }

  lemma SteadyStep(s: State, e: Event)
    requires Apply(s, e).Some?
    ensures Apply(s, e).value.steady <==> s.steady && (e.Tick? ==> e.seconds >= 0)
  {
    match e
    case Crash(_, _) =>
    case SetupWrite(_) =>
    case Step(_, _) =>
    case _ =>
  }

  predicate MissesNow(s: State, e: Event) {
    e.Step? && e.pid in s.procs && s.procs[e.pid].pc.DecideLocked? && s.procs[e.pid].p.binCached && !s.present
  }

  predicate ExitsNow(s: State, e: Event) {
    e.Step? && e.choice.ok && e.pid in s.procs && (s.procs[e.pid].pc.RunCommand? || s.procs[e.pid].pc.Install?)
  }

  lemma EffectMeans(q: Proc, codec: Codec, seen: Seen, ch: Choice)
    requires Next(q, codec, seen, ch).Some?
    ensures var e := Next(q, codec, seen, ch).value.effect;
      && (e.ExitZero? <==> ch.ok && (q.pc.RunCommand? || q.pc.Install?))
      && ((e.Recheck? && !e.sawBin) <==> q.pc.DecideLocked? && q.p.binCached && !seen.present)
  {
    match q.pc
    case Dispatch =>
    case Compare =>
    case _ =>
  }

  lemma HistoryStep(s: State, e: Event)
    requires Apply(s, e).Some?
    ensures Apply(s, e).value.rechecksSawBin <==> s.rechecksSawBin && !MissesNow(s, e)
    ensures Apply(s, e).value.zeroExits == s.zeroExits + (if ExitsNow(s, e) then {e.pid} else {})
  {
    match e
    case Step(pid, ch) => EffectMeans(s.procs[pid], s.codec, SeenBy(s, s.procs[pid]), ch);
    case Crash(_, _) =>
    case SetupWrite(_) =>
    case _ =>
  }

  lemma {:induction false} LastEvent(s0: State, events: seq<Event>, e: Event, pid: Pid)
    requires Run(s0, events).Some?
    ensures MissedBin(s0, events + [e], |events|) <==> MissesNow(Run(s0, events).value, e)
    ensures SetupExits(s0, events + [e], |events|, pid) <==> ExitsNow(Run(s0, events).value, e) && e.pid == pid
  {
    assert (events + [e])[..|events|] == events;
  }

  lemma {:induction false} MissedEarlier(s0: State, events: seq<Event>, e: Event)
    requires Run(s0, events).Some?
    ensures (forall k :: !MissedBin(s0, events + [e], k)) <==>
            (forall k :: !MissedBin(s0, events, k)) && !MissesNow(Run(s0, events).value, e)
  {
    LastEvent(s0, events, e, 0);
    forall k | 0 <= k < |events| ensures MissedBin(s0, events + [e], k) <==> MissedBin(s0, events, k) {
      EarlierEvents(s0, events, e, k, 0);
    }
  }

  lemma {:induction false} ExitedEarlier(s0: State, events: seq<Event>, e: Event, pid: Pid)
    requires Run(s0, events).Some?
    ensures (exists k :: SetupExits(s0, events + [e], k, pid)) <==>
            (exists k :: SetupExits(s0, events, k, pid)) || (ExitsNow(Run(s0, events).value, e) && e.pid == pid)
  {
    LastEvent(s0, events, e, pid);
    forall k | 0 <= k < |events| ensures SetupExits(s0, events + [e], k, pid) <==> SetupExits(s0, events, k, pid) {
      EarlierEvents(s0, events, e, k, pid);
    }
  }

  /** What the flags of a state say, over every run: the clock has not gone back; every locked recheck
      so far that had a program to look for found it; and these processes' setups exited with 0. */
  lemma {:induction false} HistoryMeans(command: bool, clock: int, present: bool, events: seq<Event>)
    requires Run(Init(command, clock, present), events).Some?
    ensures History(Init(command, clock, present), events, Run(Init(command, clock, present), events).value)
  {
    var s0 := Init(command, clock, present);
    if events != [] {
      var before, e := events[..|events| - 1], events[|events| - 1];
      assert events == before + [e];
      HistoryMeans(command, clock, present, before);
      var s := Run(s0, before).value;
      SteadyStep(s, e);
      HistoryStep(s, e);
      MissedEarlier(s0, before, e);
      forall pid ensures pid in Apply(s, e).value.zeroExits <==> exists k :: SetupExits(s0, events, k, pid) {
        ExitedEarlier(s0, before, e, pid);
      }
    }
  }

  // ---------- the work directory ----------

  /** The setup of this identity, or what is left of one, writes into the directory. */
  predicate WritesNow(s: State, e: Event, identity: string) {
    match e
    case SetupWrite(pid) => pid in s.procs && s.procs[pid].p.identity == identity
    case OrphanWrite(id) => id == identity
    case _ => false
  }

  predicate OkStepOf(s: State, e: Event) {
    e.Step? && e.choice.ok && e.pid in s.procs
  }

  /** A process finishes emptying the directory. */
  predicate ClearsNow(s: State, e: Event) {
    OkStepOf(s, e) && (s.procs[e.pid].pc.ClearCommand? || s.procs[e.pid].pc.ClearUrl?)
  }

  /** A process of this identity begins or finishes emptying it, or its setup writes there. */
  predicate ChangesNow(s: State, e: Event, identity: string) {
    || WritesNow(s, e, identity)
    || (OkStepOf(s, e) && s.procs[e.pid].p.identity == identity
        && (s.procs[e.pid].pc.ResetCommand? || s.procs[e.pid].pc.ResetUrl? || ClearsNow(s, e)))
  }

  /** A setup that has exited with 0 is recorded. */
  predicate RecordsNow(s: State, e: Event) {
    OkStepOf(s, e) && s.procs[e.pid].pc.RenameTmp? && s.procs[e.pid].pc.why.SetupExitedZero?
  }

  /** The state before event `k`, and the event. */
  ghost predicate Before(s0: State, events: seq<Event>, k: int, s: State) {
    0 <= k < |events| && Run(s0, events[..k]) == Some(s)
  }

  /** Event `k` is a write for this identity, and the directory has not been emptied since. */
  ghost predicate WroteLast(s0: State, events: seq<Event>, identity: string, k: int) {
    && (exists s :: Before(s0, events, k, s) && WritesNow(s, events[k], identity))
    && (forall j, s :: k < j && Before(s0, events, j, s) ==> !ClearsNow(s, events[j]))
  }

  /** Event `k` is a change for this identity, and since then the directory has not been emptied and
      no setup recorded. */
  ghost predicate ChangedLast(s0: State, events: seq<Event>, identity: string, k: int) {
    && (exists s :: Before(s0, events, k, s) && ChangesNow(s, events[k], identity))
    && (forall j, s :: k < j && Before(s0, events, j, s) ==> !ClearsNow(s, events[j]) && !RecordsNow(s, events[j]))
  }

  lemma {:induction false} BeforeEarlier(s0: State, events: seq<Event>, e: Event, k: int, s: State)
    requires Run(s0, events).Some?
    ensures Before(s0, events + [e], k, s) <==>
            if k == |events| then Run(s0, events) == Some(s) else Before(s0, events, k, s)
    ensures 0 <= k < |events| ==> (events + [e])[k] == events[k]
  {
    if 0 <= k <= |events| {
      assert (events + [e])[..k] == events[..k];
    }
  }

  lemma {:induction false} WroteEarlier(s0: State, events: seq<Event>, s: State, e: Event, identity: string, k: int)
    requires Run(s0, events) == Some(s)
    ensures WroteLast(s0, events + [e], identity, k) <==>
            if k == |events| then WritesNow(s, e, identity)
            else WroteLast(s0, events, identity, k) && !ClearsNow(s, e)
  {
    forall j, r ensures Before(s0, events + [e], j, r) <==>
                        if j == |events| then r == s else Before(s0, events, j, r)
    {
      BeforeEarlier(s0, events, e, j, r);
    }
    assert Before(s0, events + [e], |events|, s);
  }

  lemma {:induction false} ChangedEarlier(s0: State, events: seq<Event>, s: State, e: Event, identity: string, k: int)
    requires Run(s0, events) == Some(s)
    ensures ChangedLast(s0, events + [e], identity, k) <==>
            if k == |events| then ChangesNow(s, e, identity)
            else ChangedLast(s0, events, identity, k) && !ClearsNow(s, e) && !RecordsNow(s, e)
  {
    forall j, r ensures Before(s0, events + [e], j, r) <==>
                        if j == |events| then r == s else Before(s0, events, j, r)
    {
      BeforeEarlier(s0, events, e, j, r);
    }
    assert Before(s0, events + [e], |events|, s);
  }

  predicate WorkMoves(s: State, e: Event, w: WorkDir, identity: string) {
    && (identity in w.wrote <==> WritesNow(s, e, identity) || (identity in s.work.wrote && !ClearsNow(s, e)))
    && (identity in w.touched <==>
         ChangesNow(s, e, identity) || (identity in s.work.touched && !ClearsNow(s, e) && !RecordsNow(s, e)))
  }

  lemma WorkStep(s: State, e: Event, identity: string)
    requires Apply(s, e).Some?
    ensures WorkMoves(s, e, Apply(s, e).value.work, identity)
  {
    match e
    case Step(pid, ch) => OwnWork(s, pid, ch, identity);
    case Crash(_, _) =>
    case SetupWrite(_) =>
    case _ =>
  }

  /** Which effects on the directory the steps of a process have. */
  predicate Reaches(q: Proc, ch: Choice, e: Effect) {
    && (e.BeginReset? <==> ch.ok && (q.pc.ResetCommand? || q.pc.ResetUrl?))
    && (e.ResetDir? <==> ch.ok && (q.pc.ClearCommand? || q.pc.ClearUrl?))
    && (e.Publish? <==> ch.ok && q.pc.RenameTmp?) && (e.Publish? ==> e.why == q.pc.why)
    && !e.WriteDir? && !e.Die?
  }

  lemma NextReaches(q: Proc, codec: Codec, seen: Seen, ch: Choice)
    requires Next(q, codec, seen, ch).Some?
    ensures Reaches(q, ch, Next(q, codec, seen, ch).value.effect) && Next(q, codec, seen, ch).value.q.p == q.p
  {
    if !Critical(q.pc) {
    } else if Saving(q.pc) {
    } else if q.pc.ResetCommand? || q.pc.ResetUrl? || SettingUp(q.pc) {
    } else {
    }
  }

  lemma OwnWork(s: State, pid: Pid, ch: Choice, identity: string)
    requires Apply(s, Step(pid, ch)).Some?
    ensures WorkMoves(s, Step(pid, ch), Apply(s, Step(pid, ch)).value.work, identity)
  {
    NextReaches(s.procs[pid], s.codec, SeenBy(s, s.procs[pid]), ch);
    match Next(s.procs[pid], s.codec, SeenBy(s, s.procs[pid]), ch).value.effect
    case BeginReset =>
    case ResetDir =>
    case Publish(_, _) =>
    case _ =>
  }

  ghost predicate WroteMeans(s0: State, events: seq<Event>, w: WorkDir, identity: string) {
    identity in w.wrote <==> exists k :: WroteLast(s0, events, identity, k)
  }

  ghost predicate TouchedMeans(s0: State, events: seq<Event>, w: WorkDir, identity: string) {
    identity in w.touched <==> exists k :: ChangedLast(s0, events, identity, k)
  }

  lemma {:induction false} WroteOn(s0: State, events: seq<Event>, s: State, e: Event, identity: string)
    requires Run(s0, events) == Some(s) && WroteMeans(s0, events, s.work, identity) && Apply(s, e).Some?
    ensures WroteMeans(s0, events + [e], Apply(s, e).value.work, identity)
  {
    WorkStep(s, e, identity);
    ClearsOrWrites(s, e, identity);
    forall k ensures WroteLast(s0, events + [e], identity, k) <==>
                     if k == |events| then WritesNow(s, e, identity)
                     else WroteLast(s0, events, identity, k) && !ClearsNow(s, e)
    {
      WroteEarlier(s0, events, s, e, identity, k);
    }
    Unbounded(s0, events, identity);
  }

  lemma {:induction false} TouchedOn(s0: State, events: seq<Event>, s: State, e: Event, identity: string)
    requires Run(s0, events) == Some(s) && TouchedMeans(s0, events, s.work, identity) && Apply(s, e).Some?
    ensures TouchedMeans(s0, events + [e], Apply(s, e).value.work, identity)
  {
    WorkStep(s, e, identity);
    forall k ensures ChangedLast(s0, events + [e], identity, k) <==>
                     if k == |events| then ChangesNow(s, e, identity)
                     else ChangedLast(s0, events, identity, k) && !ClearsNow(s, e) && !RecordsNow(s, e)
    {
      ChangedEarlier(s0, events, s, e, identity, k);
    }
    Unbounded(s0, events, identity);
  }

  lemma ClearsOrWrites(s: State, e: Event, identity: string)
    ensures !(ClearsNow(s, e) && WritesNow(s, e, identity))
  {
  }

  lemma Unbounded(s0: State, events: seq<Event>, identity: string)
    ensures !WroteLast(s0, events, identity, |events|) && !ChangedLast(s0, events, identity, |events|)
  {
  }

  /** What the work directory is said to be, over every run: `wrote` and `touched` are exactly the
      identities for which these events lie in the run. */
  lemma {:induction false} WorkMeans(command: bool, clock: int, present: bool, events: seq<Event>, identity: string)
    requires Run(Init(command, clock, present), events).Some?
    ensures var s0 := Init(command, clock, present); var w := Run(s0, events).value.work;
      WroteMeans(s0, events, w, identity) && TouchedMeans(s0, events, w, identity)
  {
    var s0 := Init(command, clock, present);
    if events != [] {
      var before, e := events[..|events| - 1], events[|events| - 1];
      assert events == before + [e];
      WorkMeans(command, clock, present, before, identity);
      var s := Run(s0, before).value;
      WroteOn(s0, before, s, e, identity);
      TouchedOn(s0, before, s, e, identity);
    }
  }
}
