/** What the locked recheck is for: consecutive record writes are spaced by the
    schedule, and a project that is driven by its content is set up once. */
module ProtocolHistory {
  import opened Text
  import opened CacheRecord
  import opened Schedule
  import opened Wrappers
  import opened Protocol
  import opened ProtocolSafety

  /** Every record write was made under the lock. One without it comes from a run with -c or -n
      that finds the marker of a URL project unchanged. */
  predicate AllLocked(log: seq<Save>) {
    forall i :: 0 <= i < |log| ==> log[i].locked
  }

  /** The owner has reloaded the record and not finished with it. */
  predicate Reloaded(pc: Pc) {
    Critical(pc) && !pc.LoadLocked? && !pc.Unlock?
  }

  /** The owner works on what the record says now. */
  predicate Fresh(s: State) {
    s.lock.Some? && s.lock.value in s.procs ==>
      var q := s.procs[s.lock.value];
      Reloaded(q.pc) ==> q.cache == Loaded(s, q.p.identity)
  }

  /** Effects a process without the lock can have, short of writing the record. */
  predicate Harmless(e: Effect) {
    || e.Nothing? || e.Acquire? || e.Release? || e.CreateTmp? || e.AppendTmp?
    || (e.GiveUp? && !e.setup) || (e.Die? && !e.setup && !e.childSurvives)
  }

  lemma HarmlessNext(codec: Codec, command: bool, v: View, seen: Seen, ch: Choice)
    requires ViewOk(codec, command, v) && !v.owner && Next(v.q, codec, seen, ch).Some?
    ensures var e := Next(v.q, codec, seen, ch).value.effect; Harmless(e) || e.Publish?
  {
    assert !SettingUp(v.q.pc);
  }

  lemma OutsiderIsIdle(codec: Codec, command: bool, v: View)
    requires ViewOk(codec, command, v) && !v.owner
    ensures !SettingUp(v.q.pc) && !WritesDir(v.q)
  {
  }

  lemma OutsiderEffect(s: State, e: Event)
    requires Safe(s) && MoveOf(s, e).Some? && s.lock != Some(e.pid)
    ensures var f := MoveOf(s, e).value.effect; Harmless(f) || f.Publish?
  {
    var v := ViewOf(s, e.pid);
    assert ViewOk(s.codec, s.command, v);
    OutsiderIsIdle(s.codec, s.command, v);
    if e.Step? {
      HarmlessNext(s.codec, s.command, v, SeenBy(s, v.q), e.choice);
    }
  }

  lemma UnlockedWrite(s: State, pid: Pid, m: Move)
    ensures m.effect.Publish? && s.lock != Some(pid) ==> !AllLocked(Moved(s, pid, m).log)
  {
    var log := Moved(s, pid, m).log;
    assert m.effect.Publish? && s.lock != Some(pid) ==> !log[|log| - 1].locked;
  }

  /** Without the lock, a process changes nothing that the others' decisions rest on, unless it
      writes the record. */
  lemma OutsiderIsHarmless(s: State, e: Event)
    requires Safe(s) && MoveOf(s, e).Some? && s.lock != Some(e.pid)
    requires AllLocked(Moved(s, e.pid, MoveOf(s, e).value).log)
    ensures Harmless(MoveOf(s, e).value.effect)
  {
    OutsiderEffect(s, e);
    UnlockedWrite(s, e.pid, MoveOf(s, e).value);
  }

  /** The log only grows. */
  lemma LogGrows(s: State, e: Event)
    requires Apply(s, e).Some?
    ensures s.log <= Apply(s, e).value.log
  {
  }

  /** A step of the owner leaves its copy of the record alone once it is loaded. */
  lemma OwnerStaysFresh(q: Proc, codec: Codec, seen: Seen, ch: Choice)
    requires Critical(q.pc) && Next(q, codec, seen, ch).Some?
    requires Reloaded(q.pc) ==> q.cache == seen.loaded
    ensures var m := Next(q, codec, seen, ch).value; Reloaded(m.q.pc) ==> m.q.cache == seen.loaded
    ensures var m := Next(q, codec, seen, ch).value; m.effect.Publish? ==> !Reloaded(m.q.pc)
  {
  }

  lemma OwnerFreshStep(s: State, e: Event)
    requires Safe(s) && Fresh(s) && MoveOf(s, e).Some? && s.lock == Some(e.pid)
    ensures var m := MoveOf(s, e).value; var p := s.procs[e.pid].p;
      Reloaded(m.q.pc) ==> m.q.cache == Loaded(s, p.identity) && !m.effect.Publish?
  {
    var q := s.procs[e.pid];
    assert ViewOk(s.codec, s.command, ViewOf(s, e.pid));
    if e.Step? {
      OwnerStaysFresh(q, s.codec, SeenBy(s, q), e.choice);
    }
  }

  lemma OwnerFreshMoved(s: State, pid: Pid, m: Move)
    requires pid in s.procs && s.lock == Some(pid) && m.q.p == s.procs[pid].p
    requires Reloaded(m.q.pc) ==> m.q.cache == Loaded(s, m.q.p.identity) && !m.effect.Publish?
    ensures Fresh(Moved(s, pid, m))
  {
    MovedRecord(s, pid, m);
  }

  lemma OwnerFreshMove(s: State, e: Event)
    requires Lawful(s.codec) && Safe(s) && Fresh(s) && MoveOf(s, e).Some? && s.lock == Some(e.pid)
    ensures Fresh(Moved(s, e.pid, MoveOf(s, e).value))
  {
    MoveOfOk(s, e);
    OwnerFreshStep(s, e);
    OwnerFreshMoved(s, e.pid, MoveOf(s, e).value);
  }

  lemma FreshMove(s: State, e: Event)
    requires Lawful(s.codec) && Safe(s) && Fresh(s) && MoveOf(s, e).Some?
    requires AllLocked(Moved(s, e.pid, MoveOf(s, e).value).log)
    ensures Fresh(Moved(s, e.pid, MoveOf(s, e).value))
  {
    if s.lock == Some(e.pid) {
      OwnerFreshMove(s, e);
    } else {
      var m := MoveOf(s, e).value;
      MovedRecord(s, e.pid, m);
      OutsiderIsHarmless(s, e);
      if m.effect.Acquire? {
        var q := s.procs[e.pid];
        AcquireLoads(q, s.codec, SeenBy(s, q), e.choice);
      }
    }
  }

  lemma AcquireLoads(q: Proc, codec: Codec, seen: Seen, ch: Choice)
    requires Next(q, codec, seen, ch).Some? && Next(q, codec, seen, ch).value.effect.Acquire?
    ensures Next(q, codec, seen, ch).value.q.pc == LoadLocked
  {
  }

  /** The other events leave the log and the owner alone. */
  lemma OtherEvent(s: State, e: Event)
    requires Safe(s) && MoveOf(s, e).None? && Apply(s, e).Some?
    ensures var t := Apply(s, e).value;
      && t.log == s.log && t.record == s.record && t.lock == s.lock && t.codec == s.codec
      && (s.lock.Some? ==> s.lock.value in t.procs && t.procs[s.lock.value] == s.procs[s.lock.value])
  {
  }

  // ---------- spacing ----------

  /** The time was read under the lock. */
  predicate Timed(pc: Pc) {
    Reloaded(pc) && !pc.ClockLocked?
  }

  /** The locked recheck said that work is due. */
  predicate Decided(pc: Pc) {
    Timed(pc) && !pc.DecideLocked?
  }

  /** May a record write at `now` follow one at `previous`? */
  predicate Apart(p: Project, previous: Option<int>, now: int) {
    if ContentDriven(p) then previous.None?
    else
      match p.sched
      case Always => true
      case Never => false
      case Every(interval) => previous.None? || previous.value + interval <= now
  }

  predicate Timely(q: Proc, clock: int, previous: Option<int>) {
    && (Timed(q.pc) ==> 0 < q.now <= clock && (previous.Some? ==> previous.value <= q.now))
    && (Decided(q.pc) ==> Apart(q.p, previous, q.now))
    && (Saving(q.pc) ==> q.pc.c.lastCheck == q.now)
  }

  /** What a load returns when the last write was at `previous`. */
  predicate Remembers(c: Cache, previous: Option<int>) {
    if previous.Some? then c.known && c.lastCheck == previous.value else !c.known && c.lastCheck == 0
  }

  lemma DueMeansApart(p: Project, c: Cache, now: int, present: bool, previous: Option<int>)
    requires IsDue(p, c, now, false, true, present).due && (p.binCached ==> present)
    requires Remembers(c, previous) && (previous.Some? ==> 0 < previous.value <= now)
    ensures Apart(p, previous, now)
  {
  }

  lemma TimelyNext(q: Proc, codec: Codec, seen: Seen, ch: Choice, previous: Option<int>)
    requires Critical(q.pc) && Next(q, codec, seen, ch).Some?
    requires Timely(q, seen.clock, previous) && !q.o.force
    requires Reloaded(q.pc) ==> q.cache == seen.loaded
    requires Remembers(seen.loaded, previous)
    requires 0 < seen.clock && (previous.Some? ==> 0 < previous.value <= seen.clock)
    requires var e := Next(q, codec, seen, ch).value.effect; e.Recheck? ==> e.sawBin
    ensures Timely(Next(q, codec, seen, ch).value.q, seen.clock, previous)
  {
    match q.pc
    case DecideLocked =>
      if IsDue(q.p, q.cache, q.now, q.o.force, true, seen.present).due {
        DueMeansApart(q.p, q.cache, q.now, seen.present, previous);
      }
    case Dispatch => TimelyDecision(q, codec, seen, ch, previous);
    case Compare => TimelyDecision(q, codec, seen, ch, previous);
    case RunCommand => TimelyDecision(q, codec, seen, ch, previous);
    case Install => TimelyDecision(q, codec, seen, ch, previous);
    case _ =>
  }

  lemma TimelyDecision(q: Proc, codec: Codec, seen: Seen, ch: Choice, previous: Option<int>)
    requires q.pc.Dispatch? || q.pc.Compare? || q.pc.RunCommand? || q.pc.Install?
    requires Timely(q, seen.clock, previous) && Next(q, codec, seen, ch).Some?
    ensures Timely(Next(q, codec, seen, ch).value.q, seen.clock, previous)
  {
    if q.pc.Compare? {
      if q.cache.known && q.cache.mark == q.found {
      } else if Inspect(q.o) {
      } else if q.o.adopt {
      }
    } else if q.pc.Dispatch? {
      if !q.p.command {
      } else if Inspect(q.o) {
      } else if q.o.adopt {
      }
    }
  }

  function Previous(log: seq<Save>): Option<int> {
    if log == [] then None else Some(log[|log| - 1].cache.lastCheck)
  }

  /** Every write is a permitted successor of the one before it. */
  predicate Spaced(p: Project, log: seq<Save>) {
    forall i :: 0 <= i < |log| ==> Apart(p, Previous(log[..i]), log[i].cache.lastCheck)
  }

  predicate Past(log: seq<Save>, clock: int) {
    forall i :: 0 <= i < |log| ==> 0 < log[i].cache.lastCheck <= clock
  }

  /** Every process runs the same project and keeps to its schedule, the handoff program was
      there at every locked recheck, and the clock never went back. */
  predicate Uniform(s: State, p: Project) {
    && (forall pid :: pid in s.procs ==> s.procs[pid].p == p && !s.procs[pid].o.force)
    && s.rechecksSawBin && s.steady
  }

  predicate OwnerTimely(s: State) {
    s.lock.Some? && s.lock.value in s.procs ==> Timely(s.procs[s.lock.value], s.clock, Previous(s.log))
  }

  predicate OnSchedule(s: State, p: Project) {
    && 0 < s.clock
    && Past(s.log, s.clock) && Spaced(p, s.log)
    && Fresh(s) && OwnerTimely(s)
  }

  /** Processes keep their project and options, and are never forgotten. */
  lemma OptionsStay(s: State, e: Event)
    requires Lawful(s.codec) && Safe(s) && Apply(s, e).Some?
    ensures var t := Apply(s, e).value;
      && (forall pid :: pid in s.procs ==>
            pid in t.procs && t.procs[pid].p == s.procs[pid].p && t.procs[pid].o == s.procs[pid].o)
      && (t.rechecksSawBin ==> s.rechecksSawBin) && (t.steady ==> s.steady && s.clock <= t.clock)
      && t.command == s.command
  {
    if MoveOf(s, e).Some? {
      OptionsStayOnMove(s, e);
    } else {
      match e
      case Start(_, _, _) =>
      case _ =>
    }
  }

  lemma OptionsStayOnMove(s: State, e: Event)
    requires Lawful(s.codec) && Safe(s) && MoveOf(s, e).Some?
    ensures var t := Moved(s, e.pid, MoveOf(s, e).value);
      && (forall pid :: pid in s.procs ==>
            pid in t.procs && t.procs[pid].p == s.procs[pid].p && t.procs[pid].o == s.procs[pid].o)
      && (t.rechecksSawBin ==> s.rechecksSawBin) && t.steady == s.steady && s.clock == t.clock
      && t.command == s.command
  {
    MoveOfOk(s, e);
    ProperStays(s, e.pid, MoveOf(s, e).value);
  }

  lemma ProperStays(s: State, pid: Pid, m: Move)
    requires pid in s.procs && m.q.p == s.procs[pid].p && m.q.o == s.procs[pid].o
    ensures var t := Moved(s, pid, m);
      && (forall pid :: pid in s.procs ==>
            pid in t.procs && t.procs[pid].p == s.procs[pid].p && t.procs[pid].o == s.procs[pid].o)
      && (t.rechecksSawBin ==> s.rechecksSawBin) && t.steady == s.steady && s.clock == t.clock
      && t.command == s.command
  {
  }

  /** The conditions on a run only get harder to meet as it goes on. */
  lemma UniformBefore(s: State, e: Event, p: Project)
    requires Lawful(s.codec) && Safe(s) && Apply(s, e).Some? && Uniform(Apply(s, e).value, p)
    ensures Uniform(s, p)
  {
    OptionsStay(s, e);
  }

  lemma LoadRemembers(s: State, p: Project)
    requires Lawful(s.codec) && Safe(s) && Uniform(s, p) && Past(s.log, s.clock) && ValidProject(p)
    ensures Remembers(Loaded(s, p.identity), Previous(s.log))
  {
    if s.log != [] {
      assert SaveOk(s, s.log[|s.log| - 1]);
    }
  }

  lemma SpacedAppend(p: Project, log: seq<Save>, w: Save)
    requires Spaced(p, log) && Apart(p, Previous(log), w.cache.lastCheck)
    ensures Spaced(p, log + [w])
  {
    var more := log + [w];
    forall i | 0 <= i < |more|
      ensures Apart(p, Previous(more[..i]), more[i].cache.lastCheck)
    {
      assert more[..i] == log[..i];
      assert log[..|log|] == log;
    }
  }

  lemma OwnerStepTimely(s: State, e: Event, p: Project)
    requires Lawful(s.codec) && Safe(s) && Uniform(s, p) && OnSchedule(s, p)
    requires e.Step? && MoveOf(s, e).Some? && s.lock == Some(e.pid)
    requires var f := MoveOf(s, e).value.effect; f.Recheck? ==> f.sawBin
    ensures Timely(MoveOf(s, e).value.q, s.clock, Previous(s.log))
  {
    var q := s.procs[e.pid];
    assert ViewOk(s.codec, s.command, ViewOf(s, e.pid));
    LoadRemembers(s, p);
    TimelyNext(q, s.codec, SeenBy(s, q), e.choice, Previous(s.log));
  }

  /** A write made by a timely owner is a permitted successor of the one before it. */
  lemma WriteOnSchedule(q: Proc, w: Save, log: seq<Save>, clock: int, p: Project)
    requires Timely(q, clock, Previous(log)) && q.pc == RenameTmp(w.cache, w.why) && q.p == p
    requires Past(log, clock) && Spaced(p, log)
    ensures Past(log + [w], clock) && Spaced(p, log + [w])
  {
    SpacedAppend(p, log, w);
  }

  lemma UnlockIsTimely(q: Proc, clock: int, previous: Option<int>)
    requires q.pc.Unlock?
    ensures Timely(q, clock, previous)
  {
  }

  lemma OwnerPublishOnSchedule(s: State, e: Event, p: Project)
    requires Lawful(s.codec) && Safe(s) && Uniform(s, p) && OnSchedule(s, p)
    requires e.Step? && MoveOf(s, e).Some? && s.lock == Some(e.pid) && MoveOf(s, e).value.effect.Publish?
    ensures var t := Moved(s, e.pid, MoveOf(s, e).value);
      Past(t.log, t.clock) && Spaced(p, t.log) && OwnerTimely(t)
  {
    var m := MoveOf(s, e).value;
    var q := s.procs[e.pid];
    MoveOfOk(s, e);
    MovedRecord(s, e.pid, m);
    WriteOnSchedule(q, Save(e.pid, m.effect.c, m.effect.why, true), s.log, s.clock, p);
    PublishUnlocks(q, s.codec, SeenBy(s, q), e.choice);
    UnlockIsTimely(m.q, s.clock, Previous(Moved(s, e.pid, m).log));
  }

  lemma OwnerMoveOnSchedule(s: State, e: Event, p: Project)
    requires Lawful(s.codec) && Safe(s) && Uniform(s, p) && OnSchedule(s, p)
    requires MoveOf(s, e).Some? && s.lock == Some(e.pid)
    requires var f := MoveOf(s, e).value.effect; f.Recheck? ==> f.sawBin
    ensures var t := Moved(s, e.pid, MoveOf(s, e).value);
      Past(t.log, t.clock) && Spaced(p, t.log) && OwnerTimely(t)
  {
    if e.Step? && MoveOf(s, e).value.effect.Publish? {
      OwnerPublishOnSchedule(s, e, p);
    } else if e.Step? {
      OwnerStepTimely(s, e, p);
      MovedRecord(s, e.pid, MoveOf(s, e).value);
    } else {
      MovedRecord(s, e.pid, MoveOf(s, e).value);
    }
  }

  lemma PublishUnlocks(q: Proc, codec: Codec, seen: Seen, ch: Choice)
    requires Next(q, codec, seen, ch).Some? && Next(q, codec, seen, ch).value.effect.Publish?
    ensures Next(q, codec, seen, ch).value.q.pc.Unlock?
  {
  }

  lemma OutsiderMoveOnSchedule(s: State, e: Event, p: Project)
    requires Lawful(s.codec) && Safe(s) && Uniform(s, p) && OnSchedule(s, p)
    requires MoveOf(s, e).Some? && s.lock != Some(e.pid)
    requires AllLocked(Moved(s, e.pid, MoveOf(s, e).value).log)
    ensures var t := Moved(s, e.pid, MoveOf(s, e).value);
      Past(t.log, t.clock) && Spaced(p, t.log) && OwnerTimely(t)
  {
    var m := MoveOf(s, e).value;
    OutsiderIsHarmless(s, e);
    if m.effect.Acquire? {
      var q := s.procs[e.pid];
      AcquireLoads(q, s.codec, SeenBy(s, q), e.choice);
      AcquireOnSchedule(s, e.pid, m, p);
    } else {
      HarmlessOnSchedule(s, e.pid, m, p);
    }
  }

  lemma AcquireOnSchedule(s: State, pid: Pid, m: Move, p: Project)
    requires pid in s.procs && m.effect.Acquire? && m.q.pc == LoadLocked && OnSchedule(s, p)
    ensures var t := Moved(s, pid, m); Past(t.log, t.clock) && Spaced(p, t.log) && OwnerTimely(t)
  {
    MovedRecord(s, pid, m);
  }

  lemma HarmlessOnSchedule(s: State, pid: Pid, m: Move, p: Project)
    requires pid in s.procs && s.lock != Some(pid) && Harmless(m.effect) && !m.effect.Acquire? && OnSchedule(s, p)
    ensures var t := Moved(s, pid, m); Past(t.log, t.clock) && Spaced(p, t.log) && OwnerTimely(t)
  {
    MovedRecord(s, pid, m);
    assert Moved(s, pid, m).lock == s.lock;
  }

  lemma MoveOnSchedule(s: State, e: Event, p: Project)
    requires Lawful(s.codec) && Safe(s) && OnSchedule(s, p) && MoveOf(s, e).Some? && Apply(s, e).Some?
    requires Uniform(s, p) && Uniform(Apply(s, e).value, p) && AllLocked(Apply(s, e).value.log)
    ensures OnSchedule(Apply(s, e).value, p)
  {
    FreshMove(s, e);
    MovedRecord(s, e.pid, MoveOf(s, e).value);
    if s.lock == Some(e.pid) {
      OwnerMoveOnSchedule(s, e, p);
    } else {
      OutsiderMoveOnSchedule(s, e, p);
    }
  }

  lemma EventOnSchedule(s: State, e: Event, p: Project)
    requires Lawful(s.codec) && Safe(s) && OnSchedule(s, p) && Apply(s, e).Some?
    requires Uniform(Apply(s, e).value, p) && AllLocked(Apply(s, e).value.log)
    ensures OnSchedule(Apply(s, e).value, p)
  {
    UniformBefore(s, e, p);
    OptionsStay(s, e);
    if MoveOf(s, e).Some? {
      MoveOnSchedule(s, e, p);
    } else {
      OtherEvent(s, e);
    }
  }

  /** For any number of processes and any interleaving with crashes: with the same project,
      no --force, a positive clock that never goes back and the handoff program in place at each
      recheck, every record write keeps to the schedule as long as all are made under the lock. A
      write without the lock comes from -c or -n only; see ProtocolSafety.EverySaveIsJustified. */
  lemma {:induction false} WritesKeepToTheSchedule(clock: int, present: bool, events: seq<Event>, p: Project)
    requires 0 < clock < TWO_63
    requires Run(Init(p.command, clock, present), events).Some?
    requires var s := Run(Init(p.command, clock, present), events).value; Uniform(s, p) && AllLocked(s.log)
    ensures OnSchedule(Run(Init(p.command, clock, present), events).value, p)
  {
    var s := Init(p.command, clock, present);
    if events != [] {
      var before := Run(s, events[..|events| - 1]).value;
      RealCodecIsLawful();
      AlwaysSafe(p.command, clock, present, events[..|events| - 1]);
      UniformBefore(before, events[|events| - 1], p);
      LogGrows(before, events[|events| - 1]);
      WritesKeepToTheSchedule(clock, present, events[..|events| - 1], p);
      EventOnSchedule(before, events[|events| - 1], p);
    }
  }

  /** Under an interval schedule n+1 writes take at least n intervals. */
  lemma {:induction false} IntervalsAddUp(p: Project, log: seq<Save>, i: nat, j: nat)
    requires Spaced(p, log) && !ContentDriven(p) && p.sched.Every?
    requires i <= j < |log|
    ensures log[j].cache.lastCheck - log[i].cache.lastCheck >= (j - i) * p.sched.interval
    decreases j
  {
    if i < j {
      IntervalsAddUp(p, log, i, j - 1);
      var interval := p.sched.interval;
      assert Apart(p, Previous(log[..j]), log[j].cache.lastCheck);
      assert log[..j][|log[..j]| - 1] == log[j - 1];
      assert (j - i) * interval == (j - 1 - i) * interval + interval;
    }
  }

  /** A project that only its own edits make due is recorded at most once, however many
      processes race for it and however often they crash. */
  lemma {:induction false} SetUpOnce(clock: int, present: bool, events: seq<Event>, p: Project)
    requires 0 < clock < TWO_63 && ContentDriven(p)
    requires Run(Init(p.command, clock, present), events).Some?
    requires var s := Run(Init(p.command, clock, present), events).value; Uniform(s, p) && AllLocked(s.log)
    ensures |Run(Init(p.command, clock, present), events).value.log| <= 1
  {
    WritesKeepToTheSchedule(clock, present, events, p);
    var log := Run(Init(p.command, clock, present), events).value.log;
    assert |log| > 1 ==> !Apart(p, Previous(log[..1]), log[1].cache.lastCheck);
  }

  // ---------- unchanged checks ----------

  /** A write after an unchanged check repeats the record before it, but for the time. */
  predicate Repeats(log: seq<Save>) {
    forall i :: 0 <= i < |log| && log[i].why.CheckUnchanged? ==>
      i > 0 && log[i].cache == ReadBack(log[i - 1].cache).(lastCheck := log[i].cache.lastCheck)
  }

  lemma RepeatsAppend(log: seq<Save>, w: Save)
    requires Repeats(log)
    requires w.why.CheckUnchanged? ==>
      log != [] && w.cache == ReadBack(log[|log| - 1].cache).(lastCheck := w.cache.lastCheck)
    ensures Repeats(log + [w])
  {
    var more := log + [w];
    assert forall i :: 0 <= i < |log| ==> more[i] == log[i];
  }

  /** A load that knows the project returns the last write. */
  lemma KnownIsLast(s: State, identity: string)
    requires Lawful(s.codec) && Safe(s) && Loaded(s, identity).known
    requires |identity| <= IDENTITY_MAX && NUL !in identity && '\n' !in identity
    ensures s.log != [] && Loaded(s, identity) == ReadBack(s.log[|s.log| - 1].cache)
  {
    if s.log != [] {
      assert SaveOk(s, s.log[|s.log| - 1]);
    }
  }

  /** The owner's unchanged check is about the last write. */
  lemma OwnerRepeats(s: State, pid: Pid, c: Cache)
    requires Lawful(s.codec) && Safe(s) && Fresh(s)
    requires pid in s.procs && s.lock == Some(pid) && s.procs[pid].pc == RenameTmp(c, CheckUnchanged)
    ensures s.log != [] && c == ReadBack(s.log[|s.log| - 1].cache).(lastCheck := c.lastCheck)
  {
    var v := ViewOf(s, pid);
    assert ViewOk(s.codec, s.command, v);
    UnchangedIsKnown(s.codec, s.command, v, c);
    assert v.q.cache == Loaded(s, v.q.p.identity);
    KnownIsLast(s, v.q.p.identity);
  }

  lemma UnchangedIsKnown(codec: Codec, command: bool, v: View, c: Cache)
    requires ViewOk(codec, command, v) && v.q.pc == RenameTmp(c, CheckUnchanged)
    ensures ValidProject(v.q.p) && Reloaded(v.q.pc) && v.q.cache.known && c == Checked(v.q)
  {
  }

  lemma OwnerMoveRepeats(s: State, pid: Pid, m: Move)
    requires Lawful(s.codec) && Safe(s) && Fresh(s) && Repeats(s.log) && Proper(s, pid, m)
    requires m.effect.Publish? ==> s.lock == Some(pid)
    ensures Repeats(Moved(s, pid, m).log)
  {
    MovedRecord(s, pid, m);
    if m.effect.Publish? {
      if m.effect.why.CheckUnchanged? {
        OwnerRepeats(s, pid, m.effect.c);
      }
      RepeatsAppend(s.log, Save(pid, m.effect.c, m.effect.why, true));
    }
  }

  lemma MoveRepeats(s: State, e: Event)
    requires Lawful(s.codec) && Safe(s) && Fresh(s) && Repeats(s.log) && MoveOf(s, e).Some?
    requires AllLocked(Moved(s, e.pid, MoveOf(s, e).value).log)
    ensures Repeats(Moved(s, e.pid, MoveOf(s, e).value).log)
  {
    MoveOfOk(s, e);
    UnlockedWrite(s, e.pid, MoveOf(s, e).value);
    OwnerMoveRepeats(s, e.pid, MoveOf(s, e).value);
  }

  lemma EventRepeats(s: State, e: Event)
    requires Lawful(s.codec) && Safe(s) && Fresh(s) && Repeats(s.log) && Apply(s, e).Some?
    requires AllLocked(Apply(s, e).value.log)
    ensures Fresh(Apply(s, e).value) && Repeats(Apply(s, e).value.log)
  {
    if MoveOf(s, e).Some? {
      FreshMove(s, e);
      MoveRepeats(s, e);
    } else {
      OtherEvent(s, e);
    }
  }

  /** In every run whose record writes are all made under the lock, the owner's copy of the record
      is fresh, and a write after an unchanged check changes nothing of the record before it but
      the time of the last check. */
  lemma {:induction false} UnchangedChecksRepeatTheRecord(command: bool, clock: int, present: bool, events: seq<Event>)
    requires 0 <= clock < TWO_63 && Run(Init(command, clock, present), events).Some?
    requires AllLocked(Run(Init(command, clock, present), events).value.log)
    ensures var s := Run(Init(command, clock, present), events).value; Fresh(s) && Repeats(s.log)
  {
    var s := Init(command, clock, present);
    if events != [] {
      var before := Run(s, events[..|events| - 1]).value;
      var e := events[|events| - 1];
      RealCodecIsLawful();
      AlwaysSafe(command, clock, present, events[..|events| - 1]);
      LogGrows(before, e);
      UnchangedChecksRepeatTheRecord(command, clock, present, events[..|events| - 1]);
      EventRepeats(before, e);
    }
  }

  /** The last setup or adopt that was recorded. */
  function LastChange(log: seq<Save>): Option<Save> {
    if log == [] then None
    else
      var last := log[|log| - 1];
      if last.why.CheckUnchanged? then LastChange(log[..|log| - 1]) else Some(last)
  }

  /** The record still says what that wrote, but for the time of the last check. */
  predicate Carries(c: Cache, w: Save) {
    c.known && c == ReadBack(w.cache).(lastCheck := c.lastCheck)
  }

  predicate CarriesLastChange(log: seq<Save>, c: Cache) {
    && LastChange(log).Some?
    && var w := LastChange(log).value;
    && w in log && !w.why.CheckUnchanged? && w.cache.identity == c.identity
    && c.mark == Clean(w.cache.mark) && c.lastChange == NonNegative(w.cache.lastChange)
  }

  lemma {:induction false} RepeatsCarry(log: seq<Save>)
    requires Repeats(log) && log != []
    ensures LastChange(log).Some? && Carries(ReadBack(log[|log| - 1].cache), LastChange(log).value)
  {
    var n := |log| - 1;
    if log[n].why.CheckUnchanged? {
      var before := log[..n];
      assert forall i :: 0 <= i < n ==> before[i] == log[i];
      RepeatsCarry(before);
      assert Clean(Clean(log[n - 1].cache.mark)) == Clean(log[n - 1].cache.mark);
    }
  }

  /** In every run whose record writes are all made under the lock, whoever knows the project from
      the record sees the marker and the time of the last recorded setup or adopt. */
  lemma {:induction false} RecordCarriesLastChange(command: bool, clock: int, present: bool, events: seq<Event>,
                                                   identity: string)
    requires 0 <= clock < TWO_63 && Run(Init(command, clock, present), events).Some?
    requires |identity| <= IDENTITY_MAX && NUL !in identity && '\n' !in identity
    requires var s := Run(Init(command, clock, present), events).value; AllLocked(s.log) && Loaded(s, identity).known
    ensures var s := Run(Init(command, clock, present), events).value; CarriesLastChange(s.log, Loaded(s, identity))
  {
    RealCodecIsLawful();
    AlwaysSafe(command, clock, present, events);
    UnchangedChecksRepeatTheRecord(command, clock, present, events);
    SlotCarries(Run(Init(command, clock, present), events).value, identity);
  }

  lemma SlotCarries(s: State, identity: string)
    requires Lawful(s.codec) && Safe(s) && Repeats(s.log) && Loaded(s, identity).known
    requires |identity| <= IDENTITY_MAX && NUL !in identity && '\n' !in identity
    ensures CarriesLastChange(s.log, Loaded(s, identity))
  {
    KnownIsLast(s, identity);
    LogCarries(s.log);
  }

  lemma LogCarries(log: seq<Save>)
    requires Repeats(log) && log != []
    ensures CarriesLastChange(log, ReadBack(log[|log| - 1].cache))
  {
    RepeatsCarry(log);
    LastChangeIsOne(log);
  }

  lemma {:induction false} LastChangeIsOne(log: seq<Save>)
    requires LastChange(log).Some?
    ensures LastChange(log).value in log && !LastChange(log).value.why.CheckUnchanged?
  {
    if log[|log| - 1].why.CheckUnchanged? {
      LastChangeIsOne(log[..|log| - 1]);
    }
  }
}
