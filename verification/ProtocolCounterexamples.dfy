/** Runs that show why the theorems about the protocol need their hypotheses. */
module ProtocolCounterexamples {
  import opened CacheRecord
  import opened Schedule
  import opened Wrappers
  import opened Protocol
  import opened ProtocolSafety
  import opened ProtocolHistory
  import opened ProtocolProvenance

  const GO := Choice(true, "", 0)
  const STOP := Choice(false, "", 0)
  const PLAIN := Options(false, false, false, false, false)

  /** One more event at the end of a run. */
  lemma Extend(start: State, events: seq<Event>, s: State, e: Event) returns (longer: seq<Event>, t: State)
    requires Run(start, events) == Some(s) && Apply(s, e).Some?
    ensures longer == events + [e] && Run(start, longer) == Some(t) && Apply(s, e) == Some(t)
  {
    longer := events + [e];
    t := Apply(s, e).value;
    assert longer[..|longer| - 1] == events;
  }

  /** A step of `pid` with no effect outside the process. */
  lemma Advance(start: State, events: seq<Event>, s: State, pid: Pid, q: Proc) returns (longer: seq<Event>, t: State)
    requires Run(start, events) == Some(s) && pid in s.procs
    requires Next(s.procs[pid], s.codec, SeenBy(s, s.procs[pid]), GO) == Some(Move(q, Nothing))
    ensures Run(start, longer) == Some(t) && t == s.(procs := s.procs[pid := q])
  {
    assert MoveOf(s, Step(pid, GO)) == Some(Move(q, Nothing));
    longer, t := Extend(start, events, s, Step(pid, GO));
    assert t == Moved(s, pid, Move(q, Nothing));
  }

  /** A step of `pid` with an effect. */
  lemma Perform(start: State, events: seq<Event>, s: State, pid: Pid, ch: Choice, m: Move)
    returns (longer: seq<Event>, t: State)
    requires Run(start, events) == Some(s) && pid in s.procs
    requires Next(s.procs[pid], s.codec, SeenBy(s, s.procs[pid]), ch) == Some(m)
    ensures Run(start, longer) == Some(t) && t == Moved(s, pid, m)
  {
    assert MoveOf(s, Step(pid, ch)) == Some(m);
    longer, t := Extend(start, events, s, Step(pid, ch));
  }

  lemma PerformSave(start: State, events: seq<Event>, s: State, pid: Pid, ch: Choice, m: Move)
    returns (longer: seq<Event>, t: State)
    requires Run(start, events) == Some(s) && pid in s.procs && Saving(s.procs[pid].pc)
    requires SaveNext(s.procs[pid], s.codec, ch) == Some(m)
    ensures Run(start, longer) == Some(t) && t == Moved(s, pid, m)
  {
    longer, t := Perform(start, events, s, pid, ch, m);
  }

  lemma PerformSetup(start: State, events: seq<Event>, s: State, pid: Pid, ch: Choice, m: Move)
    returns (longer: seq<Event>, t: State)
    requires Run(start, events) == Some(s) && pid in s.procs
    requires SetupNext(s.procs[pid], SeenBy(s, s.procs[pid]), ch) == Some(m)
    ensures Run(start, longer) == Some(t) && t == Moved(s, pid, m)
  {
    longer, t := Perform(start, events, s, pid, ch, m);
  }

  lemma PerformLocked(start: State, events: seq<Event>, s: State, pid: Pid, ch: Choice, m: Move)
    returns (longer: seq<Event>, t: State)
    requires Run(start, events) == Some(s) && pid in s.procs
    requires LockedNext(s.procs[pid], SeenBy(s, s.procs[pid]), ch) == Some(m)
    ensures Run(start, longer) == Some(t) && t == Moved(s, pid, m)
  {
    longer, t := Perform(start, events, s, pid, ch, m);
  }

  /** The end of a run that held the lock, or an inspection that did not. */
  lemma Leave(start: State, events: seq<Event>, s: State, pid: Pid, rc: Outcome) returns (longer: seq<Event>, t: State)
    requires Run(start, events) == Some(s) && pid in s.procs && s.procs[pid].pc == Unlock(rc)
    ensures Run(start, longer) == Some(t)
    ensures t == s.(lock := if s.lock == Some(pid) then None else s.lock,
                    procs := s.procs[pid := s.procs[pid].(pc := Done(rc))])
  {
    longer, t := PerformLocked(start, events, s, pid, GO, Move(s.procs[pid].(pc := Done(rc)), Release));
  }

  /** An embedded command project, as one edit of its file describes it. */
  function Edit(identity: string): Project {
    Project(identity, true, true, false, Every(86400), false, false)
  }

  /** A new process loads the record and reads the clock ... */
  lemma Arrives(start: State, events: seq<Event>, s: State, pid: Pid, p: Project, o: Options)
    returns (longer: seq<Event>, t: State)
    requires Run(start, events) == Some(s) && pid !in s.procs && ValidProject(p) && p.command == s.command
    ensures Run(start, longer) == Some(t)
    ensures t == s.(procs := s.procs[pid := Proc(p, o, DecideQuiet, Loaded(s, p.identity), s.clock, "")])
  {
    var c := Loaded(s, p.identity);
    longer, t := Extend(start, events, s, Start(pid, p, o));
    longer, t := Advance(start, longer, t, pid, Proc(p, o, ClockQuiet, c, 0, ""));
    longer, t := Advance(start, longer, t, pid, Proc(p, o, DecideQuiet, c, s.clock, ""));
  }

  /** Is this project due, as far as the process knows? */
  predicate Due(s: State, q: Proc) {
    !q.p.binCached && IsDue(q.p, q.cache, q.now, q.o.force, true, s.present).due
  }

  /** ... wins the lock, as its project is due ... */
  lemma Locks(start: State, events: seq<Event>, s: State, pid: Pid, q: Proc)
    returns (longer: seq<Event>, t: State)
    requires Run(start, events) == Some(s) && pid in s.procs && s.procs[pid] == q && q.pc == DecideQuiet
    requires s.lock.None? && Due(s, q) && !Inspect(q.o)
    ensures Run(start, longer) == Some(t)
    ensures t == s.(lock := Some(pid), procs := s.procs[pid := q.(pc := LoadLocked)])
  {
    longer, t := Advance(start, events, s, pid, q.(pc := WaitLock));
    longer, t := Perform(start, longer, t, pid, GO, Move(q.(pc := LoadLocked), Acquire));
  }

  /** ... and finds it due again in the locked recheck. */
  lemma UpToTheDispatch(start: State, events: seq<Event>, s: State, pid: Pid, q: Proc)
    returns (longer: seq<Event>, t: State)
    requires Run(start, events) == Some(s)
    requires pid in s.procs && s.procs[pid] == q && q.pc == LoadLocked
    requires q.cache == Loaded(s, q.p.identity) && q.now == s.clock && Due(s, q)
    ensures Run(start, longer) == Some(t)
    ensures t == s.(procs := s.procs[pid := q.(pc := Dispatch)])
  {
    longer, t := Rereads(start, events, s, pid, q);
    longer, t := Decides(start, longer, t, pid, t.procs[pid]);
  }

  lemma Rereads(start: State, events: seq<Event>, s: State, pid: Pid, q: Proc)
    returns (longer: seq<Event>, t: State)
    requires Run(start, events) == Some(s)
    requires pid in s.procs && s.procs[pid] == q && q.pc == LoadLocked
    requires q.cache == Loaded(s, q.p.identity) && q.now == s.clock
    ensures Run(start, longer) == Some(t)
    ensures t == s.(procs := s.procs[pid := q.(pc := DecideLocked)])
  {
    longer, t := Advance(start, events, s, pid, q.(pc := ClockLocked));
    longer, t := Advance(start, longer, t, pid, q.(pc := DecideLocked));
  }

  lemma Decides(start: State, events: seq<Event>, s: State, pid: Pid, q: Proc)
    returns (longer: seq<Event>, t: State)
    requires Run(start, events) == Some(s)
    requires pid in s.procs && s.procs[pid] == q && q.pc == DecideLocked && Due(s, q)
    ensures Run(start, longer) == Some(t)
    ensures t == s.(procs := s.procs[pid := q.(pc := Dispatch)])
  {
    longer, t := PerformLocked(start, events, s, pid, GO, Move(q.(pc := Dispatch), Recheck(true)));
  }

  /** All of that. */
  lemma Begins(start: State, events: seq<Event>, s: State, pid: Pid, p: Project, o: Options)
    returns (longer: seq<Event>, t: State)
    requires Run(start, events) == Some(s) && pid !in s.procs && ValidProject(p) && p.command == s.command
    requires s.lock.None? && !Inspect(o) && Due(s, Proc(p, o, DecideQuiet, Loaded(s, p.identity), s.clock, ""))
    ensures Run(start, longer) == Some(t)
    ensures t == s.(lock := Some(pid),
                    procs := s.procs[pid := Proc(p, o, Dispatch, Loaded(s, p.identity), s.clock, "")])
  {
    longer, t := EntersLocked(start, events, s, pid, p, o);
    var q := t.procs[pid];
    assert Loaded(t, p.identity) == q.cache && Due(t, q);
    longer, t := UpToTheDispatch(start, longer, t, pid, q);
  }

  lemma EntersLocked(start: State, events: seq<Event>, s: State, pid: Pid, p: Project, o: Options)
    returns (longer: seq<Event>, t: State)
    requires Run(start, events) == Some(s) && pid !in s.procs && ValidProject(p) && p.command == s.command
    requires s.lock.None? && !Inspect(o) && Due(s, Proc(p, o, DecideQuiet, Loaded(s, p.identity), s.clock, ""))
    ensures Run(start, longer) == Some(t)
    ensures t == s.(lock := Some(pid),
                    procs := s.procs[pid := Proc(p, o, LoadLocked, Loaded(s, p.identity), s.clock, "")])
  {
    longer, t := Arrives(start, events, s, pid, p, o);
    var q := t.procs[pid];
    assert Due(t, q);
    longer, t := Locks(start, longer, t, pid, q);
  }

  /** From there to the setup command of a project the record does not know. */
  lemma UpToTheCommand(start: State, events: seq<Event>, s: State, pid: Pid, q: Proc)
    returns (longer: seq<Event>, t: State)
    requires Run(start, events) == Some(s)
    requires pid in s.procs && s.procs[pid] == q && q.pc == Dispatch && q.o == PLAIN && !q.cache.known
    requires q.p.embedded && q.p.command
    ensures Run(start, longer) == Some(t)
    ensures t == s.(work := Emptied(s, q.p), procs := s.procs[pid := q.(pc := RunCommand)])
  {
    longer, t := Resets(start, events, s, pid, q);
    longer, t := Empties(start, longer, t, pid, t.procs[pid]);
    longer, t := Materializes(start, longer, t, pid, t.procs[pid]);
  }

  lemma Resets(start: State, events: seq<Event>, s: State, pid: Pid, q: Proc) returns (longer: seq<Event>, t: State)
    requires Run(start, events) == Some(s) && pid in s.procs && s.procs[pid] == q && q.pc == Dispatch
    requires q.o == PLAIN && q.p.command && !q.cache.known
    ensures Run(start, longer) == Some(t) && t == s.(procs := s.procs[pid := q.(pc := ResetCommand)])
  {
    longer, t := PerformLocked(start, events, s, pid, GO, Move(q.(pc := ResetCommand), Nothing));
  }

  lemma Materializes(start: State, events: seq<Event>, s: State, pid: Pid, q: Proc)
    returns (longer: seq<Event>, t: State)
    requires Run(start, events) == Some(s) && pid in s.procs && s.procs[pid] == q && q.pc == Materialize
    ensures Run(start, longer) == Some(t) && t == s.(procs := s.procs[pid := q.(pc := RunCommand)])
  {
    longer, t := PerformSetup(start, events, s, pid, GO, Move(q.(pc := RunCommand), Nothing));
  }

  /** The work directory after a setup of `p` has emptied it. */
  function Emptied(s: State, p: Project): WorkDir {
    WorkDir({}, {p.identity}, {}, s.work.orphans)
  }

  lemma Empties(start: State, events: seq<Event>, s: State, pid: Pid, q: Proc) returns (longer: seq<Event>, t: State)
    requires Run(start, events) == Some(s) && pid in s.procs && s.procs[pid] == q && q.pc == ResetCommand
    ensures Run(start, longer) == Some(t)
    ensures t == s.(work := Emptied(s, q.p), procs := s.procs[pid := q.(pc := Materialize)])
  {
    var clearing := q.(pc := ClearCommand);
    longer, t := PerformSetup(start, events, s, pid, GO, Move(clearing, BeginReset));
    assert t == s.(work := s.work.(touched := s.work.touched + {q.p.identity}), procs := s.procs[pid := clearing]);
    longer, t := PerformSetup(start, longer, t, pid, GO, Move(q.(pc := Materialize), ResetDir));
  }

  /** All of the above. */
  lemma BeginSetup(start: State, events: seq<Event>, s: State, pid: Pid, p: Project)
    returns (longer: seq<Event>, t: State)
    requires Run(start, events) == Some(s)
    requires s.lock.None? && pid !in s.procs && s.command
    requires ValidProject(p) && p.embedded && p.command && !p.binCached && !Loaded(s, p.identity).known
    ensures Run(start, longer) == Some(t)
    ensures t == s.(lock := Some(pid), work := Emptied(s, p),
                    procs := s.procs[pid := Proc(p, PLAIN, RunCommand, Loaded(s, p.identity), s.clock, "")])
  {
    longer, t := Begins(start, events, s, pid, p, PLAIN);
    longer, t := UpToTheCommand(start, longer, t, pid, t.procs[pid]);
  }

  /** A setup command writes into the directory it emptied. */
  lemma SetupWrites(start: State, events: seq<Event>, s: State, pid: Pid, p: Project)
    returns (longer: seq<Event>, t: State)
    requires Run(start, events) == Some(s) && pid in s.procs && s.procs[pid].p == p && s.procs[pid].pc.RunCommand?
    requires s.work == Emptied(s, p)
    ensures Run(start, longer) == Some(t) && t == s.(work := Emptied(s, p).(wrote := {p.identity}))
  {
    longer, t := Extend(start, events, s, SetupWrite(pid));
    assert t == Moved(s, pid, Move(s.procs[pid], WriteDir));
    assert s.procs[pid := s.procs[pid]] == s.procs;
    assert {} + {p.identity} == {p.identity} + {p.identity} == {p.identity};
  }

  /** A temporary record is created ... */
  lemma Create(start: State, events: seq<Event>, s: State, pid: Pid, q: Proc, c: Cache, why: Why)
    returns (longer: seq<Event>, t: State)
    requires Run(start, events) == Some(s) && pid in s.procs && s.procs[pid] == q && q.pc == OpenTmp(c, why)
    ensures Run(start, longer) == Some(t)
    ensures t == s.(tmps := s.tmps[pid := ""], procs := s.procs[pid := q.(pc := WriteTmp(c, why, 0))])
  {
    longer, t := PerformSave(start, events, s, pid, GO, Move(q.(pc := WriteTmp(c, why, 0)), CreateTmp));
  }

  /** ... and written in one piece. */
  lemma Write(start: State, events: seq<Event>, s: State, pid: Pid, q: Proc, c: Cache, why: Why)
    returns (longer: seq<Event>, t: State)
    requires Run(start, events) == Some(s)
    requires pid in s.procs && s.procs[pid] == q && q.pc == WriteTmp(c, why, 0) && TmpOf(s, pid) == ""
    requires |s.codec.format(c)| > 0
    ensures Run(start, longer) == Some(t)
    ensures t == s.(tmps := s.tmps[pid := s.codec.format(c)],
                    procs := s.procs[pid := q.(pc := WriteTmp(c, why, |s.codec.format(c)|))])
  {
    var text := s.codec.format(c);
    assert text[0..0 + |text|] == text && "" + text == text;
    longer, t := PerformSave(start, events, s, pid, GO.(n := |text|),
                             Move(q.(pc := WriteTmp(c, why, |text|)), AppendTmp(text)));
  }

  lemma WritesTmp(start: State, events: seq<Event>, s: State, pid: Pid, q: Proc, c: Cache, why: Why)
    returns (longer: seq<Event>, t: State)
    requires Run(start, events) == Some(s) && |s.codec.format(c)| > 0
    requires pid in s.procs && s.procs[pid] == q && q.pc == OpenTmp(c, why)
    ensures Run(start, longer) == Some(t)
    ensures t == s.(tmps := s.tmps[pid := s.codec.format(c)],
                    procs := s.procs[pid := q.(pc := WriteTmp(c, why, |s.codec.format(c)|))])
  {
    longer, t := Create(start, events, s, pid, q, c, why);
    longer, t := Write(start, longer, t, pid, t.procs[pid], c, why);
  }

  /** Its rename. */
  lemma Rename(start: State, events: seq<Event>, s: State, pid: Pid, q: Proc, c: Cache, why: Why)
    returns (longer: seq<Event>, t: State)
    requires Run(start, events) == Some(s)
    requires pid in s.procs && s.procs[pid] == q && q.pc == WriteTmp(c, why, |s.codec.format(c)|)
    ensures Run(start, longer) == Some(t)
    ensures t == s.(record := Some(TmpOf(s, pid)), log := s.log + [Save(pid, c, why, s.lock == Some(pid))],
                    work := WorkAfter(s.work, Publish(c, why), q.p.identity),
                    tmps := s.tmps - {pid}, procs := s.procs[pid := q.(pc := Unlock(Ok))])
  {
    longer, t := Closes(start, events, s, pid, q, c, why);
    longer, t := PerformSave(start, longer, t, pid, GO, Move(q.(pc := Unlock(Ok)), Publish(c, why)));
  }

  lemma Closes(start: State, events: seq<Event>, s: State, pid: Pid, q: Proc, c: Cache, why: Why)
    returns (longer: seq<Event>, t: State)
    requires Run(start, events) == Some(s)
    requires pid in s.procs && s.procs[pid] == q && q.pc == WriteTmp(c, why, |s.codec.format(c)|)
    ensures Run(start, longer) == Some(t) && t == s.(procs := s.procs[pid := q.(pc := RenameTmp(c, why))])
  {
    longer, t := PerformSave(start, events, s, pid, GO, Move(q.(pc := RenameTmp(c, why)), Nothing));
  }

  /** A whole save, and the end of the process. */
  lemma Finish(start: State, events: seq<Event>, s: State, pid: Pid, q: Proc, c: Cache, why: Why)
    returns (longer: seq<Event>, t: State)
    requires Run(start, events) == Some(s)
    requires pid in s.procs && s.procs[pid] == q && q.pc == OpenTmp(c, why)
    requires |s.codec.format(c)| > 0
    ensures Run(start, longer) == Some(t)
    ensures t == s.(record := Some(s.codec.format(c)), log := s.log + [Save(pid, c, why, s.lock == Some(pid))],
                    work := WorkAfter(s.work, Publish(c, why), q.p.identity), tmps := s.tmps - {pid},
                    lock := if s.lock == Some(pid) then None else s.lock,
                    procs := s.procs[pid := q.(pc := Done(Ok))])
  {
    longer, t := WritesTmp(start, events, s, pid, q, c, why);
    longer, t := Rename(start, longer, t, pid, t.procs[pid], c, why);
    longer, t := Leave(start, longer, t, pid, Ok);
  }

  /** Setup up to its command, which writes or does not. */
  lemma SetUp(start: State, events: seq<Event>, s: State, pid: Pid, p: Project, writes: bool)
    returns (longer: seq<Event>, t: State)
    requires Run(start, events) == Some(s)
    requires s.lock.None? && pid !in s.procs && s.command
    requires ValidProject(p) && p.embedded && p.command && !p.binCached && !Loaded(s, p.identity).known
    ensures Run(start, longer) == Some(t)
    ensures t == s.(lock := Some(pid),
                    work := WorkDir(if writes then {p.identity} else {}, {p.identity}, {}, s.work.orphans),
                    procs := s.procs[pid := Proc(p, PLAIN, RunCommand, Loaded(s, p.identity), s.clock, "")])
  {
    longer, t := BeginSetup(start, events, s, pid, p);
    if writes {
      longer, t := SetupWrites(start, longer, t, pid, p);
    }
  }

  /** A successful first setup of an embedded project. */
  lemma FirstSetup(a: string) returns (events: seq<Event>, s: State)
    requires ValidProject(Edit(a))
    ensures Run(Init(true, 1, true), events) == Some(s)
    ensures s.lock.None? && s.codec == RealCodec() && s.command && s.work == WorkDir({a}, {}, {}, {}) && s.clock == 1
    ensures s.procs.Keys == {0} && s.procs[0].o == PLAIN
    ensures var c := Cache(a, "", 1, 1, false);
      s.record == Some(Print(c)) && s.log == [Save(0, c, SetupExitedZero, true)]
  {
    var start := Init(true, 1, true);
    events, s := SetUp(start, [], start, 0, Edit(a), true);
    var q := s.procs[0];
    var c := Updated(q);
    var saving := q.(pc := OpenTmp(c, SetupExitedZero));
    events, s := PerformSetup(start, events, s, 0, GO, Move(saving, ExitZero));
    assert |s.codec.format(c)| > 0;
    events, s := Finish(start, events, s, 0, saving, c, SetupExitedZero);
  }

  /** The setup command of `p` fails, with or without having written anything. */
  lemma FailedSetup(start: State, events: seq<Event>, s: State, pid: Pid, p: Project, writes: bool)
    returns (longer: seq<Event>, t: State)
    requires Run(start, events) == Some(s)
    requires s.lock.None? && pid !in s.procs && s.command
    requires ValidProject(p) && p.embedded && p.command && !p.binCached && !Loaded(s, p.identity).known
    ensures Run(start, longer) == Some(t)
    ensures t == s.(work := WorkDir(if writes then {p.identity} else {}, {p.identity}, {p.identity}, s.work.orphans),
                    procs := s.procs[pid := Proc(p, PLAIN, Done(Failed), Loaded(s, p.identity), s.clock, "")])
  {
    longer, t := SetUp(start, events, s, pid, p, writes);
    longer, t := SetupFails(start, longer, t, pid, t.procs[pid]);
    longer, t := Leave(start, longer, t, pid, Failed);
  }

  lemma SetupFails(start: State, events: seq<Event>, s: State, pid: Pid, q: Proc)
    returns (longer: seq<Event>, t: State)
    requires Run(start, events) == Some(s) && pid in s.procs && s.procs[pid] == q && q.pc.RunCommand?
    requires s.work.touched == {q.p.identity} && s.work.aborted == {}
    ensures Run(start, longer) == Some(t)
    ensures t == s.(work := s.work.(aborted := {q.p.identity}), procs := s.procs[pid := q.(pc := Unlock(Failed))])
  {
    longer, t := PerformSetup(start, events, s, pid, STOP, Move(q.(pc := Unlock(Failed)), GiveUp(true, false)));
  }

  lemma FirstRecord(a: string, b: string)
    requires ValidProject(Edit(a)) && a != b
    ensures var text := Print(Cache(a, "", 1, 1, false)); Load(a, text).known && !Load(b, text).known
    ensures Load(a, Print(Cache(a, "", 1, 1, false))).lastCheck == 1
  {
    RecordRoundTrip(Cache(a, "", 1, 1, false));
    ForeignRecordIgnored(Cache(a, "", 1, 1, false), b);
  }

  /** Edit and revert. A file is set up, edited, and the edit's setup fails. The record still names
      the first version, so once the edit is reverted it is trusted, although the directory holds
      only what the failed edit wrote: nothing at all if it failed before its first write. */
  lemma EditAndRevert(a: string, b: string, writes: bool) returns (events: seq<Event>)
    requires ValidProject(Edit(a)) && ValidProject(Edit(b)) && a != b
    ensures var start := Init(true, 1, true);
      && Run(start, events).Some?
      && var s := Run(start, events).value;
      && AllLocked(s.log) && NothingAdopted(s.log) && !OwnerBusy(s) && s.work.orphans == {}
      && Loaded(s, a).known && !IsDue(Edit(a), Loaded(s, a), s.clock, false, true, true).due
      && s.work.wrote == (if writes then {b} else {}) && !OnlyBy(s.work, a) && s.work.aborted == {b}
  {
    var start := Init(true, 1, true);
    var s: State;
    events, s := FirstSetup(a);
    FirstRecord(a, b);
    events, s := FailedSetup(start, events, s, 1, Edit(b), writes);
    assert b in s.work.touched;
  }

  // ---------- inspection ----------

  const ADOPT := Options(false, false, false, true, false)
  const DRY_RUN := Options(false, true, false, false, false)

  /** A URL project with a plain interval schedule. */
  function Watch(identity: string, interval: int): Project {
    Project(identity, false, false, true, Every(interval), false, false)
  }

  /** An HTTP check that returns `mark`. */
  lemma Checks(start: State, events: seq<Event>, s: State, pid: Pid, q: Proc, mark: string)
    returns (longer: seq<Event>, t: State)
    requires Run(start, events) == Some(s)
    requires pid in s.procs && s.procs[pid] == q && q.pc == Dispatch && !q.p.command && ValidMark(mark)
    ensures Run(start, longer) == Some(t) && t == s.(procs := s.procs[pid := q.(pc := Compare, found := mark)])
  {
    var checking := q.(pc := Check);
    longer, t := PerformLocked(start, events, s, pid, GO, Move(checking, Nothing));
    assert t == s.(procs := s.procs[pid := checking]);
    longer, t := PerformLocked(start, longer, t, pid, GO.(mark := mark), Move(q.(pc := Compare, found := mark), Nothing));
  }

  lemma AdoptOpens(start: State, before: seq<Event>, s: State, p: Project, mark: string)
    returns (events: seq<Event>, t: State)
    requires Run(start, before) == Some(s) && 0 in s.procs && !p.command && ValidMark(mark)
    requires s.procs[0] == Proc(p, ADOPT, Dispatch, Unknown(p.identity), 1, "")
    ensures Run(start, events) == Some(t)
    ensures var c := Cache(p.identity, mark, 1, 1, false);
      t == s.(procs := s.procs[0 := Proc(p, ADOPT, OpenTmp(c, Adopted), Unknown(p.identity), 1, mark)])
  {
    events, t := Checks(start, before, s, 0, s.procs[0], mark);
    var c := Cache(p.identity, mark, 1, 1, false);
    var saving := Proc(p, ADOPT, OpenTmp(c, Adopted), Unknown(p.identity), 1, mark);
    events, t := PerformLocked(start, events, t, 0, GO, Move(saving, Nothing));
  }

  lemma PrintsSomething(c: Cache)
    ensures |Print(c)| > 0
  {
  }

  lemma FirstAdopt(p: Project, mark: string) returns (events: seq<Event>, t: State)
    requires ValidProject(p) && p.sched.Every? && p == Watch(p.identity, p.sched.interval) && ValidMark(mark)
    ensures Run(Init(false, 1, true), events) == Some(t)
    ensures var c := Cache(p.identity, mark, 1, 1, false);
      t == Init(false, 1, true).(record := Some(RealCodec().format(c)), log := [Save(0, c, Adopted, true)],
                                 procs := map[0 := Proc(p, ADOPT, Done(Ok), Unknown(p.identity), 1, mark)])
  {
    var start := Init(false, 1, true);
    var c := Cache(p.identity, mark, 1, 1, false);
    PrintsSomething(c);
    assert Due(start, Proc(p, ADOPT, DecideQuiet, Unknown(p.identity), 1, ""));
    events, t := Begins(start, [], start, 0, p, ADOPT);
    events, t := AdoptOpens(start, events, t, p, mark);
    var q := t.procs[0];
    events, t := Finish(start, events, t, 0, q, c, Adopted);
  }

  /** A dry run of a known project that is due ... */
  lemma DryRunStarts(start: State, events: seq<Event>, s: State, pid: Pid, p: Project, c: Cache)
    returns (longer: seq<Event>, t: State)
    requires Run(start, events) == Some(s) && pid !in s.procs && !s.command
    requires ValidProject(p) && p.sched.Every? && p == Watch(p.identity, p.sched.interval) && Loaded(s, p.identity) == c
    requires c.known && ValidMark(c.mark) && c.lastCheck > 0 && s.clock - c.lastCheck >= p.sched.interval
    ensures Run(start, longer) == Some(t)
    ensures t == s.(procs := s.procs[pid := Proc(p, DRY_RUN, Dispatch, c, s.clock, "")])
  {
    longer, t := Arrives(start, events, s, pid, p, DRY_RUN);
    longer, t := Advance(start, longer, t, pid, Proc(p, DRY_RUN, Dispatch, c, s.clock, ""));
  }

  /** ... and whose marker is unchanged, up to opening its temporary record. */
  lemma DryRunOpens(start: State, events: seq<Event>, s: State, pid: Pid, p: Project, c: Cache)
    returns (longer: seq<Event>, t: State)
    requires Run(start, events) == Some(s) && pid !in s.procs && !s.command
    requires ValidProject(p) && p.sched.Every? && p == Watch(p.identity, p.sched.interval) && Loaded(s, p.identity) == c
    requires c.known && ValidMark(c.mark) && c.lastCheck > 0 && s.clock - c.lastCheck >= p.sched.interval
    ensures Run(start, longer) == Some(t)
    ensures t == s.(procs := s.procs[pid := Proc(p, DRY_RUN, OpenTmp(c.(lastCheck := s.clock), CheckUnchanged), c, s.clock, c.mark)])
  {
    longer, t := DryRunStarts(start, events, s, pid, p, c);
    longer, t := Checks(start, longer, t, pid, t.procs[pid], c.mark);
    var q := t.procs[pid];
    var saving := q.(pc := OpenTmp(c.(lastCheck := s.clock), CheckUnchanged));
    longer, t := PerformLocked(start, longer, t, pid, GO, Move(saving, Nothing));
  }

  /** A URL project recorded at time 1, and a dry run at time 11 that is about to save. */
  lemma DryRunWaits(identity: string, mark: string) returns (events: seq<Event>, s: State)
    requires ValidProject(Watch(identity, 10)) && ValidMark(mark) && Clean(mark) == mark
    ensures Run(Init(false, 1, true), events) == Some(s)
    ensures var c := Cache(identity, mark, 1, 1, true);
      && s.clock == 11 && s.steady && s.lock.None? && !s.command && s.codec == RealCodec() && s.present
      && |s.log| == 1 && Loaded(s, identity) == c
      && s.procs.Keys == {0, 1}
      && s.procs[1] == Proc(Watch(identity, 10), DRY_RUN, OpenTmp(c.(lastCheck := 11), CheckUnchanged), c, 11, mark)
  {
    var start := Init(false, 1, true);
    var p := Watch(identity, 10);
    events, s := FirstAdopt(p, mark);
    RecordRoundTrip(Cache(identity, mark, 1, 1, false));
    var c := Cache(identity, mark, 1, 1, true);
    events, s := Extend(start, events, s, Tick(10));
    assert Loaded(s, identity) == c;
    events, s := DryRunOpens(start, events, s, 1, p, c);
  }

  /** Inspection saves without the lock. One adopt at time 1, then two dry runs at time 11 of a
      project with a 10 second schedule: both find the marker unchanged and both save, neither
      of them locked, and the last two record writes are 0 seconds apart. */
  lemma DryRunsSaveUnlocked(identity: string, mark: string) returns (events: seq<Event>)
    requires ValidProject(Watch(identity, 10)) && ValidMark(mark) && Clean(mark) == mark
    ensures var start := Init(false, 1, true);
      && Run(start, events).Some?
      && var s := Run(start, events).value;
      && s.steady && |s.log| == 3 && !s.log[1].locked && !s.log[2].locked
      && s.log[1].cache.lastCheck == s.log[2].cache.lastCheck == 11
      && !Spaced(Watch(identity, 10), s.log)
  {
    var start := Init(false, 1, true);
    var p := Watch(identity, 10);
    var s: State;
    events, s := DryRunWaits(identity, mark);
    var c := Loaded(s, identity);
    events, s := DryRunOpens(start, events, s, 2, p, c);
    var saved := c.(lastCheck := 11);
    PrintsSomething(saved);
    events, s := Finish(start, events, s, 1, s.procs[1], saved, CheckUnchanged);
    events, s := Finish(start, events, s, 2, s.procs[2], saved, CheckUnchanged);
    assert !Apart(p, Previous(s.log[..2]), s.log[2].cache.lastCheck);
  }

  /** An install of a URL project whose marker has changed, from the decision to the save. */
  lemma Installs(start: State, events: seq<Event>, s: State, pid: Pid, q: Proc)
    returns (longer: seq<Event>, t: State)
    requires Run(start, events) == Some(s) && pid in s.procs && s.procs[pid] == q && q.pc == ResetUrl
    ensures Run(start, longer) == Some(t) && t.procs == s.procs[pid := q.(pc := Install)]
    ensures t == s.(procs := t.procs, work := t.work)
  {
    longer, t := EmptiesUrl(start, events, s, pid, q);
    longer, t := PerformSetup(start, longer, t, pid, GO, Move(q.(pc := Install), Nothing));
  }

  lemma EmptiesUrl(start: State, events: seq<Event>, s: State, pid: Pid, q: Proc)
    returns (longer: seq<Event>, t: State)
    requires Run(start, events) == Some(s) && pid in s.procs && s.procs[pid] == q && q.pc == ResetUrl
    ensures Run(start, longer) == Some(t) && t.procs == s.procs[pid := q.(pc := StartInstall)]
    ensures t == s.(procs := t.procs, work := t.work)
  {
    longer, t := PerformSetup(start, events, s, pid, GO, Move(q.(pc := ClearUrl), BeginReset));
    longer, t := PerformSetup(start, longer, t, pid, GO, Move(q.(pc := StartInstall), ResetDir));
  }

  lemma FindsChange(start: State, events: seq<Event>, s: State, pid: Pid, q: Proc, mark: string)
    returns (longer: seq<Event>, t: State)
    requires Run(start, events) == Some(s) && pid in s.procs && s.procs[pid] == q && q.pc == Dispatch
    requires q.o == PLAIN && !q.p.command && ValidMark(mark) && q.cache.mark != mark
    ensures Run(start, longer) == Some(t)
    ensures t == s.(procs := s.procs[pid := q.(pc := ResetUrl, found := mark)])
  {
    longer, t := Checks(start, events, s, pid, q, mark);
    longer, t := PerformLocked(start, longer, t, pid, GO, Move(q.(pc := ResetUrl, found := mark), Nothing));
  }

  /** The end of an install that exits with 0. */
  lemma RecordsInstall(start: State, events: seq<Event>, s: State, pid: Pid, q: Proc)
    returns (longer: seq<Event>, t: State)
    requires Run(start, events) == Some(s) && pid in s.procs && s.procs[pid] == q && q.pc == Install
    requires s.lock == Some(pid) && s.codec == RealCodec()
    ensures Run(start, longer) == Some(t)
    ensures t.log == s.log + [Save(pid, Updated(q), SetupExitedZero, true)]
    ensures t.procs == s.procs[pid := q.(pc := Done(Ok))] && t.codec == s.codec && t.lock.None?
  {
    var c := Updated(q);
    var saving := q.(pc := OpenTmp(c, SetupExitedZero));
    longer, t := PerformSetup(start, events, s, pid, GO, Move(saving, ExitZero));
    PrintsSomething(c);
    longer, t := Finish(start, longer, t, pid, saving, c, SetupExitedZero);
  }

  /** The slot after `pid` has installed and recorded `c`. */
  ghost predicate Installed(s: State, pid: Pid, c: Cache, t: State) {
    && t.log == s.log + [Save(pid, c, SetupExitedZero, true)] && t.codec == s.codec && t.lock.None?
    && pid in t.procs && t.procs == s.procs[pid := t.procs[pid]]
  }

  /** A whole run that installs what has changed. */
  lemma Reinstalls(start: State, events: seq<Event>, s: State, pid: Pid, p: Project, mark: string)
    returns (longer: seq<Event>, t: State)
    requires Run(start, events) == Some(s) && pid !in s.procs && ValidProject(p) && !p.command && !s.command
    requires s.lock.None? && Due(s, Proc(p, PLAIN, DecideQuiet, Loaded(s, p.identity), s.clock, ""))
    requires ValidMark(mark) && Loaded(s, p.identity).mark != mark && s.codec == RealCodec()
    ensures Run(start, longer) == Some(t)
    ensures Installed(s, pid, Loaded(s, p.identity).(lastCheck := s.clock, lastChange := s.clock, mark := mark), t)
  {
    longer, t := Begins(start, events, s, pid, p, PLAIN);
    longer, t := InstallsChange(start, longer, t, pid, t.procs[pid], mark);
    longer, t := RecordsInstall(start, longer, t, pid, t.procs[pid]);
  }

  lemma InstallsChange(start: State, events: seq<Event>, s: State, pid: Pid, q: Proc, mark: string)
    returns (longer: seq<Event>, t: State)
    requires Run(start, events) == Some(s) && pid in s.procs && s.procs[pid] == q && q.pc == Dispatch
    requires q.o == PLAIN && !q.p.command && ValidMark(mark) && q.cache.mark != mark
    ensures Run(start, longer) == Some(t) && t.procs == s.procs[pid := q.(pc := Install, found := mark)]
    ensures t == s.(procs := t.procs, work := t.work)
  {
    longer, t := FindsChange(start, events, s, pid, q, mark);
    longer, t := Installs(start, longer, t, pid, t.procs[pid]);
  }

  /** A save, and what the next load makes of it. */
  lemma FinishLoads(start: State, events: seq<Event>, s: State, pid: Pid, q: Proc, c: Cache)
    returns (longer: seq<Event>, t: State)
    requires Run(start, events) == Some(s) && s.codec == RealCodec() && s.lock != Some(pid)
    requires pid in s.procs && s.procs[pid] == q && q.pc == OpenTmp(c, CheckUnchanged)
    requires InRange(c) && '\n' !in c.identity
    ensures Run(start, longer) == Some(t)
    ensures t.log == s.log + [Save(pid, c, CheckUnchanged, false)] && Loaded(t, c.identity) == ReadBack(c)
  {
    PrintsSomething(c);
    longer, t := Finish(start, events, s, pid, q, c, CheckUnchanged);
    OwnRecordLoads(c);
  }

  /** An unlocked save can also undo a newer one. A dry run finds the marker of a recorded URL
      project unchanged; before it saves, another run finds a new marker, installs and records
      that; then the dry run writes the old marker back over it. */
  lemma DryRunRestoresOldMark(identity: string, before: string, after: string) returns (events: seq<Event>)
    requires ValidProject(Watch(identity, 10)) && ValidMark(before) && ValidMark(after)
    requires before != after && Clean(before) == before
    ensures var start := Init(false, 1, true);
      && Run(start, events).Some?
      && var s := Run(start, events).value;
      && |s.log| == 3 && s.log[1].why.SetupExitedZero? && s.log[1].cache.mark == after
      && s.log[2].why.CheckUnchanged? && !s.log[2].locked
      && Loaded(s, identity).known && Loaded(s, identity).mark == before
  {
    var start := Init(false, 1, true);
    var s: State;
    events, s := DryRunWaits(identity, before);
    var q := s.procs[1];
    assert Due(s, Proc(Watch(identity, 10), PLAIN, DecideQuiet, Loaded(s, identity), 11, ""));
    events, s := Reinstalls(start, events, s, 2, Watch(identity, 10), after);
    assert s.procs[1] == q;
    events, s := FinishLoads(start, events, s, 1, q, Cache(identity, before, 11, 1, true));
  }
}
