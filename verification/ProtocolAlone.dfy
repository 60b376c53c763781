/** What one process does when nothing goes wrong and nobody interferes: the whole of `main` from the
    first load to the last unlock, as one decision. */
module ProtocolAlone {
  import opened Text
  import opened CacheRecord
  import opened Schedule
  import opened Wrappers
  import opened Protocol
  import opened ProtocolSafety

  /** What there is to go by: the record, the clock, whether the program is there, and the marker
      that a check returns. */
  datatype Facts = Facts(c: Cache, now: int, present: bool, mark: string)

  predicate Due(q: Proc, f: Facts) {
    IsDue(q.p, f.c, f.now, q.o.force, true, f.present).due
  }

  /** Setup is called for, once the project is due. */
  predicate Stale(q: Proc, f: Facts) {
    q.p.command || (q.p.binCached && !f.present) || !f.c.known || f.c.mark != f.mark
  }

  /** The record as it is after a setup or an adopt. */
  function Renewed(q: Proc, f: Facts): Cache {
    Cache(f.c.identity, if q.p.command then f.c.mark else f.mark, f.now, f.now, f.c.known)
  }

  predicate Writes(q: Proc, f: Facts, d: Cache, why: Why) {
    match why
    case SetupExitedZero => Acting(q) && Stale(q, f) && d == Renewed(q, f)
    case Adopted => !Inspect(q.o) && q.o.adopt && Stale(q, f) && d == Renewed(q, f)
    case CheckUnchanged => !Stale(q, f) && d == Cache(f.c.identity, f.c.mark, f.now, f.c.lastChange, f.c.known)
  }

  predicate Knows(q: Proc, f: Facts) {
    q.cache == f.c && q.now == f.now
  }

  /** Where the process can be, and what it knows there. */
  predicate OnWay(q: Proc, f: Facts) {
    match q.pc
    case LoadQuiet => true
    case ClockQuiet => q.cache == f.c
    case DecideQuiet => Knows(q, f)
    case TryExec => Knows(q, f) && ExecCheck(q) && (Due(q, f) ==> !f.present)
    case AfterExec => Knows(q, f) && ExecCheck(q) && !f.present
    case WaitLock => Due(q, f) && !Inspect(q.o)
    case LoadLocked => Due(q, f) && !Inspect(q.o)
    case ClockLocked => Due(q, f) && !Inspect(q.o) && q.cache == f.c
    case DecideLocked => Due(q, f) && !Inspect(q.o) && Knows(q, f)
    case Dispatch => Due(q, f) && Knows(q, f)
    case Check => Due(q, f) && Knows(q, f) && !q.p.command
    case Compare => Due(q, f) && Knows(q, f) && !q.p.command && q.found == f.mark
    case OpenTmp(d, why) => Due(q, f) && Writes(q, f, d, why)
    case WriteTmp(d, why, _) => Due(q, f) && Writes(q, f, d, why)
    case RenameTmp(d, why) => Due(q, f) && Writes(q, f, d, why)
    case Unlock(rc) => Due(q, f) && (rc == Ok || (rc == Pending && Inspect(q.o) && Stale(q, f)))
    case Done(rc) => Ended(q, f, rc)
    case Crashed => false
    case _ =>
      && Due(q, f) && Knows(q, f) && Acting(q) && Stale(q, f)
      && (!q.p.command ==> q.found == f.mark)
      && (q.pc.ResetCommand? || q.pc.ClearCommand? ==> !f.c.known)
      && (q.p.command <==> q.pc.ResetCommand? || q.pc.ClearCommand? || q.pc.Materialize? || q.pc.RunCommand?)
  }

  predicate Ended(q: Proc, f: Facts, rc: Outcome) {
    match rc
    case Skipped => !Due(q, f) && !ExecCheck(q)
    case Executed => !Due(q, f) && ExecCheck(q)
    case Pending => Due(q, f) && Inspect(q.o) && Stale(q, f)
    case Ok => Due(q, f)
    case _ => false
  }

  /** A step that succeeds, with what there is to see. */
  predicate Plain(q: Proc, seen: Seen, ch: Choice, f: Facts) {
    && ch.ok && ch.mark == f.mark && seen.clock == f.now && seen.present == f.present
    && (q.pc.LoadQuiet? || q.pc.LoadLocked? ==> seen.loaded == f.c)
  }

  lemma QuietOnWay(q: Proc, codec: Codec, seen: Seen, ch: Choice, f: Facts)
    requires OnWay(q, f) && Plain(q, seen, ch, f) && QuietNext(q, seen, ch).Some?
    ensures OnWay(QuietNext(q, seen, ch).value.q, f)
  {
    match q.pc
    case DecideQuiet =>
      if IsDue(q.p, q.cache, q.now, q.o.force, !ExecCheck(q), seen.present).due {} else {}
    case TryExec => if seen.present {} else {}
    case AfterExec =>
    case _ =>
  }

  lemma LockedOnWay(q: Proc, codec: Codec, seen: Seen, ch: Choice, f: Facts)
    requires OnWay(q, f) && Plain(q, seen, ch, f) && LockedNext(q, seen, ch).Some?
    ensures OnWay(LockedNext(q, seen, ch).value.q, f)
  {
    match q.pc
    case Dispatch =>
      if !q.p.command {} else if Inspect(q.o) {} else if q.o.adopt {} else if q.cache.known {}
    case Compare =>
      if Stale(q, f) {} else {}
      if Inspect(q.o) {} else if q.o.adopt {}
    case _ =>
  }

  lemma SetupOnWay(q: Proc, codec: Codec, seen: Seen, ch: Choice, f: Facts)
    requires OnWay(q, f) && Plain(q, seen, ch, f) && SetupNext(q, seen, ch).Some?
    ensures OnWay(SetupNext(q, seen, ch).value.q, f)
  {
  }

  lemma SaveOnWay(q: Proc, codec: Codec, ch: Choice, f: Facts)
    requires OnWay(q, f) && ch.ok && Saving(q.pc) && SaveNext(q, codec, ch).Some?
    ensures OnWay(SaveNext(q, codec, ch).value.q, f)
  {
  }

  lemma NextOnWay(q: Proc, codec: Codec, seen: Seen, ch: Choice, f: Facts)
    requires OnWay(q, f) && Plain(q, seen, ch, f) && Next(q, codec, seen, ch).Some?
    ensures OnWay(Next(q, codec, seen, ch).value.q, f)
  {
    if !Critical(q.pc) {
      QuietOnWay(q, codec, seen, ch, f);
    } else if Saving(q.pc) {
      SaveOnWay(q, codec, ch, f);
    } else if q.pc.ResetCommand? || q.pc.ResetUrl? || SettingUp(q.pc) {
      SetupOnWay(q, codec, seen, ch, f);
    } else {
      LockedOnWay(q, codec, seen, ch, f);
    }
  }

  // ---------- on the slot ----------

  /** Setup of this process has exited with 0. */
  predicate SetUp(pc: Pc, log: seq<Save>) {
    if Saving(pc) then pc.why.SetupExitedZero?
    else (pc == Unlock(Ok) || pc == Done(Ok)) && log != [] && log[|log| - 1].why.SetupExitedZero?
  }

  predicate Saved(pc: Pc) {
    pc == Unlock(Ok) || pc == Done(Ok)
  }

  /** The slot while `pid` is the only one that has moved since `s0`. */
  ghost predicate Alone(s0: State, s: State, pid: Pid, f: Facts) {
    && pid in s0.procs && pid in s.procs && s.procs[pid].p == s0.procs[pid].p && s.procs[pid].o == s0.procs[pid].o
    && OnWay(s.procs[pid], f)
    && s.codec == s0.codec && s.clock == s0.clock == f.now && s.present == s0.present == f.present
    && f.c == Loaded(s0, s.procs[pid].p.identity)
    && s.lock == (if Holds(s.procs[pid]) then Some(pid) else None)
    && (pid in s.zeroExits <==> SetUp(s.procs[pid].pc, s.log))
    && LogAlone(s0, s, pid, f)
  }

  ghost predicate LogAlone(s0: State, s: State, pid: Pid, f: Facts)
    requires pid in s.procs
  {
    if Saved(s.procs[pid].pc) then
      && |s.log| == |s0.log| + 1 && s0.log <= s.log
      && var w := s.log[|s0.log|];
      && w.pid == pid && Writes(s.procs[pid], f, w.cache, w.why) && (w.locked <==> !Inspect(s.procs[pid].o))
    else s.log == s0.log && s.record == s0.record
  }

  /** What the step does to the world fits where it leads. */
  predicate Fits(q: Proc, m: Move) {
    var e := m.effect;
    && m.q.p == q.p && m.q.o == q.o
    && (Holds(m.q) <==> (Holds(q) && !e.Release?) || e.Acquire?) && (e.Acquire? || e.Release? ==> !Saving(q.pc))
    && (e.ExitZero? <==> Saving(m.q.pc) && !Saving(q.pc) && m.q.pc.why.SetupExitedZero?)
    && (e.Publish? <==> Saved(m.q.pc) && !Saved(q.pc))
    && (e.Publish? ==> q.pc == RenameTmp(e.c, e.why))
    && (Saving(q.pc) && !e.Publish? ==> Saving(m.q.pc) && m.q.pc.why == q.pc.why)
    && (Saved(q.pc) ==> Saved(m.q.pc))
    && !e.Die?
  }

  lemma QuietFits(q: Proc, seen: Seen, ch: Choice, f: Facts)
    requires OnWay(q, f) && Plain(q, seen, ch, f) && !Critical(q.pc) && QuietNext(q, seen, ch).Some?
    ensures Fits(q, QuietNext(q, seen, ch).value)
  {
    match q.pc
    case DecideQuiet =>
      if IsDue(q.p, q.cache, q.now, q.o.force, !ExecCheck(q), seen.present).due {} else {}
    case TryExec => if seen.present {} else {}
    case _ =>
  }

  lemma LockedFits(q: Proc, seen: Seen, ch: Choice, f: Facts)
    requires OnWay(q, f) && Plain(q, seen, ch, f) && Critical(q.pc) && LockedNext(q, seen, ch).Some?
    ensures Fits(q, LockedNext(q, seen, ch).value)
  {
  }

  lemma SetupFits(q: Proc, seen: Seen, ch: Choice, f: Facts)
    requires OnWay(q, f) && Plain(q, seen, ch, f) && SetupNext(q, seen, ch).Some?
    ensures Fits(q, SetupNext(q, seen, ch).value)
  {
  }

  lemma SaveFits(q: Proc, codec: Codec, ch: Choice, f: Facts)
    requires OnWay(q, f) && ch.ok && SaveNext(q, codec, ch).Some?
    ensures Fits(q, SaveNext(q, codec, ch).value)
  {
  }

  lemma NextFits(q: Proc, codec: Codec, seen: Seen, ch: Choice, f: Facts)
    requires OnWay(q, f) && Plain(q, seen, ch, f) && Next(q, codec, seen, ch).Some?
    ensures Fits(q, Next(q, codec, seen, ch).value)
  {
    if !Critical(q.pc) {
      QuietFits(q, seen, ch, f);
    } else if Saving(q.pc) {
      SaveFits(q, codec, ch, f);
    } else if q.pc.ResetCommand? || q.pc.ResetUrl? || SettingUp(q.pc) {
      SetupFits(q, seen, ch, f);
    } else {
      LockedFits(q, seen, ch, f);
    }
  }

  lemma MovedAlone(s0: State, s: State, pid: Pid, f: Facts, m: Move)
    requires Alone(s0, s, pid, f) && Fits(s.procs[pid], m) && OnWay(m.q, f)
    ensures Alone(s0, Moved(s, pid, m), pid, f)
  {
    MovedRecord(s, pid, m);
    var q := s.procs[pid];
    if m.effect.Publish? {
    } else if Saved(q.pc) {
    } else {
    }
  }

  lemma StepAlone(s0: State, s: State, pid: Pid, f: Facts, ch: Choice)
    requires Alone(s0, s, pid, f) && ch.ok && ch.mark == f.mark && Apply(s, Step(pid, ch)).Some?
    ensures Alone(s0, Apply(s, Step(pid, ch)).value, pid, f)
  {
    var q := s.procs[pid];
    NextOnWay(q, s.codec, SeenBy(s, q), ch, f);
    NextFits(q, s.codec, SeenBy(s, q), ch, f);
    MovedAlone(s0, s, pid, f, Next(q, s.codec, SeenBy(s, q), ch).value);
  }

  // ---------- what is left in the work directory ----------

  /** This process has emptied the directory: a URL project before it installs, an embedded one only
      when the record is unknown. */
  predicate Emptied(q: Proc, f: Facts) {
    match q.pc
    case Materialize => !f.c.known
    case RunCommand => !f.c.known
    case StartInstall => true
    case Install => true
    case OpenTmp(_, why) => why.SetupExitedZero? && !(q.p.command && f.c.known)
    case WriteTmp(_, why, _) => why.SetupExitedZero? && !(q.p.command && f.c.known)
    case RenameTmp(_, why) => why.SetupExitedZero? && !(q.p.command && f.c.known)
    case _ => false
  }

  /** What earlier setups wrote is still there unless this process has emptied the directory. */
  ghost predicate DirAlone(s0: State, s: State, pid: Pid, f: Facts)
    requires pid in s.procs
  {
    var q := s.procs[pid];
    var empty := if Saved(q.pc) then SetUp(q.pc, s.log) && !(q.p.command && f.c.known) else Emptied(q, f);
    s.work.wrote == (if empty then {} else s0.work.wrote)
  }

  predicate Empties(q: Proc, m: Move, f: Facts) {
    && (Emptied(m.q, f) <==> m.effect.ResetDir? || (Emptied(q, f) && !m.effect.Publish?))
    && !m.effect.WriteDir? && m.q.p == q.p
  }

  lemma QuietEmpties(q: Proc, seen: Seen, ch: Choice, f: Facts)
    requires QuietNext(q, seen, ch).Some? && !Critical(q.pc)
    ensures Empties(q, QuietNext(q, seen, ch).value, f)
  {
  }

  lemma LockedEmpties(q: Proc, seen: Seen, ch: Choice, f: Facts)
    requires OnWay(q, f) && Critical(q.pc) && LockedNext(q, seen, ch).Some?
    ensures Empties(q, LockedNext(q, seen, ch).value, f)
  {
    match q.pc
    case Dispatch =>
      if !q.p.command {} else if Inspect(q.o) {} else if q.o.adopt {} else if q.cache.known {}
    case _ =>
  }

  lemma SetupEmpties(q: Proc, seen: Seen, ch: Choice, f: Facts)
    requires OnWay(q, f) && ch.ok && SetupNext(q, seen, ch).Some?
    ensures Empties(q, SetupNext(q, seen, ch).value, f)
  {
  }

  lemma SaveEmpties(q: Proc, codec: Codec, ch: Choice, f: Facts)
    requires ch.ok && SaveNext(q, codec, ch).Some?
    ensures Empties(q, SaveNext(q, codec, ch).value, f)
  {
  }

  lemma NextEmpties(q: Proc, codec: Codec, seen: Seen, ch: Choice, f: Facts)
    requires OnWay(q, f) && ch.ok && Next(q, codec, seen, ch).Some?
    ensures Empties(q, Next(q, codec, seen, ch).value, f)
  {
    if !Critical(q.pc) {
      QuietEmpties(q, seen, ch, f);
    } else if Saving(q.pc) {
      SaveEmpties(q, codec, ch, f);
    } else if q.pc.ResetCommand? || q.pc.ResetUrl? || SettingUp(q.pc) {
      SetupEmpties(q, seen, ch, f);
    } else {
      LockedEmpties(q, seen, ch, f);
    }
  }

  lemma MovedDir(s0: State, s: State, pid: Pid, f: Facts, m: Move)
    requires pid in s.procs && DirAlone(s0, s, pid, f)
    requires Fits(s.procs[pid], m) && Empties(s.procs[pid], m, f)
    requires m.effect.ResetDir? ==> !Saved(s.procs[pid].pc) && !Saved(m.q.pc)
    ensures DirAlone(s0, Moved(s, pid, m), pid, f)
  {
    if m.effect.Publish? {
    } else if Saved(s.procs[pid].pc) {
    } else {
    }
  }

  lemma StepDir(s0: State, s: State, pid: Pid, f: Facts, ch: Choice)
    requires Alone(s0, s, pid, f) && DirAlone(s0, s, pid, f)
    requires ch.ok && ch.mark == f.mark && Apply(s, Step(pid, ch)).Some?
    ensures var t := Apply(s, Step(pid, ch)).value; pid in t.procs && DirAlone(s0, t, pid, f)
  {
    var q := s.procs[pid];
    var m := Next(q, s.codec, SeenBy(s, q), ch).value;
    NextEmpties(q, s.codec, SeenBy(s, q), ch, f);
    NextFits(q, s.codec, SeenBy(s, q), ch, f);
    ResetsUnsaved(q, s.codec, SeenBy(s, q), ch);
    MovedDir(s0, s, pid, f, m);
  }

  lemma ResetsUnsaved(q: Proc, codec: Codec, seen: Seen, ch: Choice)
    requires Next(q, codec, seen, ch).Some?
    ensures Next(q, codec, seen, ch).value.effect.ResetDir? ==> !Saved(q.pc) && !Saved(Next(q, codec, seen, ch).value.q.pc)
  {
  }

  // ---------- whole runs ----------

  /** Successful steps of one process, whose checks return `mark`. */
  predicate OwnSteps(events: seq<Event>, pid: Pid, mark: string) {
    forall i :: 0 <= i < |events| ==>
      events[i].Step? && events[i].pid == pid && events[i].choice.ok && events[i].choice.mark == mark
  }

  lemma {:induction false} RunAlone(s0: State, events: seq<Event>, pid: Pid, f: Facts)
    requires Run(s0, events).Some? && OwnSteps(events, pid, f.mark) && Alone(s0, s0, pid, f) && DirAlone(s0, s0, pid, f)
    ensures Alone(s0, Run(s0, events).value, pid, f) && DirAlone(s0, Run(s0, events).value, pid, f)
  {
    if events != [] {
      var n := |events| - 1;
      RunAlone(s0, events[..n], pid, f);
      StepDir(s0, Run(s0, events[..n]).value, pid, f, events[n].choice);
      StepAlone(s0, Run(s0, events[..n]).value, pid, f, events[n].choice);
    }
  }

  /** Only processes have exited. */
  lemma {:induction false} ExitsAreOfProcesses(command: bool, clock: int, present: bool, events: seq<Event>)
    requires Run(Init(command, clock, present), events).Some?
    ensures var s := Run(Init(command, clock, present), events).value; s.zeroExits <= s.procs.Keys
  {
    if events != [] {
      ExitsAreOfProcesses(command, clock, present, events[..|events| - 1]);
      var s := Run(Init(command, clock, present), events[..|events| - 1]).value;
      if MoveOf(s, events[|events| - 1]).Some? {
        assert events[|events| - 1].pid in s.procs;
      }
    }
  }

  /** A new process on a slot that nobody holds. */
  lemma BeginsAlone(s: State, pid: Pid, p: Project, o: Options, f: Facts)
    requires s.lock.None? && s.zeroExits <= s.procs.Keys && Apply(s, Start(pid, p, o)).Some?
    requires f == Facts(Loaded(s, p.identity), s.clock, s.present, f.mark)
    ensures var t := Apply(s, Start(pid, p, o)).value;
      Alone(t, t, pid, f) && DirAlone(t, t, pid, f) && t.log == s.log && t.record == s.record && t.work == s.work
  {
  }

  /** What a run of `p` alone has come to, when it is over: nothing happens unless the project is
      due. Then an inspection reports the work that is pending; an unchanged check moves the time
      of the check and nothing else; an adopt records what there is; and otherwise setup has run,
      and is recorded with the marker of the check. */
  ghost predicate Came(s: State, pid: Pid, p: Project, o: Options, mark: string, t: State) {
    && pid in t.procs && t.lock.None?
    && var rc, c, now := t.procs[pid].pc, Loaded(s, p.identity), s.clock;
    var due := IsDue(p, c, now, o.force, true, s.present).due;
    var work := p.command || (p.binCached && !s.present) || !c.known || c.mark != mark;
    var renewed := Cache(c.identity, if p.command then c.mark else mark, now, now, c.known);
    if !due then
      && t.log == s.log && t.record == s.record && pid !in t.zeroExits
      && rc == Done(if p.binCached && !o.verbose && !o.checkOnly && !o.dryRun && !o.adopt then Executed else Skipped)
    else if !work then
      && rc == Done(Ok) && pid !in t.zeroExits
      && t.log == s.log + [Save(pid, c.(lastCheck := now), CheckUnchanged, !o.checkOnly && !o.dryRun)]
    else if o.checkOnly || o.dryRun then
      rc == Done(Pending) && t.log == s.log && t.record == s.record && pid !in t.zeroExits
    else if o.adopt then
      rc == Done(Ok) && t.log == s.log + [Save(pid, renewed, Adopted, true)] && pid !in t.zeroExits
    else
      rc == Done(Ok) && t.log == s.log + [Save(pid, renewed, SetupExitedZero, true)] && pid in t.zeroExits
  }

  /** Only a setup empties the directory, and an embedded project whose record is known is set up in
      what there is. */
  predicate Kept(s: State, pid: Pid, p: Project, t: State) {
    t.work.wrote == if pid in t.zeroExits && !(p.command && Loaded(s, p.identity).known) then {} else s.work.wrote
  }

  lemma LoadedIdentity(s: State, identity: string)
    requires Lawful(s.codec) && |identity| <= IDENTITY_MAX && NUL !in identity
    ensures Loaded(s, identity).identity == identity
  {
    LoadedSound(s, identity);
  }

  lemma CameTrue(s: State, s0: State, t: State, pid: Pid, p: Project, o: Options, f: Facts)
    requires Alone(s0, t, pid, f) && DirAlone(s0, t, pid, f) && t.procs[pid].pc.Done?
    requires s0.log == s.log && s0.record == s.record && s0.work == s.work
    requires t.procs[pid].p == p && t.procs[pid].o == o
    requires f == Facts(Loaded(s, p.identity), s.clock, s.present, f.mark)
    ensures Came(s, pid, p, o, f.mark, t) && Kept(s, pid, p, t)
  {
    var q := t.procs[pid];
    if Saved(q.pc) {
      var w := t.log[|s.log|];
      assert t.log == s.log + [w];
      match w.why
      case CheckUnchanged =>
      case SetupExitedZero =>
      case Adopted =>
    }
  }

  /** A run of one process, alone and with nothing going wrong, from any reachable slot that nobody
      holds. */
  lemma {:induction false} AloneComesTo(command: bool, clock: int, present: bool, events: seq<Event>,
                                        pid: Pid, p: Project, o: Options, own: seq<Event>, mark: string)
    requires 0 <= clock < TWO_63 && Run(Init(command, clock, present), events).Some?
    requires var s := Run(Init(command, clock, present), events).value;
      && s.lock.None? && Apply(s, Start(pid, p, o)).Some?
      && var s1 := Apply(s, Start(pid, p, o)).value;
      && OwnSteps(own, pid, mark) && Run(s1, own).Some?
      && pid in Run(s1, own).value.procs && Run(s1, own).value.procs[pid].pc.Done?
    ensures var s := Run(Init(command, clock, present), events).value;
      var t := Run(Apply(s, Start(pid, p, o)).value, own).value;
      Came(s, pid, p, o, mark, t) && Kept(s, pid, p, t)
  {
    var s := Run(Init(command, clock, present), events).value;
    var s1 := Apply(s, Start(pid, p, o)).value;
    var f := Facts(Loaded(s, p.identity), s.clock, s.present, mark);
    ExitsAreOfProcesses(command, clock, present, events);
    BeginsAlone(s, pid, p, o, f);
    RunAlone(s1, own, pid, f);
    CameTrue(s, s1, Run(s1, own).value, pid, p, o, f);
  }

  // ---------- and it comes to that ----------

  function Left(q: Proc, codec: Codec): nat {
    match q.pc
    case LoadQuiet => 30
    case ClockQuiet => 29
    case DecideQuiet => 28
    case TryExec => 27
    case AfterExec => 26
    case WaitLock => 25
    case LoadLocked => 24
    case ClockLocked => 23
    case DecideLocked => 22
    case Dispatch => 21
    case Check => 20
    case Compare => 19
    case ResetCommand => 18
    case ClearCommand => 17
    case Materialize => 16
    case RunCommand => 15
    case ResetUrl => 14
    case ClearUrl => 13
    case StartInstall => 12
    case Install => 11
    case OpenTmp(_, _) => 10
    case WriteTmp(c, _, written) => if written < |codec.format(c)| then 9 else 8
    case RenameTmp(_, _) => 7
    case Unlock(_) => 6
    case _ => 0
  }

  /** All that is left to write at once. */
  function Whole(q: Proc, codec: Codec, mark: string): Choice {
    Choice(true, mark, if q.pc.WriteTmp? && q.pc.written < |codec.format(q.pc.c)|
                       then |codec.format(q.pc.c)| - q.pc.written else 1)
  }

  /** The process as Next sees it makes progress. */
  predicate Goes(q: Proc, codec: Codec, m: Option<Move>) {
    m.Some? && Left(m.value.q, codec) < Left(q, codec)
  }

  lemma QuietGoes(q: Proc, codec: Codec, seen: Seen, f: Facts)
    requires OnWay(q, f) && !q.pc.Done? && !Critical(q.pc)
    requires Plain(q, seen, Whole(q, codec, f.mark), f) && (q.pc.WaitLock? ==> seen.free)
    ensures Goes(q, codec, QuietNext(q, seen, Whole(q, codec, f.mark)))
  {
    match q.pc
    case DecideQuiet =>
      if IsDue(q.p, q.cache, q.now, q.o.force, !ExecCheck(q), seen.present).due {} else {}
    case _ =>
  }

  lemma LockedGoes(q: Proc, codec: Codec, seen: Seen, f: Facts)
    requires OnWay(q, f) && Critical(q.pc) && ValidMark(f.mark) && Plain(q, seen, Whole(q, codec, f.mark), f)
    requires !Saving(q.pc) && !q.pc.ResetCommand? && !q.pc.ResetUrl? && !SettingUp(q.pc)
    ensures Goes(q, codec, LockedNext(q, seen, Whole(q, codec, f.mark)))
  {
  }

  lemma SetupGoes(q: Proc, codec: Codec, seen: Seen, ch: Choice)
    requires ch.ok && !Saving(q.pc) && (q.pc.ResetCommand? || q.pc.ResetUrl? || SettingUp(q.pc))
    ensures Goes(q, codec, SetupNext(q, seen, ch))
  {
  }

  lemma SaveGoes(q: Proc, codec: Codec, command: bool, v: View, mark: string)
    requires ViewOk(codec, command, v) && v.q == q && Saving(q.pc)
    ensures Goes(q, codec, SaveNext(q, codec, Whole(q, codec, mark)))
  {
  }

  lemma NextGoes(q: Proc, codec: Codec, command: bool, v: View, seen: Seen, f: Facts)
    requires ViewOk(codec, command, v) && v.q == q && OnWay(q, f) && !q.pc.Done? && ValidMark(f.mark)
    requires Plain(q, seen, Whole(q, codec, f.mark), f) && (q.pc.WaitLock? ==> seen.free)
    ensures Goes(q, codec, Next(q, codec, seen, Whole(q, codec, f.mark)))
  {
    if !Critical(q.pc) {
      QuietGoes(q, codec, seen, f);
    } else if Saving(q.pc) {
      SaveGoes(q, codec, command, v, f.mark);
    } else if q.pc.ResetCommand? || q.pc.ResetUrl? || SettingUp(q.pc) {
      SetupGoes(q, codec, seen, Whole(q, codec, f.mark));
    } else {
      LockedGoes(q, codec, seen, f);
    }
  }

  lemma StepGoes(s0: State, s: State, pid: Pid, f: Facts)
    requires Safe(s) && Alone(s0, s, pid, f) && !s.procs[pid].pc.Done? && ValidMark(f.mark)
    ensures var e := Step(pid, Whole(s.procs[pid], s.codec, f.mark));
      && Apply(s, e).Some? && pid in Apply(s, e).value.procs && Apply(s, e).value.codec == s.codec
      && Left(Apply(s, e).value.procs[pid], s.codec) < Left(s.procs[pid], s.codec)
  {
    var q := s.procs[pid];
    assert ViewOk(s.codec, s.command, ViewOf(s, pid));
    NextGoes(q, s.codec, s.command, ViewOf(s, pid), SeenBy(s, q), f);
  }

  /** On the way since `s0`, by these steps of its own. */
  ghost predicate Underway(s0: State, s: State, own: seq<Event>, pid: Pid, f: Facts) {
    && Lawful(s.codec) && Safe(s) && Alone(s0, s, pid, f)
    && Run(s0, own) == Some(s) && OwnSteps(own, pid, f.mark)
  }

  lemma OneStepOn(s0: State, s: State, own: seq<Event>, pid: Pid, f: Facts) returns (more: seq<Event>, t: State)
    requires Underway(s0, s, own, pid, f) && !s.procs[pid].pc.Done? && ValidMark(f.mark)
    ensures Underway(s0, t, more, pid, f) && t.codec == s.codec
    ensures Left(t.procs[pid], s.codec) < Left(s.procs[pid], s.codec)
  {
    var e := Step(pid, Whole(s.procs[pid], s.codec, f.mark));
    StepGoes(s0, s, pid, f);
    more, t := own + [e], Apply(s, e).value;
    StepAlone(s0, s, pid, f, e.choice);
    ApplyKeeps(s, e);
    OneMoreOwn(s0, s, own, e, pid, f.mark);
  }

  lemma {:induction false} OneMoreOwn(s0: State, s: State, own: seq<Event>, e: Event, pid: Pid, mark: string)
    requires Run(s0, own) == Some(s) && OwnSteps(own, pid, mark) && Apply(s, e).Some?
    requires e.Step? && e.pid == pid && e.choice.ok && e.choice.mark == mark
    ensures Run(s0, own + [e]) == Apply(s, e) && OwnSteps(own + [e], pid, mark)
  {
    assert (own + [e])[..|own|] == own;
  }

  lemma {:induction false} GetsThere(s0: State, s: State, own: seq<Event>, pid: Pid, f: Facts)
    returns (longer: seq<Event>, t: State)
    requires Underway(s0, s, own, pid, f) && ValidMark(f.mark)
    ensures Underway(s0, t, longer, pid, f) && t.procs[pid].pc.Done?
    decreases if pid in s.procs then Left(s.procs[pid], s.codec) else 0
  {
    if s.procs[pid].pc.Done? {
      longer, t := own, s;
    } else {
      longer, t := OneStepOn(s0, s, own, pid, f);
      longer, t := GetsThere(s0, t, longer, pid, f);
    }
  }

  /** Whatever has happened on the slot before, as long as nobody holds it: a process that is
      started and left alone, with nothing going wrong, comes to the end that the record, the
      clock, the program and the marker call for. */
  lemma {:induction false} AloneComesThrough(command: bool, clock: int, present: bool, events: seq<Event>,
                                             pid: Pid, p: Project, o: Options, mark: string)
    returns (own: seq<Event>)
    requires 0 <= clock < TWO_63 && Run(Init(command, clock, present), events).Some? && ValidMark(mark)
    requires var s := Run(Init(command, clock, present), events).value;
      s.lock.None? && Apply(s, Start(pid, p, o)).Some?
    ensures var s := Run(Init(command, clock, present), events).value;
      var s1 := Apply(s, Start(pid, p, o)).value;
      && OwnSteps(own, pid, mark) && Run(s1, own).Some?
      && Came(s, pid, p, o, mark, Run(s1, own).value) && Kept(s, pid, p, Run(s1, own).value)
  {
    var s := Run(Init(command, clock, present), events).value;
    var s1 := Apply(s, Start(pid, p, o)).value;
    var f := Facts(Loaded(s, p.identity), s.clock, s.present, mark);
    RealCodecIsLawful();
    AlwaysSafe(command, clock, present, events);
    ApplyKeeps(s, Start(pid, p, o));
    ExitsAreOfProcesses(command, clock, present, events);
    BeginsAlone(s, pid, p, o, f);
    var t;
    own, t := GetsThere(s1, s1, [], pid, f);
    AloneComesTo(command, clock, present, events, pid, p, o, own, mark);
  }

  // ---------- unchanged checks and the program ----------

  /** At this event `pid` turned to writing the record, while the program was there. */
  ghost predicate SawProgram(s0: State, events: seq<Event>, k: nat, pid: Pid) {
    && k < |events| && events[k].Step? && events[k].pid == pid
    && Run(s0, events[..k]).Some? && Run(s0, events[..k + 1]).Some?
    && var s, t := Run(s0, events[..k]).value, Run(s0, events[..k + 1]).value;
    && pid in s.procs && pid in t.procs && !Saving(s.procs[pid].pc) && Saving(t.procs[pid].pc) && s.present
  }

  ghost predicate Witnessed(s0: State, events: seq<Event>, pid: Pid) {
    exists k :: 0 <= k < |events| && SawProgram(s0, events, k, pid)
  }

  lemma WitnessStays(s0: State, events: seq<Event>, e: Event, pid: Pid)
    requires Witnessed(s0, events, pid)
    ensures Witnessed(s0, events + [e], pid)
  {
    var k :| 0 <= k < |events| && SawProgram(s0, events, k, pid);
    var more := events + [e];
    assert more[..k] == events[..k] && more[..k + 1] == events[..k + 1];
    assert SawProgram(s0, more, k, pid);
  }

  /** About to record an unchanged check of a project whose program lies in the work directory. */
  predicate Unchanged(q: Proc) {
    Saving(q.pc) && q.pc.why.CheckUnchanged? && q.p.binCached
  }

  ghost predicate AllWitnessed(s0: State, events: seq<Event>, s: State) {
    && (forall pid :: pid in s.procs && Unchanged(s.procs[pid]) ==> Witnessed(s0, events, pid))
    && (forall i :: 0 <= i < |s.log| && s.log[i].why.CheckUnchanged? ==>
          s.log[i].pid in s.procs && (s.procs[s.log[i].pid].p.binCached ==> Witnessed(s0, events, s.log[i].pid)))
  }

  lemma TurnsUnchanged(q: Proc, codec: Codec, seen: Seen, ch: Choice)
    requires Next(q, codec, seen, ch).Some?
    ensures var m := Next(q, codec, seen, ch).value;
      && m.q.p == q.p
      && (Unchanged(m.q) && !Unchanged(q) ==> !Saving(q.pc) && seen.present)
      && (m.effect.Publish? && m.effect.why.CheckUnchanged? && q.p.binCached ==> Unchanged(q))
  {
  }

  lemma {:induction false} StepWitnessed(s0: State, events: seq<Event>, s: State, e: Event)
    requires Run(s0, events) == Some(s) && e.Step? && Apply(s, e).Some?
    requires Unchanged(Apply(s, e).value.procs[e.pid]) && !Unchanged(s.procs[e.pid])
    ensures Witnessed(s0, events + [e], e.pid)
  {
    var q := s.procs[e.pid];
    TurnsUnchanged(q, s.codec, SeenBy(s, q), e.choice);
    var more := events + [e];
    assert more[..|events|] == events && more[..|events| + 1] == more;
    assert SawProgram(s0, more, |events|, e.pid);
  }

  lemma {:induction false} EventWitnessed(s0: State, events: seq<Event>, s: State, e: Event)
    requires Run(s0, events) == Some(s) && AllWitnessed(s0, events, s) && Apply(s, e).Some?
    ensures AllWitnessed(s0, events + [e], Apply(s, e).value)
  {
    forall pid | Witnessed(s0, events, pid)
      ensures Witnessed(s0, events + [e], pid)
    {
      WitnessStays(s0, events, e, pid);
    }
    if e.Step? {
      StepAllWitnessed(s0, events, s, e);
    } else {
      OtherUnchanged(s, e);
    }
  }

  /** A step changes one process, and logs at most one write of it. */
  predicate OneStep(s: State, t: State, pid: Pid) {
    && pid in s.procs && pid in t.procs && t.procs == s.procs[pid := t.procs[pid]] && t.procs[pid].p == s.procs[pid].p
    && (t.log == s.log
        || (|t.log| == |s.log| + 1 && s.log == t.log[..|s.log|] && t.log[|s.log|].pid == pid
            && (t.log[|s.log|].why.CheckUnchanged? && s.procs[pid].p.binCached ==> Unchanged(s.procs[pid]))))
  }

  lemma StepIsOne(s: State, pid: Pid, ch: Choice)
    requires Apply(s, Step(pid, ch)).Some?
    ensures OneStep(s, Apply(s, Step(pid, ch)).value, pid)
  {
    var q := s.procs[pid];
    TurnsUnchanged(q, s.codec, SeenBy(s, q), ch);
    MovedRecord(s, pid, Next(q, s.codec, SeenBy(s, q), ch).value);
  }

  lemma {:induction false} StepAllWitnessed(s0: State, events: seq<Event>, s: State, e: Event)
    requires Run(s0, events) == Some(s) && AllWitnessed(s0, events, s) && e.Step? && Apply(s, e).Some?
    requires forall pid :: Witnessed(s0, events, pid) ==> Witnessed(s0, events + [e], pid)
    ensures AllWitnessed(s0, events + [e], Apply(s, e).value)
  {
    var t := Apply(s, e).value;
    StepIsOne(s, e.pid, e.choice);
    if Unchanged(t.procs[e.pid]) && !Unchanged(s.procs[e.pid]) {
      StepWitnessed(s0, events, s, e);
    }
    OneStepWitnessed(s0, events, s, events + [e], t, e.pid);
  }

  lemma OneStepWitnessed(s0: State, events: seq<Event>, s: State, more: seq<Event>, t: State, pid: Pid)
    requires AllWitnessed(s0, events, s) && OneStep(s, t, pid)
    requires forall other :: Witnessed(s0, events, other) ==> Witnessed(s0, more, other)
    requires Unchanged(t.procs[pid]) ==> Unchanged(s.procs[pid]) || Witnessed(s0, more, pid)
    ensures AllWitnessed(s0, more, t)
  {
    assert t.log != s.log ==> forall i :: 0 <= i < |s.log| ==> t.log[i] == s.log[i];
  }

  lemma OtherUnchanged(s: State, e: Event)
    requires Apply(s, e).Some? && !e.Step?
    ensures var t := Apply(s, e).value;
      && t.log == s.log
      && (forall pid :: pid in s.procs ==> pid in t.procs && t.procs[pid].p == s.procs[pid].p)
      && (forall pid :: pid in t.procs && Unchanged(t.procs[pid]) ==> pid in s.procs && Unchanged(s.procs[pid]))
  {
    match e
    case Crash(_, _) => MovedRecord(s, e.pid, MoveOf(s, e).value);
    case SetupWrite(_) => MovedRecord(s, e.pid, MoveOf(s, e).value);
    case Start(_, _, _) =>
    case _ => OutsideLeavesProcesses(s, e);
  }

  lemma {:induction false} RunWitnessed(command: bool, clock: int, present: bool, events: seq<Event>)
    requires Run(Init(command, clock, present), events).Some?
    ensures AllWitnessed(Init(command, clock, present), events, Run(Init(command, clock, present), events).value)
  {
    var s0 := Init(command, clock, present);
    if events != [] {
      var n := |events| - 1;
      var before := events[..n];
      assert before + [events[n]] == events;
      RunWitnessed(command, clock, present, before);
      EventWitnessed(s0, before, Run(s0, before).value, events[n]);
    }
  }

  /** In every run, an unchanged check of a project whose program lies in the work directory is
      recorded only by a process that saw the program there when it turned to the record. */
  lemma {:induction false} UnchangedMeansPresent(command: bool, clock: int, present: bool, events: seq<Event>, i: nat)
    requires 0 <= clock < TWO_63 && Run(Init(command, clock, present), events).Some?
    requires var s := Run(Init(command, clock, present), events).value;
      && i < |s.log| && s.log[i].why.CheckUnchanged?
      && s.log[i].pid in s.procs && s.procs[s.log[i].pid].p.binCached
    ensures var s := Run(Init(command, clock, present), events).value;
      exists k :: 0 <= k < |events| && SawProgram(Init(command, clock, present), events, k, s.log[i].pid)
  {
    RunWitnessed(command, clock, present, events);
    assert Witnessed(Init(command, clock, present), events, Run(Init(command, clock, present), events).value.log[i].pid);
  }
}
