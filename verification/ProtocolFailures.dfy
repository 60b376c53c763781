/** What a failed operation does to a process and to its slot: it ends in `Failed`, records nothing and
    leaves no temporary file behind. */
module ProtocolFailures {
  import opened Text
  import opened CacheRecord
  import opened Schedule
  import opened Wrappers
  import opened Protocol

  /** The process is about to do something that can fail and whose failure ends it: read the record,
      wait for the lock, ask the server, empty the directory, write a script, run a setup, or create,
      write or rename the temporary file. */
  predicate Fallible(q: Proc, codec: Codec) {
    match q.pc
    case LoadQuiet => true
    case WaitLock => true
    case LoadLocked => true
    case Check => true
    case ResetCommand => true
    case ClearCommand => true
    case Materialize => q.p.embedded
    case RunCommand => true
    case ResetUrl => true
    case ClearUrl => true
    case StartInstall => true
    case Install => true
    case OpenTmp(_, _) => true
    case WriteTmp(c, _, written) => written < |codec.format(c)|
    case RenameTmp(_, _) => true
    case _ => false
  }

  /** Where a failure leads: before it has won the lock a process ends at once. */
  predicate BeforeLock(pc: Pc) {
    pc == LoadQuiet || pc == WaitLock
  }

  predicate FailsNow(s: State, e: Event) {
    e.Step? && !e.choice.ok && e.pid in s.procs && Fallible(s.procs[e.pid], s.codec)
  }

  /** What the failed step is for the process: the temporary file, if there is one, is dropped. */
  predicate Ends(q: Proc, m: Option<Move>) {
    && m.Some? && m.value.q == q.(pc := if BeforeLock(q.pc) then Done(Failed) else Unlock(Failed))
    && (m.value.effect.Nothing? || m.value.effect.GiveUp?)
    && (m.value.effect.GiveUp? && m.value.effect.dropTmp <==> q.pc.WriteTmp? || q.pc.RenameTmp?)
  }

  lemma QuietFails(q: Proc, codec: Codec, seen: Seen, ch: Choice)
    requires Fallible(q, codec) && !ch.ok && !Critical(q.pc)
    ensures Ends(q, QuietNext(q, seen, ch))
  {
  }

  lemma LockedFails(q: Proc, codec: Codec, seen: Seen, ch: Choice)
    requires q.pc.LoadLocked? || q.pc.Check?
    requires !ch.ok
    ensures Ends(q, LockedNext(q, seen, ch))
  {
  }

  lemma SetupFails(q: Proc, codec: Codec, seen: Seen, ch: Choice)
    requires Fallible(q, codec) && !ch.ok && !Saving(q.pc) && (q.pc.ResetCommand? || q.pc.ResetUrl? || SettingUp(q.pc))
    ensures Ends(q, SetupNext(q, seen, ch))
  {
  }

  lemma SaveFails(q: Proc, codec: Codec, ch: Choice)
    requires Fallible(q, codec) && !ch.ok && Saving(q.pc)
    ensures Ends(q, SaveNext(q, codec, ch))
  {
  }

  lemma NextFails(q: Proc, codec: Codec, seen: Seen, ch: Choice)
    requires Fallible(q, codec) && !ch.ok
    ensures Ends(q, Next(q, codec, seen, ch))
  {
    if !Critical(q.pc) {
      QuietFails(q, codec, seen, ch);
    } else if Saving(q.pc) {
      SaveFails(q, codec, ch);
    } else if q.pc.ResetCommand? || q.pc.ResetUrl? || SettingUp(q.pc) {
      SetupFails(q, codec, seen, ch);
    } else {
      LockedFails(q, codec, seen, ch);
    }
  }

  /** A failed operation gives up what was begun and writes no record. */
  lemma FailureMeans(s: State, e: Event)
    requires FailsNow(s, e)
    ensures Apply(s, e).Some?
    ensures var t := Apply(s, e).value; var q := s.procs[e.pid];
      && t.procs == s.procs[e.pid := q.(pc := if BeforeLock(q.pc) then Done(Failed) else Unlock(Failed))]
      && t.record == s.record && t.log == s.log && t.lock == s.lock && t.zeroExits == s.zeroExits
      && t.tmps == (if q.pc.WriteTmp? || q.pc.RenameTmp? then s.tmps - {e.pid} else s.tmps)
  {
    NextFails(s.procs[e.pid], s.codec, SeenBy(s, s.procs[e.pid]), e.choice);
  }

  // ---------- over a whole run ----------

  /** A process that has failed, whatever happens next. */
  predicate Lost(s: State, pid: Pid) {
    pid in s.procs && (s.procs[pid].pc == Unlock(Failed) || s.procs[pid].pc == Done(Failed) || s.procs[pid].pc == Crashed)
  }

  lemma LostStays(s: State, e: Event, pid: Pid)
    requires Lost(s, pid) && Apply(s, e).Some?
    ensures var t := Apply(s, e).value; Lost(t, pid) && (pid !in s.tmps ==> pid !in t.tmps)
    ensures var t := Apply(s, e).value; t.log == s.log || (|t.log| == |s.log| + 1 && s.log <= t.log && t.log[|s.log|].pid != pid)
  {
    match e
    case Step(p, ch) =>
      if p == pid {} else {}
    case Crash(p, _) =>
    case SetupWrite(p) =>
    case _ =>
  }

  /** Only a process that is writing its record, or has died, has a temporary file; only one that has
      come through, or has died since, has written a record. */
  ghost predicate Tidy(s: State) {
    && (forall pid :: pid in s.tmps ==>
         (pid in s.procs && (s.procs[pid].pc.WriteTmp? || s.procs[pid].pc.RenameTmp? || s.procs[pid].pc == Crashed)))
    && (forall i :: 0 <= i < |s.log| ==> Through(s, s.log[i].pid))
  }

  predicate Through(s: State, pid: Pid) {
    pid in s.procs && (s.procs[pid].pc == Unlock(Ok) || s.procs[pid].pc == Done(Ok) || s.procs[pid].pc == Crashed)
  }

  lemma ThroughStays(s: State, e: Event, pid: Pid)
    requires Through(s, pid) && Apply(s, e).Some?
    ensures Through(Apply(s, e).value, pid)
  {
    match e
    case Step(p, ch) =>
      if p == pid {} else {}
    case Crash(p, _) =>
    case SetupWrite(p) =>
    case _ =>
  }

  lemma NewSave(s: State, e: Event)
    requires Apply(s, e).Some? && Apply(s, e).value.log != s.log
    ensures var t := Apply(s, e).value; |t.log| == |s.log| + 1 && s.log <= t.log && Through(t, t.log[|s.log|].pid)
  {
    match e
    case Step(p, ch) =>
      var m := Next(s.procs[p], s.codec, SeenBy(s, s.procs[p]), ch).value;
      PublishesLast(s.procs[p], s.codec, SeenBy(s, s.procs[p]), ch);
    case Crash(p, _) =>
    case SetupWrite(p) =>
    case _ =>
  }

  lemma PublishesLast(q: Proc, codec: Codec, seen: Seen, ch: Choice)
    requires Next(q, codec, seen, ch).Some?
    ensures Next(q, codec, seen, ch).value.effect.Publish? ==> Next(q, codec, seen, ch).value.q.pc == Unlock(Ok)
  {
  }

  /** What becomes of the temporary file of the process that moves. */
  predicate Drops(q: Proc, m: Move) {
    && (m.effect.CreateTmp? || m.effect.AppendTmp? ==> m.q.pc.WriteTmp?)
    && (q.pc.WriteTmp? || q.pc.RenameTmp? ==>
         m.q.pc.WriteTmp? || m.q.pc.RenameTmp? || m.effect.Publish? || (m.effect.GiveUp? && m.effect.dropTmp))
  }

  lemma NextDrops(q: Proc, codec: Codec, seen: Seen, ch: Choice)
    requires Next(q, codec, seen, ch).Some?
    ensures Drops(q, Next(q, codec, seen, ch).value)
  {
    if !Critical(q.pc) {
      QuietDrops(q, codec, seen, ch);
    } else if Saving(q.pc) {
    } else if q.pc.ResetCommand? || q.pc.ResetUrl? || SettingUp(q.pc) {
    } else {
    }
  }

  lemma QuietDrops(q: Proc, codec: Codec, seen: Seen, ch: Choice)
    requires QuietNext(q, seen, ch).Some?
    ensures Drops(q, QuietNext(q, seen, ch).value)
  {
  }

  lemma TmpsStay(s: State, e: Event, pid: Pid)
    requires Tidy(s) && Apply(s, e).Some? && pid in Apply(s, e).value.tmps
    ensures var t := Apply(s, e).value;
      pid in t.procs && (t.procs[pid].pc.WriteTmp? || t.procs[pid].pc.RenameTmp? || t.procs[pid].pc == Crashed)
  {
    match e
    case Step(p, ch) => NextDrops(s.procs[p], s.codec, SeenBy(s, s.procs[p]), ch);
    case Crash(p, _) =>
    case SetupWrite(p) =>
    case _ =>
  }

  lemma TidyStep(s: State, e: Event)
    requires Tidy(s) && Apply(s, e).Some?
    ensures Tidy(Apply(s, e).value)
  {
    var t := Apply(s, e).value;
    forall pid | pid in t.tmps
      ensures pid in t.procs && (t.procs[pid].pc.WriteTmp? || t.procs[pid].pc.RenameTmp? || t.procs[pid].pc == Crashed)
    {
      TmpsStay(s, e, pid);
    }
    if t.log != s.log {
      NewSave(s, e);
    }
    forall i | 0 <= i < |t.log| ensures Through(t, t.log[i].pid) {
      if i < |s.log| {
        ThroughStays(s, e, s.log[i].pid);
      }
    }
  }

  /** Over every run, no process that is still there or has ended has left a temporary file behind,
      and whoever has written a record goes on to end in `Ok`. */
  lemma {:induction false} NoLitter(command: bool, clock: int, present: bool, events: seq<Event>)
    requires Run(Init(command, clock, present), events).Some?
    ensures Tidy(Run(Init(command, clock, present), events).value)
  {
    if events != [] {
      NoLitter(command, clock, present, events[..|events| - 1]);
      TidyStep(Run(Init(command, clock, present), events[..|events| - 1]).value, events[|events| - 1]);
    }
  }

  /** ... and has written no record, and has no temporary file. */
  ghost predicate Vain(s: State, pid: Pid) {
    Lost(s, pid) && pid !in s.tmps && forall i :: 0 <= i < |s.log| ==> s.log[i].pid != pid
  }

  lemma FailsInVain(s: State, e: Event)
    requires Tidy(s) && FailsNow(s, e)
    ensures Apply(s, e).Some? && Vain(Apply(s, e).value, e.pid)
  {
    FailureMeans(s, e);
    assert e.pid in s.tmps ==> s.procs[e.pid].pc.WriteTmp? || s.procs[e.pid].pc.RenameTmp?;
    assert !Through(s, e.pid);
  }

  lemma VainStays(s: State, e: Event, pid: Pid)
    requires Vain(s, pid) && Apply(s, e).Some?
    ensures Vain(Apply(s, e).value, pid)
  {
    LostStays(s, e, pid);
  }

  lemma {:induction false} LostFrom(command: bool, clock: int, present: bool, events: seq<Event>, k: nat)
    requires k < |events| && Run(Init(command, clock, present), events).Some?
    requires Run(Init(command, clock, present), events[..k]).Some?
    requires FailsNow(Run(Init(command, clock, present), events[..k]).value, events[k])
    ensures Vain(Run(Init(command, clock, present), events).value, events[k].pid)
  {
    var s0 := Init(command, clock, present);
    var before, e := events[..|events| - 1], events[|events| - 1];
    var s := Run(s0, before).value;
    if k == |before| {
      NoLitter(command, clock, present, before);
      FailsInVain(s, e);
    } else {
      assert before[..k] == events[..k];
      LostFrom(command, clock, present, before, k);
      VainStays(s, e, events[k].pid);
    }
  }

  /** Whatever happens on the slot before and after: a process one of whose operations has failed
      never writes a record, leaves no temporary file and ends in `Failed`, unless it dies. */
  lemma {:induction false} FailedWritesNothing(command: bool, clock: int, present: bool, events: seq<Event>, k: nat)
    requires k < |events| && Run(Init(command, clock, present), events).Some?
    requires Run(Init(command, clock, present), events[..k]).Some?
    requires FailsNow(Run(Init(command, clock, present), events[..k]).value, events[k])
    ensures var s := Run(Init(command, clock, present), events).value; var pid := events[k].pid;
      && pid in s.procs && s.procs[pid].pc in {Unlock(Failed), Done(Failed), Crashed}
      && pid !in s.tmps && forall i :: 0 <= i < |s.log| ==> s.log[i].pid != pid
  {
    LostFrom(command, clock, present, events, k);
  }

  // ---------- a handoff that fails ----------

  /** Event `k` of the run is a step of `pid` at this point, with the program there or not. */
  ghost predicate StepsFrom(s0: State, events: seq<Event>, k: int, pid: Pid, pc: Pc, present: bool) {
    && 0 <= k < |events| && events[k].Step? && events[k].pid == pid && Run(s0, events[..k]).Some?
    && var s := Run(s0, events[..k]).value; pid in s.procs && s.procs[pid].pc == pc && s.present == present
  }

  /** Event `k` is an exec of the program that succeeds. */
  ghost predicate Execs(s0: State, events: seq<Event>, k: int, pid: Pid) {
    StepsFrom(s0, events, k, pid, TryExec, true) && events[k].choice.ok
  }

  predicate StepsNow(s: State, e: Event, pid: Pid, pc: Pc, present: bool) {
    e.Step? && e.pid == pid && pid in s.procs && s.procs[pid].pc == pc && s.present == present
  }

  predicate At(s: State, pid: Pid, pc: Pc) {
    pid in s.procs && s.procs[pid].pc == pc
  }

  /** No process gives up the lock to report the outcome of an exec. */
  predicate Silent(s: State, pid: Pid) {
    !At(s, pid, Unlock(Executed)) && !At(s, pid, Unlock(CannotExecute))
  }

  lemma LateSteps(q: Proc, codec: Codec, seen: Seen, ch: Choice)
    requires Critical(q.pc) && q.pc != Unlock(Executed) && q.pc != Unlock(CannotExecute)
    requires Next(q, codec, seen, ch).Some?
    ensures var pc := Next(q, codec, seen, ch).value.q.pc;
      && pc != Done(Executed) && pc != Done(CannotExecute) && pc != Unlock(Executed) && pc != Unlock(CannotExecute)
  {
  }

  lemma EarlySteps(q: Proc, codec: Codec, seen: Seen, ch: Choice)
    requires !Critical(q.pc) && Next(q, codec, seen, ch).Some?
    ensures var pc := Next(q, codec, seen, ch).value.q.pc;
      && (pc == Done(Executed) <==> q.pc == TryExec && seen.present && ch.ok)
      && (pc == Done(CannotExecute) <==> q.pc == AfterExec && seen.present)
      && !pc.Unlock?
  {
  }

  predicate HandedOff(s: State, e: Event, t: State, pid: Pid) {
    && Silent(t, pid)
    && (At(t, pid, Done(Executed)) <==>
         At(s, pid, Done(Executed)) || (StepsNow(s, e, pid, TryExec, true) && e.choice.ok))
    && (At(t, pid, Done(CannotExecute)) <==>
         At(s, pid, Done(CannotExecute)) || StepsNow(s, e, pid, AfterExec, true))
  }

  lemma OwnStep(s: State, pid: Pid, ch: Choice)
    requires Apply(s, Step(pid, ch)).Some?
    ensures pid in s.procs && pid in Apply(s, Step(pid, ch)).value.procs
    ensures var m := Next(s.procs[pid], s.codec, SeenBy(s, s.procs[pid]), ch);
      m.Some? && Apply(s, Step(pid, ch)).value.procs[pid].pc == m.value.q.pc
  {
  }

  lemma OwnHandoff(s: State, pid: Pid, ch: Choice)
    requires Silent(s, pid) && Apply(s, Step(pid, ch)).Some?
    ensures HandedOff(s, Step(pid, ch), Apply(s, Step(pid, ch)).value, pid)
  {
    OwnStep(s, pid, ch);
    var q, seen := s.procs[pid], SeenBy(s, s.procs[pid]);
    if Critical(q.pc) {
      LateSteps(q, s.codec, seen, ch);
    } else {
      EarlySteps(q, s.codec, seen, ch);
    }
  }

  /** Whatever else happens, a process stays where it is, starts or dies. */
  predicate Unmoved(s: State, t: State, pid: Pid) {
    if pid !in t.procs then pid !in s.procs
    else t.procs[pid].pc in {LoadQuiet, Crashed} || (pid in s.procs && t.procs[pid].pc == s.procs[pid].pc)
  }

  lemma OthersMove(s: State, e: Event, pid: Pid)
    requires Apply(s, e).Some? && !(e.Step? && e.pid == pid)
    ensures Unmoved(s, Apply(s, e).value, pid)
    ensures pid in Apply(s, e).value.procs && pid in s.procs && s.procs[pid].pc.Done? ==>
              Apply(s, e).value.procs[pid].pc == s.procs[pid].pc
  {
    match e
    case Crash(p, _) =>
    case SetupWrite(p) =>
    case _ =>
  }

  lemma HandoffStep(s: State, e: Event, pid: Pid)
    requires Silent(s, pid) && Apply(s, e).Some?
    ensures HandedOff(s, e, Apply(s, e).value, pid)
  {
    if e.Step? && e.pid == pid {
      OwnHandoff(s, pid, e.choice);
    } else {
      OthersMove(s, e, pid);
    }
  }

  ghost predicate ExecReported(s0: State, events: seq<Event>, s: State, pid: Pid) {
    At(s, pid, Done(Executed)) <==> exists k :: Execs(s0, events, k, pid)
  }

  ghost predicate RefusalReported(s0: State, events: seq<Event>, s: State, pid: Pid) {
    At(s, pid, Done(CannotExecute)) <==> exists k :: StepsFrom(s0, events, k, pid, AfterExec, true)
  }

  lemma {:induction false} StepsEarlier(s0: State, events: seq<Event>, s: State, e: Event, k: int, pid: Pid, pc: Pc)
    requires Run(s0, events) == Some(s)
    ensures StepsFrom(s0, events + [e], k, pid, pc, true) <==>
            if k == |events| then StepsNow(s, e, pid, pc, true) else StepsFrom(s0, events, k, pid, pc, true)
    ensures 0 <= k <= |events| ==> (events + [e])[k] == if k == |events| then e else events[k]
  {
    if 0 <= k <= |events| {
      assert (events + [e])[..k] == events[..k];
    }
  }

  lemma {:induction false} ExecReportedOn(s0: State, events: seq<Event>, s: State, e: Event, pid: Pid)
    requires Run(s0, events) == Some(s) && ExecReported(s0, events, s, pid) && Silent(s, pid) && Apply(s, e).Some?
    ensures ExecReported(s0, events + [e], Apply(s, e).value, pid)
  {
    HandoffStep(s, e, pid);
    forall k ensures Execs(s0, events + [e], k, pid) <==>
                     if k == |events| then StepsNow(s, e, pid, TryExec, true) && e.choice.ok else Execs(s0, events, k, pid)
    {
      StepsEarlier(s0, events, s, e, k, pid, TryExec);
    }
    assert !Execs(s0, events, |events|, pid);
  }

  lemma {:induction false} RefusalReportedOn(s0: State, events: seq<Event>, s: State, e: Event, pid: Pid)
    requires Run(s0, events) == Some(s) && RefusalReported(s0, events, s, pid) && Silent(s, pid) && Apply(s, e).Some?
    ensures RefusalReported(s0, events + [e], Apply(s, e).value, pid)
  {
    HandoffStep(s, e, pid);
    forall k ensures StepsFrom(s0, events + [e], k, pid, AfterExec, true) <==>
                     if k == |events| then StepsNow(s, e, pid, AfterExec, true)
                     else StepsFrom(s0, events, k, pid, AfterExec, true)
    {
      StepsEarlier(s0, events, s, e, k, pid, AfterExec);
    }
    assert !StepsFrom(s0, events, |events|, pid, AfterExec, true);
  }

  lemma {:induction false} SilentAndReported(command: bool, clock: int, present: bool, events: seq<Event>, pid: Pid)
    requires Run(Init(command, clock, present), events).Some?
    ensures var s0 := Init(command, clock, present); var s := Run(s0, events).value;
      Silent(s, pid) && ExecReported(s0, events, s, pid) && RefusalReported(s0, events, s, pid)
  {
    if events != [] {
      var before, e := events[..|events| - 1], events[|events| - 1];
      assert events == before + [e];
      SilentAndReported(command, clock, present, before, pid);
      var s0 := Init(command, clock, present);
      var s := Run(s0, before).value;
      ExecReportedOn(s0, before, s, e, pid);
      RefusalReportedOn(s0, before, s, e, pid);
      HandoffStep(s, e, pid);
    }
  }

  /** Over every run: a process has become the program exactly when its exec succeeded while the
      program was there, and reports that it cannot execute the program exactly when its exec failed
      and it then found the program there. */
  lemma {:induction false} ExecOutcomes(command: bool, clock: int, present: bool, events: seq<Event>, pid: Pid)
    requires Run(Init(command, clock, present), events).Some?
    ensures var s0 := Init(command, clock, present); var s := Run(s0, events).value;
      && (At(s, pid, Done(Executed)) <==> exists k :: Execs(s0, events, k, pid))
      && (At(s, pid, Done(CannotExecute)) <==> exists k :: StepsFrom(s0, events, k, pid, AfterExec, true))
  {
    SilentAndReported(command, clock, present, events, pid);
  }
}
