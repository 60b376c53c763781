/** What holds in every reachable state of the protocol, for any number of
    processes, any interleaving and crashes at any step: mutual exclusion of
    slow-path work, and atomicity of the record file. */
module ProtocolSafety {
  import opened Text
  import opened CacheRecord
  import opened Schedule
  import opened Wrappers
  import opened Protocol

  /** What the protocol needs from the record format. */
  ghost predicate Lawful(codec: Codec) {
    && (forall c: Cache {:trigger codec.format(c)} :: InRange(c) && '\n' !in c.identity ==>
          codec.load(c.identity, codec.format(c)) == ReadBack(c))
    && (forall c: Cache, id: string {:trigger codec.load(id, codec.format(c))} ::
          InRange(c) && '\n' !in c.identity && id != c.identity ==> codec.load(id, codec.format(c)) == Unknown(id))
    && (forall id: string, bytes: string {:trigger codec.load(id, bytes)} ::
          |id| <= IDENTITY_MAX && NUL !in id ==> Sound(codec.load(id, bytes), id))
  }

  lemma RealCodecIsLawful()
    ensures Lawful(RealCodec())
  {
    forall c: Cache | InRange(c) && '\n' !in c.identity
      ensures RealCodec().load(c.identity, RealCodec().format(c)) == ReadBack(c)
    {
      OwnRecordLoads(c);
    }
    forall c: Cache, id: string | InRange(c) && '\n' !in c.identity && id != c.identity
      ensures RealCodec().load(id, RealCodec().format(c)) == Unknown(id)
    {
      ForeignRecordLoads(c, id);
    }
    forall id: string, bytes: string | |id| <= IDENTITY_MAX && NUL !in id
      ensures Sound(RealCodec().load(id, bytes), id)
    {
      LoadIsSound(id, bytes);
    }
  }

  function ReadBack(c: Cache): Cache {
    Cache(c.identity, Clean(c.mark), NonNegative(c.lastCheck), NonNegative(c.lastChange), true)
  }

  lemma OwnRecordLoads(c: Cache)
    requires InRange(c) && '\n' !in c.identity
    ensures RealCodec().load(c.identity, RealCodec().format(c)) == ReadBack(c)
  {
    RecordRoundTrip(c);
  }

  lemma ForeignRecordLoads(c: Cache, id: string)
    requires InRange(c) && '\n' !in c.identity && id != c.identity
    ensures RealCodec().load(id, RealCodec().format(c)) == Unknown(id)
  {
    ForeignRecordIgnored(c, id);
  }

  lemma LoadIsSound(id: string, bytes: string)
    requires |id| <= IDENTITY_MAX && NUL !in id
    ensures Sound(RealCodec().load(id, bytes), id)
  {
  }

  predicate Sound(c: Cache, identity: string) {
    InRange(c) && c.identity == identity
  }

  /** What is checked about one process: its own fields, the content of its temporary
      record file, whether its setup exited with 0, and whether it owns the lock. */
  datatype View = View(q: Proc, tmp: string, exited: bool, owner: bool)

  function ViewOf(s: State, pid: Pid): View
    requires pid in s.procs
  {
    View(s.procs[pid], TmpOf(s, pid), pid in s.zeroExits, s.lock == Some(pid))
  }

  /** The justification a record write carries is real, and the record is what it calls for. */
  predicate Justified(v: View, c: Cache, why: Why) {
    var q := v.q;
    match why
    case SetupExitedZero => v.exited && Acting(q) && c == Updated(q)
    case CheckUnchanged => !q.p.command && q.cache.known && q.cache.mark == q.found && c == Checked(q)
    case Adopted => q.o.adopt && !Inspect(q.o) && c == Updated(q)
  }

  predicate PcOk(codec: Codec, v: View) {
    var q := v.q;
    match q.pc
    case OpenTmp(c, why) => Justified(v, c, why)
    case WriteTmp(c, why, written) =>
      Justified(v, c, why) && written <= |codec.format(c)| && v.tmp == codec.format(c)[..written]
    case RenameTmp(c, why) => Justified(v, c, why) && v.tmp == codec.format(c)
    case Check => !q.p.command
    case Compare => !q.p.command
    case ResetUrl => Acting(q) && !q.p.command
    case ClearUrl => Acting(q) && !q.p.command
    case StartInstall => Acting(q) && !q.p.command
    case Install => Acting(q) && !q.p.command
    case ResetCommand => Acting(q) && q.p.command
    case ClearCommand => Acting(q) && q.p.command
    case Materialize => Acting(q) && q.p.command
    case RunCommand => Acting(q) && q.p.command
    case LoadQuiet => true
    case ClockQuiet => true
    case DecideQuiet => true
    case Dispatch => true
    case Unlock(_) => true
    case Done(_) => true
    case Crashed => true
    case _ => !Inspect(q.o)
  }

  /** Neither inspecting nor adopting: the process may run setup. */
  predicate Acting(q: Proc) {
    !Inspect(q.o) && !q.o.adopt
  }

  predicate ViewOk(codec: Codec, command: bool, v: View) {
    && ValidProject(v.q.p) && v.q.p.command == command
    && Sound(v.q.cache, v.q.p.identity)
    && 0 <= v.q.now < TWO_63 && ValidMark(v.q.found)
    && (Holds(v.q) <==> v.owner)
    && PcOk(codec, v)
  }

  /** The process is past its decisions: it keeps what it knows until it ends. */
  predicate Ended(pc: Pc) {
    pc.Unlock? || pc.Done? || pc.Crashed?
  }

  /** A save is locked, except the unchanged check of an inspection run on a URL project. */
  predicate SaveOk(s: State, w: Save) {
    && w.pid in s.procs && Ended(s.procs[w.pid].pc)
    && Sound(w.cache, s.procs[w.pid].p.identity)
    && Justified(ViewOf(s, w.pid), w.cache, w.why)
    && '\n' !in w.cache.identity
    && (w.locked <==> !Inspect(s.procs[w.pid].o))
  }

  predicate RecordOk(s: State) {
    && (s.record.None? <==> s.log == [])
    && (s.log != [] ==> s.record == Some(s.codec.format(s.log[|s.log| - 1].cache)))
    && (forall i :: 0 <= i < |s.log| ==> SaveOk(s, s.log[i]))
  }

  predicate Safe(s: State) {
    && 0 <= s.clock < TWO_63
    && (s.lock.Some? ==> s.lock.value in s.procs)
    && (forall pid :: pid in s.procs ==> ViewOk(s.codec, s.command, ViewOf(s, pid)))
    && RecordOk(s)
  }

  // ---------- one process ----------

  /** The view of the moving process after its move. */
  function After(v: View, m: Move): View {
    var e := m.effect;
    View(m.q,
         if e.AppendTmp? then v.tmp + e.more
         else if e.CreateTmp? || e.Publish? || (e.GiveUp? && e.dropTmp) then ""
         else v.tmp,
         v.exited || e.ExitZero?,
         if e.Acquire? then true else if e.Release? || e.Die? then false else v.owner)
  }

  lemma EntryOk(codec: Codec, command: bool, v: View, seen: Seen, ch: Choice)
    requires ViewOk(codec, command, v) && QuietNext(v.q, seen, ch).Some?
    requires v.q.pc.LoadQuiet? || v.q.pc.ClockQuiet? || v.q.pc.WaitLock?
    requires Sound(seen.loaded, v.q.p.identity) && 0 <= seen.clock < TWO_63
    ensures ViewOk(codec, command, After(v, QuietNext(v.q, seen, ch).value))
  {
    match v.q.pc
    case ClockQuiet =>
    case _ => if ch.ok {} else {}
  }

  lemma QuietDecisionOk(codec: Codec, command: bool, v: View, seen: Seen, ch: Choice)
    requires ViewOk(codec, command, v)
    requires v.q.pc.DecideQuiet? || v.q.pc.TryExec? || v.q.pc.AfterExec?
    ensures ViewOk(codec, command, After(v, QuietNext(v.q, seen, ch).value))
  {
    var q := v.q;
    match q.pc
    case DecideQuiet =>
      if IsDue(q.p, q.cache, q.now, q.o.force, !ExecCheck(q), seen.present).due {} else {}
    case TryExec => if ch.ok && seen.present {} else {}
    case AfterExec => if seen.present {} else {}
  }

  lemma RecheckOk(codec: Codec, command: bool, v: View, seen: Seen, ch: Choice)
    requires ViewOk(codec, command, v)
    requires v.q.pc.LoadLocked? || v.q.pc.ClockLocked? || v.q.pc.DecideLocked?
    requires Sound(seen.loaded, v.q.p.identity) && 0 <= seen.clock < TWO_63
    ensures ViewOk(codec, command, After(v, LockedNext(v.q, seen, ch).value))
  {
    var q := v.q;
    match q.pc
    case LoadLocked => if ch.ok {} else {}
    case ClockLocked =>
    case DecideLocked => if IsDue(q.p, q.cache, q.now, q.o.force, true, seen.present).due {} else {}
  }

  lemma DispatchOk(codec: Codec, command: bool, v: View, seen: Seen, ch: Choice)
    requires ViewOk(codec, command, v) && v.q.pc.Dispatch?
    ensures ViewOk(codec, command, After(v, LockedNext(v.q, seen, ch).value))
  {
    var q := v.q;
    if !q.p.command {
    } else if Inspect(q.o) {
    } else if q.o.adopt {
    } else if q.cache.known {
    }
  }

  lemma CompareOk(codec: Codec, command: bool, v: View, seen: Seen, ch: Choice)
    requires ViewOk(codec, command, v) && v.q.pc.Compare?
    ensures ViewOk(codec, command, After(v, LockedNext(v.q, seen, ch).value))
  {
    var q := v.q;
    if !(q.p.binCached && !seen.present) && q.cache.known && q.cache.mark == q.found {
    } else if Inspect(q.o) {
    } else if q.o.adopt {
    }
  }

  lemma CheckOk(codec: Codec, command: bool, v: View, seen: Seen, ch: Choice)
    requires ViewOk(codec, command, v) && (v.q.pc.Check? || v.q.pc.Unlock?) && LockedNext(v.q, seen, ch).Some?
    ensures ViewOk(codec, command, After(v, LockedNext(v.q, seen, ch).value))
  {
    if v.q.pc.Check? {
      if ch.ok {} else {}
    }
  }

  lemma LockedOk(codec: Codec, command: bool, v: View, seen: Seen, ch: Choice)
    requires ViewOk(codec, command, v) && LockedNext(v.q, seen, ch).Some?
    requires Sound(seen.loaded, v.q.p.identity) && 0 <= seen.clock < TWO_63
    ensures ViewOk(codec, command, After(v, LockedNext(v.q, seen, ch).value))
  {
    match v.q.pc
    case Dispatch => DispatchOk(codec, command, v, seen, ch);
    case Compare => CompareOk(codec, command, v, seen, ch);
    case Check => CheckOk(codec, command, v, seen, ch);
    case Unlock(_) => CheckOk(codec, command, v, seen, ch);
    case _ => RecheckOk(codec, command, v, seen, ch);
  }

  lemma SetupOk(codec: Codec, command: bool, v: View, seen: Seen, ch: Choice)
    requires ViewOk(codec, command, v) && SetupNext(v.q, seen, ch).Some?
    ensures ViewOk(codec, command, After(v, SetupNext(v.q, seen, ch).value))
  {
    if ch.ok {
      match v.q.pc
      case RunCommand =>
      case Install =>
      case _ =>
    }
  }

  lemma WriteTmpOk(codec: Codec, command: bool, v: View, ch: Choice)
    requires ViewOk(codec, command, v) && v.q.pc.WriteTmp? && SaveNext(v.q, codec, ch).Some?
    ensures ViewOk(codec, command, After(v, SaveNext(v.q, codec, ch).value))
  {
    var text, k := codec.format(v.q.pc.c), v.q.pc.written;
    if k == |text| {
    } else if ch.ok {
      assert text[..k] + text[k..k + ch.n] == text[..k + ch.n];
    } else {
    }
  }

  lemma RenameOk(codec: Codec, command: bool, v: View, ch: Choice)
    requires ViewOk(codec, command, v) && (v.q.pc.OpenTmp? || v.q.pc.RenameTmp?)
    ensures ViewOk(codec, command, After(v, SaveNext(v.q, codec, ch).value))
  {
    if ch.ok {} else {}
  }

  lemma NextOk(codec: Codec, command: bool, v: View, seen: Seen, ch: Choice)
    requires ViewOk(codec, command, v) && Next(v.q, codec, seen, ch).Some?
    requires Sound(seen.loaded, v.q.p.identity) && 0 <= seen.clock < TWO_63
    ensures ViewOk(codec, command, After(v, Next(v.q, codec, seen, ch).value))
  {
    match v.q.pc
    case LoadQuiet => EntryOk(codec, command, v, seen, ch);
    case ClockQuiet => EntryOk(codec, command, v, seen, ch);
    case WaitLock => EntryOk(codec, command, v, seen, ch);
    case DecideQuiet => QuietDecisionOk(codec, command, v, seen, ch);
    case TryExec => QuietDecisionOk(codec, command, v, seen, ch);
    case AfterExec => QuietDecisionOk(codec, command, v, seen, ch);
    case OpenTmp(_, _) => RenameOk(codec, command, v, ch);
    case WriteTmp(_, _, _) => WriteTmpOk(codec, command, v, ch);
    case RenameTmp(_, _) => RenameOk(codec, command, v, ch);
    case _ =>
      if v.q.pc.ResetCommand? || v.q.pc.ResetUrl? || SettingUp(v.q.pc) {
        SetupOk(codec, command, v, seen, ch);
      } else {
        LockedOk(codec, command, v, seen, ch);
      }
  }

  predicate SameKnowledge(q: Proc, r: Proc) {
    r.cache == q.cache && r.now == q.now && r.found == q.found
  }

  /** A step changes neither project nor options; a process that has ended its work changes
      nothing it knows any more, nor does the rename itself. */
  lemma NextIdentity(q: Proc, codec: Codec, seen: Seen, ch: Choice)
    requires Next(q, codec, seen, ch).Some?
    ensures var m := Next(q, codec, seen, ch).value;
      && m.q.p == q.p && m.q.o == q.o && (m.effect.Acquire? ==> seen.free)
      && (m.effect.Publish? ==> q.pc == RenameTmp(m.effect.c, m.effect.why))
      && (m.effect.Publish? || Ended(q.pc) ==> Ended(m.q.pc) && SameKnowledge(q, m.q))
  {
  }

  // ---------- the slot ----------

  lemma LoadedSound(s: State, identity: string)
    requires Lawful(s.codec)
    requires |identity| <= IDENTITY_MAX && NUL !in identity
    ensures Sound(Loaded(s, identity), identity)
  {
  }

  /** What a move does to the mover's view. */
  lemma MoverView(s: State, pid: Pid, m: Move)
    requires pid in s.procs
    ensures ViewOf(Moved(s, pid, m), pid) == After(ViewOf(s, pid), m)
  {
    var t := Moved(s, pid, m);
    var v, a := ViewOf(t, pid), After(ViewOf(s, pid), m);
    assert v.q == a.q;
    assert v.tmp == a.tmp;
    assert v.exited == a.exited;
    assert v.owner == a.owner;
  }

  /** A move of one process leaves the view of every other process alone. */
  lemma OtherView(s: State, pid: Pid, m: Move, other: Pid)
    requires pid in s.procs && other in s.procs && other != pid
    requires m.effect.Acquire? ==> s.lock.None?
    ensures ViewOf(Moved(s, pid, m), other) == ViewOf(s, other)
  {
    var t := Moved(s, pid, m);
    var v, a := ViewOf(t, other), ViewOf(s, other);
    assert v.q == a.q;
    assert v.tmp == a.tmp;
    assert v.exited == a.exited;
    assert v.owner == a.owner;
  }

  /** What happens to the record, the log and the lock when a process moves. */
  lemma MovedRecord(s: State, pid: Pid, m: Move)
    requires pid in s.procs
    ensures var t := Moved(s, pid, m);
      && t.codec == s.codec && t.command == s.command && t.clock == s.clock
      && t.procs == s.procs[pid := m.q]
      && (t.lock == s.lock || t.lock == None || t.lock == Some(pid))
      && (if m.effect.Publish? then
            && t.record == Some(TmpOf(s, pid))
            && t.log == s.log + [Save(pid, m.effect.c, m.effect.why, s.lock == Some(pid))]
          else t.record == s.record && t.log == s.log)
  {
  }

  /** A move that may follow from MoveOf, with the mover in order afterwards. */
  predicate Proper(s: State, pid: Pid, m: Move) {
    && pid in s.procs && m.q.p == s.procs[pid].p && m.q.o == s.procs[pid].o
    && (m.effect.Acquire? ==> s.lock.None?)
    && (m.effect.Publish? ==> s.procs[pid].pc == RenameTmp(m.effect.c, m.effect.why))
    && (m.effect.Publish? || Ended(s.procs[pid].pc) ==> Ended(m.q.pc) && SameKnowledge(s.procs[pid], m.q))
    && ViewOk(s.codec, s.command, After(ViewOf(s, pid), m))
  }

  lemma MoveKeepsViews(s: State, pid: Pid, m: Move)
    requires Safe(s) && Proper(s, pid, m)
    ensures var t := Moved(s, pid, m);
      forall other :: other in t.procs ==> ViewOk(t.codec, t.command, ViewOf(t, other))
  {
    MoverView(s, pid, m);
    forall other | other in s.procs && other != pid
      ensures ViewOf(Moved(s, pid, m), other) == ViewOf(s, other)
    {
      OtherView(s, pid, m, other);
    }
  }

  lemma MoveKeepsRecord(s: State, pid: Pid, m: Move)
    requires Safe(s) && Proper(s, pid, m)
    ensures RecordOk(Moved(s, pid, m))
  {
    SavesStay(s, pid, m);
    if m.effect.Publish? {
      PublishKeepsRecord(s, pid, m);
    } else {
      MovedRecord(s, pid, m);
    }
  }

  lemma PublishKeepsRecord(s: State, pid: Pid, m: Move)
    requires Safe(s) && Proper(s, pid, m) && m.effect.Publish?
    requires forall i :: 0 <= i < |s.log| ==> SaveOk(Moved(s, pid, m), s.log[i])
    ensures RecordOk(Moved(s, pid, m))
  {
    MovedRecord(s, pid, m);
    PublishOk(s, pid, m);
    var t := Moved(s, pid, m);
    forall i | 0 <= i < |t.log|
      ensures SaveOk(t, t.log[i])
    {
      if i < |s.log| {
        assert t.log[i] == s.log[i];
      }
    }
  }

  lemma SavesStay(s: State, pid: Pid, m: Move)
    requires Safe(s) && Proper(s, pid, m)
    ensures forall i :: 0 <= i < |s.log| ==> SaveOk(Moved(s, pid, m), s.log[i])
  {
    forall i | 0 <= i < |s.log|
      ensures SaveOk(Moved(s, pid, m), s.log[i])
    {
      SaveStays(s, pid, m, s.log[i]);
    }
  }

  /** A move that keeps the mover's view in order keeps the whole slot in order. */
  lemma MoveKeeps(s: State, pid: Pid, m: Move)
    requires Safe(s) && Proper(s, pid, m)
    ensures Safe(Moved(s, pid, m))
  {
    MovedRecord(s, pid, m);
    MoveKeepsViews(s, pid, m);
    MoveKeepsRecord(s, pid, m);
  }

  lemma SaveStays(s: State, pid: Pid, m: Move, w: Save)
    requires pid in s.procs && m.q.p == s.procs[pid].p && m.q.o == s.procs[pid].o
    requires Ended(s.procs[pid].pc) ==> Ended(m.q.pc) && SameKnowledge(s.procs[pid], m.q)
    requires m.effect.Acquire? ==> s.lock.None?
    requires SaveOk(s, w)
    ensures SaveOk(Moved(s, pid, m), w)
  {
    if w.pid == pid {
      MoverView(s, pid, m);
    } else {
      OtherView(s, pid, m, w.pid);
    }
  }

  lemma PublishOk(s: State, pid: Pid, m: Move)
    requires Safe(s) && Proper(s, pid, m) && m.effect.Publish?
    ensures var t := Moved(s, pid, m);
      && TmpOf(s, pid) == s.codec.format(m.effect.c)
      && SaveOk(t, t.log[|t.log| - 1])
  {
    var v := ViewOf(s, pid);
    assert ViewOk(s.codec, s.command, v);
    PublishedSaveOk(s.codec, s.command, v, m);
    MovedRecord(s, pid, m);
    MoverView(s, pid, m);
  }

  /** What the view of a process about to rename says about the save it makes. */
  lemma PublishedSaveOk(codec: Codec, command: bool, v: View, m: Move)
    requires ViewOk(codec, command, v) && m.effect.Publish? && v.q.pc == RenameTmp(m.effect.c, m.effect.why)
    requires m.q.p == v.q.p && m.q.o == v.q.o && SameKnowledge(v.q, m.q)
    ensures v.tmp == codec.format(m.effect.c) && Sound(m.effect.c, v.q.p.identity) && '\n' !in m.effect.c.identity
    ensures Justified(After(v, m), m.effect.c, m.effect.why) && (v.owner <==> !Inspect(v.q.o))
  {
  }

  lemma SameProcesses(s: State, t: State)
    requires Safe(s) && 0 <= t.clock < TWO_63
    requires t.codec == s.codec && t.command == s.command && t.record == s.record && t.log == s.log
    requires t.procs == s.procs && t.tmps == s.tmps && t.lock == s.lock && t.zeroExits == s.zeroExits
    ensures Safe(t)
  {
    forall pid | pid in t.procs
      ensures ViewOk(t.codec, t.command, ViewOf(t, pid))
    {
      assert ViewOf(t, pid) == ViewOf(s, pid);
    }
    forall i | 0 <= i < |t.log|
      ensures SaveOk(t, t.log[i])
    {
      assert SaveOk(s, s.log[i]);
    }
  }

  /** What counts as a save in order depends on its writer alone. */
  lemma SaveOkOnView(s: State, t: State, w: Save)
    requires SaveOk(s, w) && w.pid in t.procs && ViewOf(t, w.pid) == ViewOf(s, w.pid)
    ensures SaveOk(t, w)
  {
    assert t.procs[w.pid] == ViewOf(t, w.pid).q && s.procs[w.pid] == ViewOf(s, w.pid).q;
  }

  /** A new process joins; nothing else changes. */
  lemma StartKeeps(s: State, pid: Pid, p: Project, o: Options)
    requires Safe(s) && Apply(s, Start(pid, p, o)).Some?
    ensures Safe(Apply(s, Start(pid, p, o)).value)
  {
    var t := Apply(s, Start(pid, p, o)).value;
    StartedOk(s, pid, p, o);
    forall i | 0 <= i < |t.log|
      ensures SaveOk(t, t.log[i])
    {
      SaveOkOnView(s, t, s.log[i]);
    }
  }

  lemma StartedOk(s: State, pid: Pid, p: Project, o: Options)
    requires Safe(s) && Apply(s, Start(pid, p, o)).Some?
    ensures var t := Apply(s, Start(pid, p, o)).value;
      && t == s.(procs := t.procs) && t.procs.Keys == s.procs.Keys + {pid}
      && ViewOk(t.codec, t.command, ViewOf(t, pid))
      && (forall other :: other in s.procs ==> ViewOf(t, other) == ViewOf(s, other))
  {
    var q := Proc(p, o, LoadQuiet, Unknown(p.identity), 0, "");
    assert Apply(s, Start(pid, p, o)).value == s.(procs := s.procs[pid := q]);
    assert s.lock != Some(pid);
    var v := View(q, TmpOf(s, pid), pid in s.zeroExits, false);
    NewcomerOk(s.codec, s.command, v);
    assert ViewOf(s.(procs := s.procs[pid := q]), pid) == v;
  }

  lemma NewcomerOk(codec: Codec, command: bool, v: View)
    requires v.q == Proc(v.q.p, v.q.o, LoadQuiet, Unknown(v.q.p.identity), 0, "") && !v.owner
    requires ValidProject(v.q.p) && v.q.p.command == command
    ensures ViewOk(codec, command, v)
  {
  }

  lemma StepOk(s: State, pid: Pid, ch: Choice)
    requires Lawful(s.codec) && Safe(s) && MoveOf(s, Step(pid, ch)).Some?
    ensures Proper(s, pid, MoveOf(s, Step(pid, ch)).value)
  {
    var q := s.procs[pid];
    var v := ViewOf(s, pid);
    assert ViewOk(s.codec, s.command, v);
    LoadedSound(s, q.p.identity);
    NextIdentity(q, s.codec, SeenBy(s, q), ch);
    NextOk(s.codec, s.command, v, SeenBy(s, q), ch);
  }

  lemma CrashViewOk(codec: Codec, command: bool, v: View, e: Effect)
    requires ViewOk(codec, command, v) && e.Die?
    ensures ViewOk(codec, command, After(v, Move(v.q.(pc := Crashed), e)))
  {
  }

  lemma WriteViewOk(codec: Codec, command: bool, v: View)
    requires ViewOk(codec, command, v)
    ensures ViewOk(codec, command, After(v, Move(v.q, WriteDir)))
  {
    assert After(v, Move(v.q, WriteDir)) == v;
  }

  lemma CrashOk(s: State, e: Event)
    requires Safe(s) && e.Crash? && MoveOf(s, e).Some?
    ensures Proper(s, e.pid, MoveOf(s, e).value)
  {
    CrashViewOk(s.codec, s.command, ViewOf(s, e.pid), MoveOf(s, e).value.effect);
  }

  lemma SetupWriteOk(s: State, e: Event)
    requires Safe(s) && e.SetupWrite? && MoveOf(s, e).Some?
    ensures Proper(s, e.pid, MoveOf(s, e).value)
  {
    WriteViewOk(s.codec, s.command, ViewOf(s, e.pid));
  }

  /** Every move the processes, their crashes and their setups make keeps the mover in order. */
  lemma MoveOfOk(s: State, e: Event)
    requires Lawful(s.codec) && Safe(s) && MoveOf(s, e).Some?
    ensures Proper(s, e.pid, MoveOf(s, e).value)
  {
    if e.Step? {
      StepOk(s, e.pid, e.choice);
    } else if e.Crash? {
      CrashOk(s, e);
    } else {
      SetupWriteOk(s, e);
    }
  }

  lemma ApplyKeeps(s: State, e: Event)
    requires Lawful(s.codec) && Safe(s) && Apply(s, e).Some?
    ensures Safe(Apply(s, e).value)
    ensures Apply(s, e).value.codec == s.codec
  {
    if MoveOf(s, e).Some? {
      MoveEventKeeps(s, e);
    } else if e.Start? {
      StartKeeps(s, e.pid, e.p, e.o);
    } else {
      OutsideKeeps(s, e);
    }
  }

  lemma OutsideLeavesProcesses(s: State, e: Event)
    requires (e.Tick? || e.Presence? || e.OrphanWrite?) && Apply(s, e).Some?
    ensures var t := Apply(s, e).value;
      && t.codec == s.codec && t.command == s.command && t.record == s.record && t.log == s.log
      && t.procs == s.procs && t.tmps == s.tmps && t.lock == s.lock && t.zeroExits == s.zeroExits
      && (t.clock == s.clock || 0 <= t.clock < TWO_63)
  {
  }

  lemma OutsideKeeps(s: State, e: Event)
    requires Safe(s) && (e.Tick? || e.Presence? || e.OrphanWrite?) && Apply(s, e).Some?
    ensures Safe(Apply(s, e).value) && Apply(s, e).value.codec == s.codec
  {
    OutsideLeavesProcesses(s, e);
    SameProcesses(s, Apply(s, e).value);
  }

  lemma MoveEventKeeps(s: State, e: Event)
    requires Lawful(s.codec) && Safe(s) && MoveOf(s, e).Some?
    ensures Safe(Moved(s, e.pid, MoveOf(s, e).value))
    ensures Moved(s, e.pid, MoveOf(s, e).value).codec == s.codec
  {
    MoveOfOk(s, e);
    MoveKeeps(s, e.pid, MoveOf(s, e).value);
  }

  /** Safe holds in every reachable state. */
  lemma {:induction false} AlwaysSafe(command: bool, clock: int, present: bool, events: seq<Event>)
    requires 0 <= clock < TWO_63
    requires Run(Init(command, clock, present), events).Some?
    ensures Safe(Run(Init(command, clock, present), events).value)
    ensures Run(Init(command, clock, present), events).value.codec == RealCodec()
  {
    var s := Init(command, clock, present);
    if events != [] {
      RealCodecIsLawful();
      var before := events[..|events| - 1];
      AlwaysSafe(command, clock, present, before);
      ApplyKeeps(Run(s, before).value, events[|events| - 1]);
    }
  }

  /** Slow-path work on a slot never overlaps, and setup only runs under the lock. */
  lemma {:induction false} SlowPathIsExclusive(command: bool, clock: int, present: bool, events: seq<Event>, a: Pid, b: Pid)
    requires 0 <= clock < TWO_63 && Run(Init(command, clock, present), events).Some?
    requires var s := Run(Init(command, clock, present), events).value; a in s.procs && b in s.procs
    ensures var s := Run(Init(command, clock, present), events).value;
      && (Holds(s.procs[a]) && Holds(s.procs[b]) ==> a == b)
      && (SettingUp(s.procs[a].pc) ==> s.lock == Some(a))
  {
    AlwaysSafe(command, clock, present, events);
    OwnersOnly(Run(Init(command, clock, present), events).value, a);
    OwnersOnly(Run(Init(command, clock, present), events).value, b);
  }

  lemma OwnersOnly(s: State, pid: Pid)
    requires Safe(s) && pid in s.procs
    ensures (Holds(s.procs[pid]) <==> s.lock == Some(pid)) && (SettingUp(s.procs[pid].pc) ==> s.lock == Some(pid))
  {
    assert ViewOk(s.codec, s.command, ViewOf(s, pid));
  }

  /** Every record write is justified, in every run: it came from a setup that exited with 0
      uninterrupted, an adopt, or a check whose marker was the recorded one; the record says
      accordingly (an unchanged check moves nothing but the time of the check); and the writer held
      the lock unless it was inspecting, which only an unchanged check of a URL project survives. */
  lemma {:induction false} EverySaveIsJustified(command: bool, clock: int, present: bool, events: seq<Event>, i: nat)
    requires 0 <= clock < TWO_63 && Run(Init(command, clock, present), events).Some?
    requires i < |Run(Init(command, clock, present), events).value.log|
    ensures var s := Run(Init(command, clock, present), events).value; var w := s.log[i];
      && w.pid in s.procs && (w.locked <==> !Inspect(s.procs[w.pid].o))
      && var q := s.procs[w.pid];
      match w.why
      case SetupExitedZero => w.locked && w.pid in s.zeroExits && w.cache == Updated(q)
      case Adopted => w.locked && q.o.adopt && w.cache == Updated(q)
      case CheckUnchanged => !command && q.cache.known && q.found == q.cache.mark && w.cache == q.cache.(lastCheck := q.now)
  {
    AlwaysSafe(command, clock, present, events);
    CommandStays(Init(command, clock, present), events);
    var s := Run(Init(command, clock, present), events).value;
    assert SaveOk(s, s.log[i]);
    assert ViewOk(s.codec, s.command, ViewOf(s, s.log[i].pid));
  }

  /** Record atomicity: in every run the record path is absent, and then nothing was ever written,
      or it holds the complete text of the last write. */
  lemma {:induction false} RecordIsOneCompleteSave(command: bool, clock: int, present: bool, events: seq<Event>)
    requires 0 <= clock < TWO_63 && Run(Init(command, clock, present), events).Some?
    ensures var s := Run(Init(command, clock, present), events).value;
      if s.log == [] then s.record == None else s.record == Some(Print(s.log[|s.log| - 1].cache))
  {
    AlwaysSafe(command, clock, present, events);
  }

  lemma {:induction false} CommandStays(s: State, events: seq<Event>)
    requires Run(s, events).Some?
    ensures Run(s, events).value.command == s.command
  {
    if events != [] {
      CommandStays(s, events[..|events| - 1]);
    }
  }

  /** Whoever loads the record sees the last save in full, or, for another identity, nothing. */
  lemma {:induction false} LoadSeesTheLastSave(command: bool, clock: int, present: bool, events: seq<Event>, identity: string)
    requires 0 <= clock < TWO_63 && Run(Init(command, clock, present), events).Some?
    requires Run(Init(command, clock, present), events).value.record.Some?
    ensures var s := Run(Init(command, clock, present), events).value;
      && s.log != []
      && var c := s.log[|s.log| - 1].cache;
      Loaded(s, identity) ==
        if identity == c.identity
        then Cache(c.identity, Clean(c.mark), NonNegative(c.lastCheck), NonNegative(c.lastChange), true)
        else Unknown(identity)
  {
    AlwaysSafe(command, clock, present, events);
    RealCodecIsLawful();
    var s := Run(Init(command, clock, present), events).value;
    assert SaveOk(s, s.log[|s.log| - 1]);
  }
}
