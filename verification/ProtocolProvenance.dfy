/** Whose setup wrote the work directory that a record vouches for.

    Several identities can share one slot: an embedded project is addressed by the path of
    its file, and every edit changes its identity. The record then names one of them. */
module ProtocolProvenance {
  import opened Text
  import opened CacheRecord
  import opened Wrappers
  import opened Protocol
  import opened ProtocolSafety
  import opened ProtocolHistory

  /** No record write adopted what it found in the directory. */
  predicate NothingAdopted(log: seq<Save>) {
    forall i :: 0 <= i < |log| ==> log[i].why != Adopted
  }

  /** The identity in the record, when there is one. */
  function Named(log: seq<Save>): set<string> {
    if log == [] then {} else {log[|log| - 1].cache.identity}
  }

  function Owner(s: State): Option<Proc> {
    if s.lock.Some? && s.lock.value in s.procs then Some(s.procs[s.lock.value]) else None
  }

  predicate OwnerBusy(s: State) {
    Owner(s).Some? && SettingUp(Owner(s).value.pc)
  }

  /** Every change to the directory is accounted for: by the setup in progress, by the record, by
      a setup that ended unrecorded, or by a child that outlived its hacman. A setup in progress has
      changed the directory already, unless it goes on with what the record names. */
  predicate Accounted(w: WorkDir, named: set<string>, owner: Option<Proc>) {
    && w.wrote <= (if owner.Some? && Working(owner.value.pc) then {owner.value.p.identity} else named)
                  + w.aborted + w.orphans
    && w.touched <= (if owner.Some? && SettingUp(owner.value.pc) then {owner.value.p.identity} else {})
                    + w.aborted + w.orphans
    && w.aborted <= w.wrote + w.touched
    && (owner.Some? && SettingUp(owner.value.pc) ==>
          owner.value.p.identity in w.touched || named == {owner.value.p.identity})
  }

  predicate Accountable(s: State) {
    Fresh(s) && Accounted(s.work, Named(s.log), Owner(s))
  }

  /** Which states the owner passes through around its setup. */
  predicate SetupStep(q: Proc, m: Move) {
    var r, e := m.q, m.effect;
    && r.p == q.p
    && (SettingUp(r.pc) && !SettingUp(q.pc) ==>
          || (e.BeginReset? && !Working(r.pc))
          || (e.Nothing? && q.cache.known && q.pc.Dispatch?))
    && (Working(r.pc) && !Working(q.pc) && SettingUp(q.pc) ==> e.ResetDir?)
    && (SettingUp(q.pc) && !SettingUp(r.pc) ==> e.Publish? || (e.GiveUp? && e.setup))
    && (SettingUp(r.pc) && !Working(r.pc) ==> !Working(q.pc))
    && (e.BeginReset? || e.ResetDir? ==> SettingUp(r.pc))
    && (e.ResetDir? ==> Working(r.pc)) && (e.Release? ==> !SettingUp(r.pc))
    && (e.Publish? ==> !SettingUp(r.pc) && Saving(q.pc) && e.why == q.pc.why)
    && (e.GiveUp? && e.setup ==> SettingUp(q.pc) && !SettingUp(r.pc))
    && !e.WriteDir? && !e.Die?
  }

  lemma NextSetsUp(q: Proc, codec: Codec, seen: Seen, ch: Choice)
    requires Critical(q.pc) && Next(q, codec, seen, ch).Some?
    ensures SetupStep(q, Next(q, codec, seen, ch).value)
  {
  }

  /** The steps of the owner up to its write of the record. */
  lemma StepAccounted(q: Proc, m: Move, w: WorkDir, named: set<string>)
    requires SetupStep(q, m) && !m.effect.Publish? && Accounted(w, named, Some(q))
    requires q.pc.Dispatch? && q.cache.known ==> named == {q.p.identity}
    ensures Accounted(WorkAfter(w, m.effect, q.p.identity), named, Some(m.q))
  {
    match m.effect
    case BeginReset =>
    case ResetDir =>
    case GiveUp(setup, _) => if setup {} else {}
    case _ =>
  }

  /** The write itself settles whose directory it is. */
  lemma PublishAccounted(q: Proc, m: Move, w: WorkDir, named: set<string>)
    requires SetupStep(q, m) && m.effect.Publish? && m.effect.why != Adopted && Accounted(w, named, Some(q))
    requires m.effect.why.CheckUnchanged? ==> named == {q.p.identity}
    ensures Accounted(WorkAfter(w, m.effect, q.p.identity), {q.p.identity}, Some(m.q))
  {
  }

  lemma CrashAccounted(q: Proc, childSurvives: bool, w: WorkDir, named: set<string>)
    requires Accounted(w, named, Some(q))
    ensures Accounted(WorkAfter(w, Die(SettingUp(q.pc), childSurvives), q.p.identity), named, None)
  {
  }

  lemma WriteAccounted(q: Proc, w: WorkDir, named: set<string>)
    requires Accounted(w, named, Some(q)) && WritesDir(q)
    ensures Accounted(WorkAfter(w, WriteDir, q.p.identity), named, Some(q))
  {
  }

  lemma OrphanAccounted(w: WorkDir, named: set<string>, owner: Option<Proc>, identity: string)
    requires Accounted(w, named, owner) && identity in w.orphans
    ensures Accounted(WorkAfter(w, WriteDir, identity), named, owner)
  {
  }

  /** Only work in progress is charged to the owner. */
  lemma IdleOwner(w: WorkDir, named: set<string>, q: Proc)
    requires !SettingUp(q.pc)
    ensures Accounted(w, named, Some(q)) <==> Accounted(w, named, None)
  {
  }

  /** A record known to a process names its identity. */
  lemma KnownIsNamed(s: State, identity: string)
    requires Lawful(s.codec) && Safe(s) && Loaded(s, identity).known && '\n' !in identity
    requires |identity| <= IDENTITY_MAX && NUL !in identity
    ensures s.log != [] && Named(s.log) == {identity}
  {
    KnownIsLast(s, identity);
  }

  lemma OwnerKnows(s: State, pid: Pid)
    requires Lawful(s.codec) && Safe(s) && Fresh(s) && pid in s.procs && s.lock == Some(pid)
    requires Reloaded(s.procs[pid].pc) && s.procs[pid].cache.known
    ensures Named(s.log) == {s.procs[pid].p.identity}
  {
    assert ViewOk(s.codec, s.command, ViewOf(s, pid));
    KnownIsNamed(s, s.procs[pid].p.identity);
  }

  /** The parts of the slot that are accounted for, after a move. */
  lemma MovedWork(s: State, pid: Pid, m: Move)
    requires pid in s.procs
    ensures var t := Moved(s, pid, m);
      && t.work == WorkAfter(s.work, m.effect, m.q.p.identity)
      && t.log == LogAfter(s, pid, m.effect)
      && Owner(t) == (if t.lock == Some(pid) then Some(m.q)
                      else if t.lock.Some? && t.lock.value in s.procs then Some(s.procs[t.lock.value]) else None)
  {
  }

  /** The owner's write carries its own identity; after an unchanged check so did the one before. */
  lemma OwnerWrites(s: State, e: Event)
    requires Lawful(s.codec) && Safe(s) && Fresh(s) && e.Step? && MoveOf(s, e).Some? && s.lock == Some(e.pid)
    requires MoveOf(s, e).value.effect.Publish?
    ensures var q := s.procs[e.pid]; var f := MoveOf(s, e).value.effect;
      && f.c.identity == q.p.identity
      && (f.why.CheckUnchanged? ==> Named(s.log) == {q.p.identity})
  {
    var m := MoveOf(s, e).value;
    var v := ViewOf(s, e.pid);
    assert ViewOk(s.codec, s.command, v);
    StepOk(s, e.pid, e.choice);
    PublishedSaveOk(s.codec, s.command, v, m);
    if m.effect.why.CheckUnchanged? {
      UnchangedIsKnown(s.codec, s.command, v, m.effect.c);
      OwnerKnows(s, e.pid);
    }
  }

  lemma OwnerWriteAccountable(s: State, e: Event)
    requires Lawful(s.codec) && Safe(s) && Accountable(s) && e.Step? && MoveOf(s, e).Some? && s.lock == Some(e.pid)
    requires MoveOf(s, e).value.effect.Publish? && MoveOf(s, e).value.effect.why != Adopted
    ensures var t := Moved(s, e.pid, MoveOf(s, e).value); Accounted(t.work, Named(t.log), Owner(t))
  {
    var m := MoveOf(s, e).value;
    var q := s.procs[e.pid];
    OwnersOnly(s, e.pid);
    OwnerWrites(s, e);
    NextSetsUp(q, s.codec, SeenBy(s, q), e.choice);
    PublishAccounted(q, m, s.work, Named(s.log));
    MovedWork(s, e.pid, m);
  }

  lemma OwnerSetsUp(s: State, e: Event)
    requires Lawful(s.codec) && Safe(s) && Fresh(s) && e.Step? && MoveOf(s, e).Some? && s.lock == Some(e.pid)
    ensures SetupStep(s.procs[e.pid], MoveOf(s, e).value)
    ensures s.procs[e.pid].pc.Dispatch? && s.procs[e.pid].cache.known ==> Named(s.log) == {s.procs[e.pid].p.identity}
  {
    var q := s.procs[e.pid];
    OwnersOnly(s, e.pid);
    NextSetsUp(q, s.codec, SeenBy(s, q), e.choice);
    if q.pc.Dispatch? && q.cache.known {
      OwnerKnows(s, e.pid);
    }
  }

  lemma OwnerStepAccountable(s: State, e: Event)
    requires Lawful(s.codec) && Safe(s) && Accountable(s) && e.Step? && MoveOf(s, e).Some? && s.lock == Some(e.pid)
    requires !MoveOf(s, e).value.effect.Publish?
    ensures var t := Moved(s, e.pid, MoveOf(s, e).value); Accounted(t.work, Named(t.log), Owner(t))
  {
    var m := MoveOf(s, e).value;
    OwnerSetsUp(s, e);
    StepAccounted(s.procs[e.pid], m, s.work, Named(s.log));
    MovedWork(s, e.pid, m);
    if m.effect.Release? {
      IdleOwner(Moved(s, e.pid, m).work, Named(s.log), m.q);
    }
  }

  lemma OwnerEndsAccountable(s: State, e: Event)
    requires Safe(s) && Accountable(s) && (e.Crash? || e.SetupWrite?) && MoveOf(s, e).Some? && s.lock == Some(e.pid)
    ensures var t := Moved(s, e.pid, MoveOf(s, e).value); Accounted(t.work, Named(t.log), Owner(t))
  {
    var q := s.procs[e.pid];
    MovedWork(s, e.pid, MoveOf(s, e).value);
    if e.Crash? {
      CrashAccounted(q, MoveOf(s, e).value.effect.childSurvives, s.work, Named(s.log));
    } else {
      WriteAccounted(q, s.work, Named(s.log));
    }
  }

  lemma HarmlessWork(s: State, pid: Pid, m: Move)
    requires pid in s.procs && s.lock != Some(pid) && Harmless(m.effect)
    ensures var t := Moved(s, pid, m);
      && t.work == s.work && t.log == s.log && (!m.effect.Acquire? ==> Owner(t) == Owner(s))
  {
    if m.effect.Acquire? {} else {}
  }

  lemma OutsiderAccountable(s: State, e: Event)
    requires Safe(s) && Accountable(s) && MoveOf(s, e).Some? && s.lock != Some(e.pid)
    requires Harmless(MoveOf(s, e).value.effect)
    ensures var t := Moved(s, e.pid, MoveOf(s, e).value); Accounted(t.work, Named(t.log), Owner(t))
  {
    var m := MoveOf(s, e).value;
    HarmlessWork(s, e.pid, m);
    if m.effect.Acquire? {
      AcquireAccountable(s, e);
    }
  }

  lemma AcquireAccountable(s: State, e: Event)
    requires Safe(s) && Accountable(s) && MoveOf(s, e).Some? && MoveOf(s, e).value.effect.Acquire?
    ensures var t := Moved(s, e.pid, MoveOf(s, e).value); Accounted(s.work, Named(s.log), Owner(t))
  {
    var m := MoveOf(s, e).value;
    var q := s.procs[e.pid];
    AcquireLoads(q, s.codec, SeenBy(s, q), e.choice);
    NextIdentity(q, s.codec, SeenBy(s, q), e.choice);
    IdleOwner(s.work, Named(s.log), m.q);
    MovedWork(s, e.pid, m);
  }

  lemma MoveAccountable(s: State, e: Event)
    requires Lawful(s.codec) && Safe(s) && Accountable(s) && MoveOf(s, e).Some?
    requires var log := Moved(s, e.pid, MoveOf(s, e).value).log; AllLocked(log) && NothingAdopted(log)
    ensures Accountable(Moved(s, e.pid, MoveOf(s, e).value))
  {
    var m := MoveOf(s, e).value;
    FreshMove(s, e);
    if s.lock != Some(e.pid) {
      OutsiderIsHarmless(s, e);
      OutsiderAccountable(s, e);
    } else if !e.Step? {
      OwnerEndsAccountable(s, e);
    } else if m.effect.Publish? {
      AdoptedWrite(s, e.pid, m);
      OwnerWriteAccountable(s, e);
    } else {
      OwnerStepAccountable(s, e);
    }
  }

  lemma AdoptedWrite(s: State, pid: Pid, m: Move)
    requires m.effect.Publish? && NothingAdopted(Moved(s, pid, m).log)
    ensures m.effect.why != Adopted
  {
    var log := Moved(s, pid, m).log;
    assert log[|log| - 1].why == m.effect.why;
  }

  lemma OtherEventAccountable(s: State, e: Event)
    requires Safe(s) && Accountable(s) && MoveOf(s, e).None? && Apply(s, e).Some?
    ensures Accountable(Apply(s, e).value)
  {
    OtherEvent(s, e);
    if e.OrphanWrite? {
      OrphanAccounted(s.work, Named(s.log), Owner(s), e.identity);
    }
  }

  /** Every change to the work directory is accounted for, in every run whose record writes are
      all made under the lock and adopt nothing. */
  lemma {:induction false} AlwaysAccountable(command: bool, clock: int, present: bool, events: seq<Event>)
    requires 0 <= clock < TWO_63 && Run(Init(command, clock, present), events).Some?
    requires var log := Run(Init(command, clock, present), events).value.log; AllLocked(log) && NothingAdopted(log)
    ensures Accountable(Run(Init(command, clock, present), events).value)
  {
    var s := Init(command, clock, present);
    if events != [] {
      var before := Run(s, events[..|events| - 1]).value;
      var e := events[|events| - 1];
      RealCodecIsLawful();
      AlwaysSafe(command, clock, present, events[..|events| - 1]);
      LogGrows(before, e);
      AlwaysAccountable(command, clock, present, events[..|events| - 1]);
      if MoveOf(before, e).Some? {
        MoveAccountable(before, e);
      } else {
        OtherEventAccountable(before, e);
      }
    }
  }

  /** Nobody but `identity` wrote what is in the directory, or changed it since its last recorded
      setup. */
  predicate OnlyBy(w: WorkDir, identity: string) {
    w.wrote <= {identity} && w.touched <= {identity}
  }

  /** Provenance. In every run whose record writes are all made under the lock and adopt nothing,
      as long as no child of another identity outlived its hacman: a record naming an identity
      vouches for a directory that only this identity made, exactly if no other identity is being
      set up and none was that emptied, half emptied or changed it and ended unrecorded since.
      Without any such setup, nothing changed the directory since its last recorded setup. */
  lemma {:induction false} RecordVouchesForDirectory(command: bool, clock: int, present: bool, events: seq<Event>,
                                                     identity: string)
    requires 0 <= clock < TWO_63 && Run(Init(command, clock, present), events).Some?
    requires |identity| <= IDENTITY_MAX && NUL !in identity && '\n' !in identity
    requires var s := Run(Init(command, clock, present), events).value;
      && AllLocked(s.log) && NothingAdopted(s.log) && Loaded(s, identity).known
      && s.work.orphans <= {identity}
    ensures var s := Run(Init(command, clock, present), events).value;
      && (OnlyBy(s.work, identity) <==>
            && s.work.aborted <= {identity}
            && (OwnerBusy(s) ==> Owner(s).value.p.identity == identity))
      && (s.work.aborted == {} && !OwnerBusy(s) && s.work.orphans == {} ==> s.work.touched == {})
  {
    var s := Run(Init(command, clock, present), events).value;
    RealCodecIsLawful();
    AlwaysSafe(command, clock, present, events);
    AlwaysAccountable(command, clock, present, events);
    KnownIsNamed(s, identity);
    VouchesExactly(s.work, Owner(s), identity);
  }

  lemma VouchesExactly(w: WorkDir, owner: Option<Proc>, identity: string)
    requires Accounted(w, {identity}, owner) && w.orphans <= {identity}
    ensures OnlyBy(w, identity) <==>
      && w.aborted <= {identity}
      && (owner.Some? && SettingUp(owner.value.pc) ==> owner.value.p.identity == identity)
  {
    if OnlyBy(w, identity) {
      assert owner.Some? && SettingUp(owner.value.pc) ==>
        owner.value.p.identity in w.touched || owner.value.p.identity in {identity};
    }
  }

  // ---------- setups that start empty ----------

  /** Its setup began with a reset, and is at work. */
  predicate FromScratch(q: Proc) {
    Working(q.pc) && !(q.p.command && q.cache.known)
  }

  /** How far the directory is from empty when the setup of `q` is at work in it. */
  predicate Clear(w: WorkDir, q: Proc) {
    && (FromScratch(q) ==> w.wrote <= {q.p.identity} + w.orphans)
    && (q.pc.StartInstall? ==> w.wrote <= w.orphans)
  }

  predicate AllClear(s: State) {
    forall pid :: pid in s.procs ==> Clear(s.work, s.procs[pid])
  }

  /** Only a reset opens a setup from scratch. */
  lemma NextStartsClear(q: Proc, codec: Codec, seen: Seen, ch: Choice)
    requires Next(q, codec, seen, ch).Some?
    ensures var m := Next(q, codec, seen, ch).value;
      && m.q.p == q.p && !m.effect.WriteDir?
      && (FromScratch(m.q) && !FromScratch(q) ==> m.effect.ResetDir?)
      && (m.q.pc.StartInstall? ==> m.effect.ResetDir?)
  {
    if !Critical(q.pc) {
    } else if Saving(q.pc) {
    } else if q.pc.ResetCommand? || q.pc.ResetUrl? || SettingUp(q.pc) {
    } else {
    }
  }

  /** Only a write adds to the directory, and no child that outlived its hacman is forgotten. */
  lemma WorkGrows(w: WorkDir, e: Effect, identity: string)
    ensures var x := WorkAfter(w, e, identity);
      && w.orphans <= x.orphans
      && (if e.ResetDir? then x.wrote == {} else if e.WriteDir? then x.wrote == w.wrote + {identity} else x.wrote == w.wrote)
  {
  }

  lemma StepClear(s: State, e: Event)
    requires Safe(s) && AllClear(s) && e.Step? && MoveOf(s, e).Some?
    ensures AllClear(Moved(s, e.pid, MoveOf(s, e).value))
  {
    var m := MoveOf(s, e).value;
    var q := s.procs[e.pid];
    NextStartsClear(q, s.codec, SeenBy(s, q), e.choice);
    WorkGrows(s.work, m.effect, q.p.identity);
    MovedWork(s, e.pid, m);
    MovedRecord(s, e.pid, m);
    assert Clear(s.work, q);
  }

  lemma CrashClear(s: State, e: Event)
    requires Safe(s) && AllClear(s) && e.Crash? && MoveOf(s, e).Some?
    ensures AllClear(Moved(s, e.pid, MoveOf(s, e).value))
  {
    var m := MoveOf(s, e).value;
    WorkGrows(s.work, m.effect, m.q.p.identity);
    MovedWork(s, e.pid, m);
    MovedRecord(s, e.pid, m);
  }

  /** A setup writes when no other is at work. */
  lemma WriteClear(s: State, e: Event)
    requires Safe(s) && AllClear(s) && e.SetupWrite? && MoveOf(s, e).Some?
    ensures AllClear(Moved(s, e.pid, MoveOf(s, e).value))
  {
    var t := Moved(s, e.pid, MoveOf(s, e).value);
    WriteFrame(s, e);
    OnlyWriter(s, e.pid);
    forall pid | pid in t.procs
      ensures Clear(t.work, t.procs[pid])
    {
      assert Clear(s.work, s.procs[pid]);
      WriterClear(s.work, s.procs[e.pid]);
    }
  }

  lemma WriteFrame(s: State, e: Event)
    requires e.SetupWrite? && MoveOf(s, e).Some?
    ensures var t := Moved(s, e.pid, MoveOf(s, e).value);
      && t.procs == s.procs && WritesDir(s.procs[e.pid])
      && t.work == WorkAfter(s.work, WriteDir, s.procs[e.pid].p.identity)
  {
    assert s.procs[e.pid := s.procs[e.pid]] == s.procs;
  }

  lemma WriterClear(w: WorkDir, q: Proc)
    requires WritesDir(q)
    ensures Clear(w, q) ==> Clear(WorkAfter(w, WriteDir, q.p.identity), q)
  {
  }

  lemma OnlyWriter(s: State, pid: Pid)
    requires Safe(s) && pid in s.procs && WritesDir(s.procs[pid])
    ensures forall other :: other in s.procs && other != pid ==> !Working(s.procs[other].pc)
  {
    OwnersOnly(s, pid);
    forall other | other in s.procs && other != pid
      ensures !Working(s.procs[other].pc)
    {
      OwnersOnly(s, other);
    }
  }

  lemma OutsideClear(s: State, e: Event)
    requires Safe(s) && AllClear(s) && MoveOf(s, e).None? && Apply(s, e).Some?
    ensures AllClear(Apply(s, e).value)
  {
    if e.OrphanWrite? {
      WorkGrows(s.work, WriteDir, e.identity);
    }
  }

  lemma {:induction false} AlwaysClear(command: bool, clock: int, present: bool, events: seq<Event>)
    requires 0 <= clock < TWO_63 && Run(Init(command, clock, present), events).Some?
    ensures AllClear(Run(Init(command, clock, present), events).value)
  {
    var s := Init(command, clock, present);
    if events != [] {
      var before := Run(s, events[..|events| - 1]).value;
      var e := events[|events| - 1];
      AlwaysSafe(command, clock, present, events[..|events| - 1]);
      AlwaysClear(command, clock, present, events[..|events| - 1]);
      match e
      case Step(_, _) => StepClear(before, e);
      case Crash(_, _) => CrashClear(before, e);
      case SetupWrite(_) => WriteClear(before, e);
      case _ => OutsideClear(before, e);
    }
  }

  /** In every run, whatever was adopted or saved without the lock: an install of a URL project
      starts in an empty directory, and a setup that began with a reset works among its own
      files alone, apart from what children that outlived their own hacman may write at any time. */
  lemma {:induction false} InstallsStartEmpty(command: bool, clock: int, present: bool, events: seq<Event>, pid: Pid)
    requires 0 <= clock < TWO_63 && Run(Init(command, clock, present), events).Some?
    requires pid in Run(Init(command, clock, present), events).value.procs
    ensures var s := Run(Init(command, clock, present), events).value; var q := s.procs[pid];
      && (q.pc.StartInstall? ==> s.work.wrote <= s.work.orphans)
      && (Working(q.pc) && !(q.p.command && q.cache.known) ==> s.work.wrote <= {q.p.identity} + s.work.orphans)
  {
    AlwaysClear(command, clock, present, events);
    assert Clear(Run(Init(command, clock, present), events).value.work,
                 Run(Init(command, clock, present), events).value.procs[pid]);
  }
}
