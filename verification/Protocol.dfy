/** Many hacman processes working on one cache slot: the record file, its
    temporary siblings, the update lock and the work directory.

    Apply is one atomic step of one process, of the environment, or a crash.
    The steps follow `main` from the first cache load to the last unlock, with
    run_command_project and hm_cache_save in line. */
module Protocol {
  import opened Text
  import opened CacheRecord
  import opened Schedule
  import opened Wrappers

  type Pid = nat

  /** Why a process writes the record. */
  datatype Why = SetupExitedZero | CheckUnchanged | Adopted

  datatype Outcome = Skipped | Executed | CannotExecute | Failed | Pending | Ok

  /** Where a process is, named after what it does next. */
  datatype Pc =
    | LoadQuiet                 // first, unlocked hm_cache_load
    | ClockQuiet
    | DecideQuiet               // is_due without the lock
    | TryExec                   // speculative exec_program
    | AfterExec                 // access() after a failed exec
    | WaitLock                  // hm_cache_lock
    | LoadLocked                // reload under the lock
    | ClockLocked
    | DecideLocked              // second is_due
    | Dispatch                  // command or URL
    | ResetCommand              // hm_workdir_reset of run_command_project ...
    | ClearCommand              // ... which has begun to remove things
    | Materialize               // hm_materialize_files
    | RunCommand                // hm_command_run
    | Check                     // hm_check
    | Compare                   // the changed/unchanged decision
    | ResetUrl                  // hm_workdir_reset before an install ...
    | ClearUrl                  // ... which has begun to remove things
    | StartInstall
    | Install                   // the install script is running
    | OpenTmp(c: Cache, why: Why)
    | WriteTmp(c: Cache, why: Why, written: nat)
    | RenameTmp(c: Cache, why: Why)
    | Unlock(rc: Outcome)       // finish_locked
    | Done(rc: Outcome)
    | Crashed

  /** How record bytes are written and read back; see RealCodec. */
  datatype Codec = Codec(format: Cache -> string, load: (string, string) -> Cache)

  /** The formatter and parser of src/cache.c. */
  function RealCodec(): Codec {
    Codec(Print, Load)
  }

  /** `found` is the marker the HTTP check returned. */
  datatype Proc = Proc(p: Project, o: Options, pc: Pc, cache: Cache, now: int, found: string)

  /** One successful rename of a temporary file onto the record path. */
  datatype Save = Save(pid: Pid, cache: Cache, why: Why, locked: bool)

  /** Whose setup has done what to the work directory:
      `wrote`: written into it since it was last emptied;
      `touched`: changed it since the last recorded setup, or since it was last emptied if that
      is later, emptying it included;
      `aborted`: changed it and ended unrecorded, after it was last emptied, and either left
      something behind there or came after the last recorded setup;
      `orphans`: setup children that outlived their crashed hacman. */
  datatype WorkDir = WorkDir(wrote: set<string>, touched: set<string>, aborted: set<string>, orphans: set<string>)

  /** `zeroExits`, `log`, `rechecksSawBin`, `steady` and all of `work` but the orphans are history,
      read by no step: the processes whose setup exited with 0 uninterrupted; all record writes;
      whether the handoff program was there at every locked recheck so far; whether the clock
      has never gone back. */
  datatype State = State(
    codec: Codec,
    command: bool,
    record: Option<string>,
    tmps: map<Pid, string>,
    lock: Option<Pid>,
    procs: map<Pid, Proc>,
    clock: int,
    present: bool,
    work: WorkDir,
    zeroExits: set<Pid>,
    log: seq<Save>,
    rechecksSawBin: bool,
    steady: bool)

  /** What a step may depend on besides the state: whether the operation succeeds,
      the marker an HTTP check returns, and how many bytes a write takes. */
  datatype Choice = Choice(ok: bool, mark: string, n: nat)

  datatype Event =
    | Tick(seconds: int)
    | Presence(b: bool)
    | OrphanWrite(identity: string)
    | Start(pid: Pid, p: Project, o: Options)
    | Crash(pid: Pid, childSurvives: bool)
    | SetupWrite(pid: Pid)
    | Step(pid: Pid, choice: Choice)

  predicate ValidProject(p: Project) {
    && |p.identity| <= IDENTITY_MAX && NUL !in p.identity && '\n' !in p.identity
    && (p.embedded ==> p.command)
    && (p.binCached ==> p.hasBin)
  }

  predicate ValidMark(mark: string) {
    |mark| <= MARK_MAX && NUL !in mark
  }

  function Init(command: bool, clock: int, present: bool): State {
    State(RealCodec(), command, None, map[], None, map[], clock, present, WorkDir({}, {}, {}, {}), {}, [], true, true)
  }

  // ---------- program points ----------

  /** From winning the lock to giving it up. */
  predicate Critical(pc: Pc) {
    match pc
    case LoadQuiet | ClockQuiet | DecideQuiet | TryExec | AfterExec | WaitLock | Done(_) | Crashed => false
    case _ => true
  }

  predicate Holds(q: Proc) {
    Critical(q.pc) && !Inspect(q.o)
  }

  predicate Saving(pc: Pc) {
    pc.OpenTmp? || pc.WriteTmp? || pc.RenameTmp?
  }

  /** Setup of this process works on the directory as it should be and is not recorded yet. */
  predicate Working(pc: Pc) {
    || pc.Materialize? || pc.RunCommand? || pc.StartInstall? || pc.Install?
    || (Saving(pc) && pc.why.SetupExitedZero?)
  }

  /** ... or is still emptying it. */
  predicate SettingUp(pc: Pc) {
    pc.ClearCommand? || pc.ClearUrl? || Working(pc)
  }

  predicate WritesDir(q: Proc) {
    (q.pc.Materialize? && q.p.embedded) || q.pc.RunCommand? || q.pc.Install?
  }

  predicate Alive(pc: Pc) {
    !pc.Done? && !pc.Crashed?
  }

  // ---------- one process ----------

  /** What a process can observe when it takes a step. */
  datatype Seen = Seen(loaded: Cache, clock: int, present: bool, free: bool)

  /** What a step does to the world outside the process. */
  datatype Effect =
    | Nothing
    | Acquire
    | Release
    | Recheck(sawBin: bool)
    | BeginReset
    | ResetDir
    | WriteDir
    | ExitZero
    | CreateTmp
    | AppendTmp(more: string)
    | Publish(c: Cache, why: Why)            // rename of the temporary file onto the record
    | GiveUp(setup: bool, dropTmp: bool)     // a failed step; `setup` when setup had begun
    | Die(setup: bool, childSurvives: bool)

  datatype Move = Move(q: Proc, effect: Effect)

  function Go(q: Proc, pc: Pc): Option<Move> {
    Some(Move(q.(pc := pc), Nothing))
  }

  function With(q: Proc, pc: Pc, effect: Effect): Option<Move> {
    Some(Move(q.(pc := pc), effect))
  }

  function Fail(q: Proc): Option<Move> {
    With(q, Unlock(Failed), GiveUp(SettingUp(q.pc), q.pc.WriteTmp? || q.pc.RenameTmp?))
  }

  /** exec_check of main: a quiet real handoff lets exec itself probe the program. */
  predicate ExecCheck(q: Proc) {
    q.p.binCached && !q.o.verbose && !Inspect(q.o) && !q.o.adopt
  }

  /** From the first load to the lock. */
  function QuietNext(q: Proc, seen: Seen, ch: Choice): Option<Move> {
    match q.pc
    case LoadQuiet =>
      if ch.ok then Some(Move(q.(pc := ClockQuiet, cache := seen.loaded), Nothing)) else Go(q, Done(Failed))
    case ClockQuiet => Some(Move(q.(pc := DecideQuiet, now := seen.clock), Nothing))
    case DecideQuiet =>
      if IsDue(q.p, q.cache, q.now, q.o.force, !ExecCheck(q), seen.present).due then
        Go(q, if Inspect(q.o) then Dispatch else WaitLock)
      else
        Go(q, if ExecCheck(q) then TryExec else Done(Skipped))
    case TryExec => Go(q, if ch.ok && seen.present then Done(Executed) else AfterExec)
    case AfterExec => Go(q, if seen.present then Done(CannotExecute) else WaitLock)
    case WaitLock =>
      if !ch.ok then Go(q, Done(Failed))
      else if !seen.free then None // still blocked
      else With(q, LoadLocked, Acquire)
    case _ => None
  }

  /** The record after setup, or an adopt, at the time the decision was made. */
  function Updated(q: Proc): Cache {
    var c := q.cache.(lastCheck := q.now, lastChange := q.now);
    if q.p.command then c else c.(mark := q.found)
  }

  /** The record after an unchanged check. */
  function Checked(q: Proc): Cache {
    q.cache.(lastCheck := q.now)
  }

  /** The locked recheck and the decisions that follow it. */
  function LockedNext(q: Proc, seen: Seen, ch: Choice): Option<Move> {
    match q.pc
    case LoadLocked =>
      if ch.ok then Some(Move(q.(pc := ClockLocked, cache := seen.loaded), Nothing)) else Go(q, Unlock(Failed))
    case ClockLocked => Some(Move(q.(pc := DecideLocked, now := seen.clock), Nothing))
    case DecideLocked =>
      var due := IsDue(q.p, q.cache, q.now, q.o.force, true, seen.present).due;
      With(q, if due then Dispatch else Unlock(Skipped), Recheck(q.p.binCached ==> seen.present))
    case Dispatch =>
      if !q.p.command then Go(q, Check)
      else if Inspect(q.o) then Go(q, Unlock(Pending))
      else if q.o.adopt then Go(q, OpenTmp(Updated(q), Adopted))
      else Go(q, if q.cache.known then Materialize else ResetCommand)
    case Check =>
      if !ch.ok then Go(q, Unlock(Failed))
      else if !ValidMark(ch.mark) then None
      else Some(Move(q.(pc := Compare, found := ch.mark), Nothing))
    case Compare =>
      var missing := q.p.binCached && !seen.present;
      if !missing && q.cache.known && q.cache.mark == q.found then Go(q, OpenTmp(Checked(q), CheckUnchanged))
      else if Inspect(q.o) then Go(q, Unlock(Pending))
      else if q.o.adopt then Go(q, OpenTmp(Updated(q), Adopted))
      else Go(q, ResetUrl)
    case Unlock(rc) => With(q, Done(rc), Release)
    case _ => None
  }

  /** Work directory and setup child. Emptying the directory may fail half way. A URL project
      without an install script passes through Install without running anything. */
  function SetupNext(q: Proc, seen: Seen, ch: Choice): Option<Move> {
    match q.pc
    case ResetCommand => if ch.ok then With(q, ClearCommand, BeginReset) else Fail(q)
    case ClearCommand => if ch.ok then With(q, Materialize, ResetDir) else Fail(q)
    case Materialize => if ch.ok || !q.p.embedded then Go(q, RunCommand) else Fail(q)
    case RunCommand => if ch.ok then With(q, OpenTmp(Updated(q), SetupExitedZero), ExitZero) else Fail(q)
    case ResetUrl => if ch.ok then With(q, ClearUrl, BeginReset) else Fail(q)
    case ClearUrl => if ch.ok then With(q, StartInstall, ResetDir) else Fail(q)
    case StartInstall => if ch.ok then Go(q, Install) else Fail(q)
    case Install => if ch.ok then With(q, OpenTmp(Updated(q), SetupExitedZero), ExitZero) else Fail(q)
    case _ => None
  }

  /** hm_cache_save: create the temporary file, write it in pieces, rename it into place. */
  function SaveNext(q: Proc, codec: Codec, ch: Choice): Option<Move> {
    match q.pc
    case OpenTmp(c, why) => if ch.ok then With(q, WriteTmp(c, why, 0), CreateTmp) else Fail(q)
    case WriteTmp(c, why, written) =>
      var text := codec.format(c);
      if written == |text| then Go(q, RenameTmp(c, why))
      else if !ch.ok then Fail(q)
      else if written + ch.n <= |text| then
        With(q, WriteTmp(c, why, written + ch.n), AppendTmp(text[written..written + ch.n]))
      else None
    case RenameTmp(c, why) => if ch.ok then With(q, Unlock(Ok), Publish(c, why)) else Fail(q)
    case _ => None
  }

  function Next(q: Proc, codec: Codec, seen: Seen, ch: Choice): Option<Move> {
    if !Critical(q.pc) then QuietNext(q, seen, ch)
    else if Saving(q.pc) then SaveNext(q, codec, ch)
    else if q.pc.ResetCommand? || q.pc.ResetUrl? || SettingUp(q.pc) then SetupNext(q, seen, ch)
    else LockedNext(q, seen, ch)
  }

  // ---------- the slot ----------

  /** What hm_cache_load finds on disk for a project. */
  function Loaded(s: State, identity: string): Cache {
    if s.record.None? then Unknown(identity) else s.codec.load(identity, s.record.value)
  }

  /** The content of the temporary record file of `pid`. */
  function TmpOf(s: State, pid: Pid): string {
    if pid in s.tmps then s.tmps[pid] else ""
  }

  function SeenBy(s: State, q: Proc): Seen {
    Seen(Loaded(s, q.p.identity), s.clock, s.present, s.lock.None?)
  }

  // What one effect of `pid` does to each part of the slot.

  function LockAfter(s: State, pid: Pid, e: Effect): Option<Pid> {
    if e.Acquire? then Some(pid)
    else if (e.Release? || e.Die?) && s.lock == Some(pid) then None
    else s.lock
  }

  function TmpsAfter(s: State, pid: Pid, e: Effect): map<Pid, string> {
    if e.CreateTmp? then s.tmps[pid := ""]
    else if e.AppendTmp? then s.tmps[pid := TmpOf(s, pid) + e.more]
    else if e.Publish? || (e.GiveUp? && e.dropTmp) then s.tmps - {pid}
    else s.tmps
  }

  function RecordAfter(s: State, pid: Pid, e: Effect): Option<string> {
    if e.Publish? then Some(TmpOf(s, pid)) else s.record
  }

  function LogAfter(s: State, pid: Pid, e: Effect): seq<Save> {
    if e.Publish? then s.log + [Save(pid, e.c, e.why, s.lock == Some(pid))] else s.log
  }

  /** A setup that is recorded settles whose directory it is; one that ends unrecorded leaves
      behind what it did. */
  function WorkAfter(w: WorkDir, e: Effect, identity: string): WorkDir {
    match e
    case BeginReset => w.(touched := w.touched + {identity})
    case ResetDir => WorkDir({}, {identity}, {}, w.orphans)
    case WriteDir => w.(wrote := w.wrote + {identity}, touched := w.touched + {identity})
    case Publish(_, why) =>
      if why.SetupExitedZero? then w.(touched := {}, aborted := w.aborted * w.wrote) else w
    case GiveUp(setup, _) => if setup then Aborted(w, identity) else w
    case Die(setup, childSurvives) =>
      var left := if setup then Aborted(w, identity) else w;
      if childSurvives then left.(orphans := w.orphans + {identity}) else left
    case _ => w
  }

  function Aborted(w: WorkDir, identity: string): WorkDir {
    if identity in w.wrote + w.touched then w.(aborted := w.aborted + {identity}) else w
  }

  function Moved(s: State, pid: Pid, m: Move): State {
    var e := m.effect;
    State(s.codec, s.command, RecordAfter(s, pid, e), TmpsAfter(s, pid, e), LockAfter(s, pid, e),
          s.procs[pid := m.q], s.clock, s.present, WorkAfter(s.work, e, m.q.p.identity),
          if e.ExitZero? then s.zeroExits + {pid} else s.zeroExits,
          LogAfter(s, pid, e),
          s.rechecksSawBin && (e.Recheck? ==> e.sawBin),
          s.steady)
  }

  /** The move an event makes a process take, if the event is about a running process. */
  function MoveOf(s: State, e: Event): Option<Move> {
    match e
    case Crash(pid, childSurvives) =>
      if pid !in s.procs || !Alive(s.procs[pid].pc) then None
      else
        var q := s.procs[pid];
        With(q, Crashed, Die(SettingUp(q.pc), childSurvives && (q.pc.RunCommand? || q.pc.Install?)))
    case SetupWrite(pid) =>
      if pid in s.procs && WritesDir(s.procs[pid]) then With(s.procs[pid], s.procs[pid].pc, WriteDir) else None
    case Step(pid, ch) =>
      if pid in s.procs then Next(s.procs[pid], s.codec, SeenBy(s, s.procs[pid]), ch) else None
    case _ => None
  }

  /** One step; None when the event cannot happen in this state. */
  function Apply(s: State, e: Event): Option<State> {
    match e
    case Tick(seconds) =>
      if 0 <= s.clock + seconds < TWO_63 then Some(s.(clock := s.clock + seconds, steady := s.steady && seconds >= 0))
      else None
    case Presence(b) => Some(s.(present := b))
    case OrphanWrite(identity) =>
      if identity in s.work.orphans then Some(s.(work := WorkAfter(s.work, WriteDir, identity))) else None
    case Start(pid, p, o) =>
      if pid in s.procs || !ValidProject(p) || p.command != s.command then None
      else Some(s.(procs := s.procs[pid := Proc(p, o, LoadQuiet, Unknown(p.identity), 0, "")]))
    case _ =>
      var m := MoveOf(s, e);
      if m.None? then None else Some(Moved(s, e.pid, m.value))
  }

  /** The state after a sequence of events, if all of them could happen. */
  function Run(s: State, events: seq<Event>): Option<State> {
    if events == [] then Some(s)
    else
      var before := Run(s, events[..|events| - 1]);
      if before.None? then None else Apply(before.value, events[|events| - 1])
  }
}
