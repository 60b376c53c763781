/** The scheduling decision: is_due of src/main.c. */
module Schedule {
  import opened CacheRecord
  import opened Text

  datatype Sched = Always | Every(interval: int) | Never

  /** The parts of hm_project that decide what a run does. */
  datatype Project = Project(
    identity: string,
    command: bool,      // HM_KIND_COMMAND rather than HM_KIND_URL
    embedded: bool,     // file_count > 0
    explicit: bool,     // schedule_explicit
    sched: Sched,
    hasBin: bool,       // bin_path is not empty
    binCached: bool)    // bin_path lies below the cache work directory

  datatype Options = Options(checkOnly: bool, dryRun: bool, force: bool, adopt: bool, verbose: bool)

  predicate Inspect(o: Options) {
    o.checkOnly || o.dryRun
  }

  /** An embedded project that runs only when its file changes. */
  predicate ContentDriven(p: Project) {
    p.embedded && (!p.explicit || p.sched.Never?)
  }

  datatype Wait = Unset | Forever | Seconds(n: int)

  datatype Decision = Decision(due: bool, wait: Wait)

  /** is_due. `present` is whether access(bin_path, X_OK) succeeds. */
  function IsDue(p: Project, c: Cache, now: int, force: bool, checkBin: bool, present: bool): Decision {
    if force then Decision(true, Unset)
    else if checkBin && p.binCached && !present then Decision(true, Unset)
    else if p.embedded && !c.known then Decision(true, Unset)
    else if ContentDriven(p) then Decision(false, Unset)
    else
      match p.sched
      case Always => Decision(true, Unset)
      case Never => Decision(false, Forever)
      case Every(interval) =>
        if c.lastCheck == 0 then Decision(true, Unset)
        else
          var elapsed := now - c.lastCheck;
          if elapsed < 0 || elapsed >= interval then Decision(true, Unset)
          else Decision(false, Seconds(interval - elapsed))
  }

  /** The time since the last check is a 64-bit value. */
  predicate ElapsedFits(c: Cache, now: int) {
    -TWO_63 <= now - c.lastCheck < TWO_63
  }

  /** So it is for every record that hacman wrote, whoever loads it. */
  lemma WrittenRecordsFit(c: Cache, identity: string, now: int)
    requires InRange(c) && '\n' !in c.identity && 0 <= now < TWO_63
    ensures ElapsedFits(Load(identity, Print(c)), now)
  {
    if identity == c.identity {
      RecordRoundTrip(c);
    } else {
      ForeignRecordIgnored(c, identity);
    }
  }

  /** The locked recheck can only turn a due run away when the clock moved backwards out of the
      record's future: with a steady or advancing clock, a due decision on a record from the
      past stays due. */
  lemma DueStaysDue(p: Project, c: Cache, now: int, later: int, force: bool, present: bool)
    requires IsDue(p, c, now, force, true, present).due
    requires c.lastCheck <= now <= later
    ensures IsDue(p, c, later, force, true, present).due
  {
  }

  /** A project runs now exactly when it is forced, its handoff program is missing, its file
      changed, or its schedule has come round; otherwise the remaining wait is what separates
      it from the next run, or endless when it is never to run again. */
  lemma DueExactly(p: Project, c: Cache, now: int, force: bool, checkBin: bool, present: bool)
    ensures var d := IsDue(p, c, now, force, checkBin, present);
      && (d.due <==>
            || force
            || (checkBin && p.binCached && !present)
            || (p.embedded && !c.known)
            || (!ContentDriven(p) && p.sched.Always?)
            || (!ContentDriven(p) && p.sched.Every?
                && (c.lastCheck == 0 || now < c.lastCheck || c.lastCheck + p.sched.interval <= now)))
      && (d.wait.Forever? <==>
            !d.due && !(p.embedded && !p.explicit) && !(p.embedded && p.sched.Never?) && p.sched.Never?)
      && (d.wait.Seconds? <==> !d.due && !(p.embedded && !p.explicit) && p.sched.Every?)
      && (d.wait.Seconds? ==>
            (!d.due && 0 < d.wait.n && IsDue(p, c, now + d.wait.n, false, false, present).due
             && (forall t :: now <= t < now + d.wait.n ==> !IsDue(p, c, t, false, false, present).due)))
  {
  }
}
