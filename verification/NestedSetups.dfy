/** Setup scripts that run hacman again: when a tree of nested setups succeeds, fails, or hangs.

    The stack of locks that nested setups hold is a chain of processes as in Nesting, whose
    bounded ancestor check decides what a further run does. */
module NestedSetups {
  import opened Wrappers
  import opened Nesting

  /** A nested run in a setup script, and how many processes (shells and the like) lie between
      the hacman that runs the script and the nested one. */
  datatype Nested = Nested(record: Record, between: nat)

  /** What a setup script does with the runs of hacman it starts, one at a time: it may go on in
      any way that depends on whether a run failed, and exits with 0 or not. A list of commands
      under `sh -e` stops with the first failure; `sh -c` without it, `||` and `if` go on. */
  datatype Script =
    | Stop(zero: bool)
    | Hacman(n: Nested, onSuccess: Script, onFailure: Script)

  /** The script in each record's project. */
  type Scripts = map<Record, Script>

  /** The runs a script may start. */
  function RunsOf(script: Script): seq<Nested> {
    match script
    case Stop(_) => []
    case Hacman(n, onSuccess, onFailure) => [n] + RunsOf(onSuccess) + RunsOf(onFailure)
  }

  predicate Known(script: Script, records: set<Record>) {
    forall i :: 0 <= i < |RunsOf(script)| ==> RunsOf(script)[i].record in records
  }

  ghost predicate Runnable(scripts: Scripts) {
    forall r :: r in scripts ==> Known(scripts[r], scripts.Keys)
  }

  lemma KnownBelow(script: Script, records: set<Record>)
    requires Known(script, records) && script.Hacman?
    ensures script.n.record in records && Known(script.onSuccess, records) && Known(script.onFailure, records)
  {
    var rest := RunsOf(script.onSuccess);
    assert RunsOf(script)[0] == script.n;
    assert forall i :: 0 <= i < |rest| ==> RunsOf(script)[1 + i] == rest[i];
    assert forall i :: 0 <= i < |RunsOf(script.onFailure)| ==>
      RunsOf(script)[1 + |rest| + i] == RunsOf(script.onFailure)[i];
  }

  /** Every nested run is fatal: when one fails so does the script, at once; when all succeed it
      exits with 0. */
  predicate Strict(script: Script) {
    match script
    case Stop(zero) => zero
    case Hacman(_, onSuccess, onFailure) => Strict(onSuccess) && onFailure == Stop(false)
  }

  ghost predicate AllStrict(scripts: Scripts) {
    forall r :: r in scripts ==> Strict(scripts[r])
  }

  /** Which nested runs each record's setup script may start, in order. */
  type Plan = map<Record, seq<Nested>>

  function PlanOf(scripts: Scripts): Plan {
    map r | r in scripts :: RunsOf(scripts[r])
  }

  ghost predicate Closed(plan: Plan) {
    forall r, i :: r in plan && 0 <= i < |plan[r]| ==> plan[r][i].record in plan
  }

  lemma RunnableIsClosed(scripts: Scripts)
    requires Runnable(scripts)
    ensures Closed(PlanOf(scripts)) && PlanOf(scripts).Keys == scripts.Keys
  {
    assert PlanOf(scripts).Keys == scripts.Keys;
    assert forall r :: r in scripts ==> Known(scripts[r], scripts.Keys) && PlanOf(scripts)[r] == RunsOf(scripts[r]);
  }

  /** A lock held further up, by the process at this level of the chain. */
  datatype Held = Held(record: Record, level: nat)

  function Records(held: seq<Held>): set<Record> {
    set h | h in held :: h.record
  }

  /** The locks of one chain: distinct records, from the outside in, above the running level. */
  predicate Stacked(held: seq<Held>, level: nat) {
    && (forall i :: 0 <= i < |held| ==> held[i].level < level)
    && (forall i, j :: 0 <= i < j < |held| ==> held[i].level < held[j].level && held[i].record != held[j].record)
  }

  function LevelOf(held: seq<Held>, r: Record): (level: nat)
    requires r in Records(held)
    ensures Held(r, level) in held
  {
    if held[0].record == r then held[0].level
    else
      assert held == [held[0]] + held[1..];
      LevelOf(held[1..], r)
  }

  /** The process at a level of the chain, the outermost first. */
  function PidAt(level: nat): Pid {
    level + 2
  }

  /** What hm_cache_lock does at this level. */
  function Attempted(held: seq<Held>, level: nat, r: Record): Attempt {
    if r !in Records(held) then Acquired
    else if level - LevelOf(held, r) - 1 < MAX_WALK then Refused
    else Blocks(PidAt(LevelOf(held, r)))
  }

  /** How a run ends; one that waits for a lock held above itself, by a process that waits for
      it, waits forever. */
  datatype End = Succeeded | Failed | Stuck

  /** The result of one hacman run, and the records that are up to date afterwards, in the order
      in which they were completed. */
  datatype Outcome = Outcome(end: End, done: seq<Record>)

  /** hacman on record `r` at some level below setups that hold the locks in `held`; nothing is
      due when the record is done. What decreases is the number of unheld records. */
  ghost function SetUp(scripts: Scripts, held: seq<Held>, level: nat, done: seq<Record>, r: Record): Outcome
    requires Runnable(scripts) && r in scripts && Records(held) <= scripts.Keys && Stacked(held, level)
    decreases scripts.Keys - Records(held), 1, Stop(true)
  {
    if r in done then Outcome(Succeeded, done)
    else
      match Attempted(held, level, r)
      case Refused => Outcome(Failed, done)
      case Blocks(_) => Outcome(Stuck, done)
      case Acquired =>
        TakesOne(scripts.Keys, held, level, r);
        var inner := Proceed(scripts, held + [Held(r, level)], level, done, scripts[r]);
        if inner.end.Succeeded? then Outcome(Succeeded, inner.done + [r]) else inner
  }

  /** The script of the run at this level, from here on. */
  ghost function Proceed(scripts: Scripts, held: seq<Held>, level: nat, done: seq<Record>, script: Script): Outcome
    requires Runnable(scripts) && Records(held) <= scripts.Keys && Stacked(held, level + 1)
    requires Known(script, scripts.Keys)
    decreases scripts.Keys - Records(held), 2, script
  {
    match script
    case Stop(zero) => Outcome(if zero then Succeeded else Failed, done)
    case Hacman(n, onSuccess, onFailure) =>
      KnownBelow(script, scripts.Keys);
      var first := SetUp(scripts, held, level + n.between + 1, done, n.record);
      match first.end
      case Succeeded => Proceed(scripts, held, level, first.done, onSuccess)
      case Failed => Proceed(scripts, held, level, first.done, onFailure)
      case Stuck => first
  }

  /** Taking a lock leaves fewer records unheld. */
  lemma TakesOne(all: set<Record>, held: seq<Held>, level: nat, r: Record)
    requires Stacked(held, level) && Records(held) <= all && r in all && r !in Records(held)
    ensures var more := held + [Held(r, level)];
      && Stacked(more, level + 1) && Records(more) == Records(held) + {r} && Records(more) <= all
      && all - Records(more) < all - Records(held)
  {
    OneMoreHeld(held, Held(r, level));
    StillStacked(held, level, r);
    assert r in all - Records(held) && r !in all - Records(held + [Held(r, level)]);
  }

  /** A lock that is taken goes on top of the stack, for every level below. */
  lemma StillStacked(held: seq<Held>, level: nat, r: Record)
    requires Stacked(held, level) && r !in Records(held)
    ensures Stacked(held + [Held(r, level)], level + 1)
  {
    var more := held + [Held(r, level)];
    forall i | 0 <= i < |held|
      ensures more[i].record != r
    {
      assert held[i] in held;
    }
  }

  lemma OneMoreHeld(held: seq<Held>, h: Held)
    ensures Records(held + [h]) == Records(held) + {h.record}
  {
    forall r
      ensures r in Records(held + [h]) <==> r in Records(held) + {h.record}
    {
      assert r == h.record ==> h in held + [h];
      assert r in Records(held) ==> exists x :: x in held && x in held + [h] && x.record == r;
    }
  }

  // ---------- the stack of nested setups is a chain ----------

  /** The chain in which exactly these locks are held, at these levels. */
  ghost predicate Mirrors(c: Chain, held: seq<Held>, level: nat) {
    && |c.levels| == level + 1
    && (forall i :: 0 <= i <= level ==> c.levels[i].pid == PidAt(i))
    && (forall h :: h in held ==> h.level < level && c.levels[h.level].holds == Some(h.record))
    && (forall i :: 0 <= i <= level && c.levels[i].holds.Some? ==> Held(c.levels[i].holds.value, i) in held)
    && c.locks.Keys == Records(held)
    && (forall r :: r in c.locks ==> 2 <= c.locks[r] <= PidAt(level))
  }

  /** The locks below the running level, without those of the level right above it. */
  lemma Unstacked(held: seq<Held>, level: nat)
    requires Stacked(held, level) && level > 0
    ensures held != [] && held[|held| - 1].level == level - 1 ==> Stacked(held[..|held| - 1], level - 1)
    ensures held == [] || held[|held| - 1].level < level - 1 ==> Stacked(held, level - 1)
  {
  }

  lemma SpawnMirrors(c: Chain, held: seq<Held>, level: nat)
    requires Mirrors(c, held, level)
    ensures Apply(c, Spawn(PidAt(level + 1))).Some?
    ensures Mirrors(Apply(c, Spawn(PidAt(level + 1))).value, held, level + 1)
  {
    assert PidAt(level + 1) !in c.locks.Values;
  }

  lemma TopIsFree(c: Chain, held: seq<Held>, level: nat)
    requires Mirrors(c, held, level)
    ensures c.levels[level].holds.None?
  {
  }

  /** Winning a free lock and then starting the next process. */
  lemma LockMirrors(c: Chain, held: seq<Held>, level: nat, r: Record)
    requires Mirrors(c, held, level) && r !in Records(held)
    ensures Apply(c, Lock(r)).Some?
    ensures Apply(Apply(c, Lock(r)).value, Spawn(PidAt(level + 1))).Some?
    ensures Mirrors(Apply(Apply(c, Lock(r)).value, Spawn(PidAt(level + 1))).value, held + [Held(r, level)], level + 1)
  {
    TopIsFree(c, held, level);
    var t := Apply(c, Lock(r)).value;
    assert PidAt(level + 1) !in t.locks.Values;
    OneMoreHeld(held, Held(r, level));
    var more := held + [Held(r, level)];
    assert forall h :: h in held ==> h in more;
    assert Held(r, level) in more;
  }

  lemma {:induction false} RunOneMore(start: Chain, events: seq<Event>, e: Event)
    requires Run(start, events).Some? && Apply(Run(start, events).value, e).Some?
    ensures Run(start, events + [e]) == Apply(Run(start, events).value, e)
  {
    assert (events + [e])[..|events|] == events;
  }

  /** The runs that lead to a chain with these locks. */
  ghost predicate Leads(events: seq<Event>, held: seq<Held>, level: nat) {
    Run(Alone(PidAt(0)), events).Some? && Mirrors(Run(Alone(PidAt(0)), events).value, held, level)
  }

  lemma SpawnLeads(events: seq<Event>, held: seq<Held>, level: nat)
    requires Leads(events, held, level)
    ensures Leads(events + [Spawn(PidAt(level + 1))], held, level + 1)
  {
    SpawnMirrors(Run(Alone(PidAt(0)), events).value, held, level);
    RunOneMore(Alone(PidAt(0)), events, Spawn(PidAt(level + 1)));
  }

  lemma LockLeads(events: seq<Event>, held: seq<Held>, level: nat, r: Record)
    requires Leads(events, held, level) && r !in Records(held)
    ensures Leads(events + [Lock(r)] + [Spawn(PidAt(level + 1))], held + [Held(r, level)], level + 1)
  {
    LockMirrors(Run(Alone(PidAt(0)), events).value, held, level, r);
    RunOneMore(Alone(PidAt(0)), events, Lock(r));
    RunOneMore(Alone(PidAt(0)), events + [Lock(r)], Spawn(PidAt(level + 1)));
  }

  lemma AloneLeads(held: seq<Held>)
    requires Stacked(held, 0)
    ensures Leads([], held, 0)
  {
    assert |held| > 0 ==> held[0].level < 0;
    assert Records([]) == {};
  }

  lemma TopLeads(held: seq<Held>, level: nat, less: seq<Event>) returns (events: seq<Event>)
    requires Stacked(held, level) && level > 0 && held != [] && held[|held| - 1].level == level - 1
    requires Leads(less, held[..|held| - 1], level - 1)
    ensures Leads(events, held, level)
  {
    var top := held[|held| - 1];
    NotHeldBelow(held);
    LastOnTop(held);
    LockLeads(less, held[..|held| - 1], level - 1, top.record);
    events := less + [Lock(top.record)] + [Spawn(PidAt(level))];
  }

  lemma LastOnTop(held: seq<Held>)
    requires held != []
    ensures var top := held[|held| - 1]; held == held[..|held| - 1] + [Held(top.record, top.level)]
  {
  }

  /** Every stack of nested setups is a run of the chain machine. */
  lemma {:induction false} StackIsAChain(held: seq<Held>, level: nat) returns (events: seq<Event>)
    requires Stacked(held, level)
    ensures Leads(events, held, level)
    decreases level, 1
  {
    if level == 0 {
      AloneLeads(held);
      events := [];
    } else if held != [] && held[|held| - 1].level == level - 1 {
      events := LockedStack(held, level);
    } else {
      events := FreeStack(held, level);
    }
  }

  lemma {:induction false} LockedStack(held: seq<Held>, level: nat) returns (events: seq<Event>)
    requires Stacked(held, level) && level > 0 && held != [] && held[|held| - 1].level == level - 1
    ensures Leads(events, held, level)
    decreases level, 0
  {
    Unstacked(held, level);
    var less := StackIsAChain(held[..|held| - 1], level - 1);
    events := TopLeads(held, level, less);
  }

  lemma {:induction false} FreeStack(held: seq<Held>, level: nat) returns (events: seq<Event>)
    requires Stacked(held, level) && level > 0 && (held != [] ==> held[|held| - 1].level < level - 1)
    ensures Leads(events, held, level)
    decreases level, 0
  {
    Unstacked(held, level);
    var less := StackIsAChain(held, level - 1);
    SpawnLeads(less, held, level - 1);
    events := less + [Spawn(PidAt(level))];
  }

  lemma NotHeldBelow(held: seq<Held>)
    requires held != [] && forall i, j :: 0 <= i < j < |held| ==> held[i].record != held[j].record
    ensures held[|held| - 1].record !in Records(held[..|held| - 1])
  {
  }

  /** At every level of nested setups, what SetUp takes hm_cache_lock to do is what it does in the
      chain of processes: the same records are acquired, refused, or waited for. */
  lemma AttemptsAreThoseOfTheChain(held: seq<Held>, level: nat, r: Record) returns (events: seq<Event>)
    requires Stacked(held, level)
    ensures Run(Alone(PidAt(0)), events).Some?
    ensures var c := Run(Alone(PidAt(0)), events).value; Mirrors(c, held, level) && Try(c, r) == Attempted(held, level, r)
  {
    events := StackIsAChain(held, level);
    if r in Records(held) {
      assert Held(r, LevelOf(held, r)) in held;
      NeverWaitsForAnAncestor(PidAt(0), events, LevelOf(held, r));
      Always(PidAt(0), events);
    }
  }

  // ---------- how nested setups end ----------

  /** A chain of setups, each started by the one before it. */
  ghost predicate Path(plan: Plan, p: seq<Nested>) {
    && p != []
    && (forall i :: 0 <= i < |p| ==> p[i].record in plan)
    && (forall i :: 0 <= i < |p| - 1 ==> p[i + 1] in plan[p[i].record])
  }

  ghost predicate Repeats(p: seq<Nested>) {
    exists i, j :: 0 <= i < j < |p| && p[i].record == p[j].record
  }

  /** A chain of setups from `r` that comes back to a record it has started. */
  ghost predicate Loops(plan: Plan, p: seq<Nested>, r: Record) {
    Path(plan, p) && p[0].record == r && Repeats(p)
  }

  ghost predicate Sound(plan: Plan, r: Record) {
    !exists p: seq<Nested> :: Loops(plan, p, r)
  }

  ghost predicate Connects(plan: Plan, p: seq<Nested>, a: Record, b: Record) {
    Path(plan, p) && |p| >= 2 && p[0].record == a && p[|p| - 1].record == b
  }

  ghost predicate Reaches(plan: Plan, a: Record, b: Record) {
    exists p: seq<Nested> :: Connects(plan, p, a, b)
  }

  /** The first nested run of a script from which some chain comes back. */
  ghost function FirstUnsound(plan: Plan, rs: seq<Nested>): (n: Nested)
    requires exists i :: 0 <= i < |rs| && !Sound(plan, rs[i].record)
    ensures n in rs && !Sound(plan, n.record)
  {
    if !Sound(plan, rs[0].record) then rs[0]
    else
      assert exists i :: 0 <= i < |rs[1..]| && !Sound(plan, rs[1..][i].record) by {
        var i :| 0 <= i < |rs| && !Sound(plan, rs[i].record);
        assert rs[1..][i - 1] == rs[i];
      }
      FirstUnsound(plan, rs[1..])
  }

  lemma PathPrepend(plan: Plan, r: Record, p: seq<Nested>)
    requires r in plan && Path(plan, p) && p[0] in plan[r]
    ensures Path(plan, [Nested(r, 0)] + p)
  {
    var q := [Nested(r, 0)] + p;
    forall i | 0 <= i < |q| - 1
      ensures q[i + 1] in plan[q[i].record]
    {
      assert i > 0 ==> q[i] == p[i - 1];
      assert q[i + 1] == p[i];
    }
  }

  lemma PathAppend(plan: Plan, p: seq<Nested>, n: Nested)
    requires Closed(plan) && Path(plan, p) && n in plan[p[|p| - 1].record]
    ensures Path(plan, p + [n])
  {
    var q := p + [n];
    var j :| 0 <= j < |plan[p[|p| - 1].record]| && plan[p[|p| - 1].record][j] == n;
    forall i | 0 <= i < |q| - 1
      ensures q[i + 1] in plan[q[i].record]
    {
      if i < |p| - 1 {
        assert q[i] == p[i] && q[i + 1] == p[i + 1];
      }
    }
  }

  /** What starts an unsound run is unsound. */
  lemma UnsoundAbove(plan: Plan, r: Record, n: Nested)
    requires r in plan && n in plan[r] && !Sound(plan, n.record)
    ensures !Sound(plan, r)
  {
    var p: seq<Nested> :| Loops(plan, p, n.record);
    var q := StartedBy(plan, n, p);
    PathPrepend(plan, r, q);
    RepeatsBelow(Nested(r, 0), q);
    var longer := [Nested(r, 0)] + q;
    assert Loops(plan, longer, r);
  }

  /** The same chain, entered by the run `n` of its first record. */
  lemma StartedBy(plan: Plan, n: Nested, p: seq<Nested>) returns (q: seq<Nested>)
    requires Path(plan, p) && p[0].record == n.record && Repeats(p)
    ensures Path(plan, q) && q[0] == n && Repeats(q)
  {
    q := [n] + p[1..];
    assert forall k :: 0 <= k < |q| ==> q[k].record == p[k].record;
    assert forall k :: 0 < k < |q| ==> q[k] == p[k];
    var i, j :| 0 <= i < j < |p| && p[i].record == p[j].record;
    assert q[i].record == q[j].record;
  }

  lemma RepeatsBelow(m: Nested, q: seq<Nested>)
    requires Repeats(q)
    ensures Repeats([m] + q)
  {
    var i, j :| 0 <= i < j < |q| && q[i].record == q[j].record;
    var longer := [m] + q;
    assert longer[i + 1] == q[i] && longer[j + 1] == q[j];
    assert longer[i + 1].record == longer[j + 1].record;
  }

  /** And an unsound record starts an unsound run. */
  lemma UnsoundBelow(plan: Plan, r: Record)
    requires Closed(plan) && r in plan && !Sound(plan, r)
    ensures exists i :: 0 <= i < |plan[r]| && !Sound(plan, plan[r][i].record)
  {
    var p: seq<Nested> :| Loops(plan, p, r);
    var i, j :| 0 <= i < j < |p| && p[i].record == p[j].record;
    if i > 0 {
      LoopBelow(plan, p, i, j);
    } else {
      LoopAround(plan, p, j);
    }
    assert p[1] in plan[p[0].record];
    var k :| 0 <= k < |plan[r]| && plan[r][k] == p[1];
    assert !Sound(plan, plan[r][k].record);
  }

  lemma LoopBelow(plan: Plan, p: seq<Nested>, i: nat, j: nat)
    requires Path(plan, p) && 0 < i < j < |p| && p[i].record == p[j].record
    ensures !Sound(plan, p[1].record)
  {
    var q := p[1..];
    PathPart(plan, p, 1, |p|);
    assert p[1..|p|] == q;
    assert q[i - 1].record == q[j - 1].record;
    assert Loops(plan, q, p[1].record);
  }

  lemma LoopAround(plan: Plan, p: seq<Nested>, j: nat)
    requires Closed(plan) && Path(plan, p) && 0 < j < |p| && p[0].record == p[j].record
    ensures !Sound(plan, p[1].record)
  {
    var loop := p[1..j + 1];
    assert loop[|loop| - 1] == p[j];
    PathPart(plan, p, 1, j + 1);
    assert p[1] in plan[p[0].record];
    PathAppend(plan, loop, p[1]);
    var q := loop + [p[1]];
    assert q[0] == p[1] && q[|q| - 1] == p[1];
    assert q[0].record == q[|q| - 1].record;
    assert Loops(plan, q, p[1].record);
  }

  lemma PathPart(plan: Plan, p: seq<Nested>, i: nat, j: nat)
    requires Path(plan, p) && i < j <= |p|
    ensures Path(plan, p[i..j])
  {
    var q := p[i..j];
    forall k | 0 <= k < |q| - 1
      ensures q[k + 1] in plan[q[k].record]
    {
      assert q[k] == p[i + k] && q[k + 1] == p[i + k + 1];
    }
  }

  /** How an unsound run ends: follow the first unsound nested run of every script until one asks
      for a record that is already held. */
  ghost function Ends(plan: Plan, held: seq<Held>, level: nat, r: Record): End
    requires Closed(plan) && r in plan && Records(held) <= plan.Keys && !Sound(plan, r) && Stacked(held, level)
    decreases plan.Keys - Records(held)
  {
    match Attempted(held, level, r)
    case Refused => Failed
    case Blocks(_) => Stuck
    case Acquired =>
      TakesOne(plan.Keys, held, level, r);
      UnsoundBelow(plan, r);
      var n := FirstUnsound(plan, plan[r]);
      Ends(plan, held + [Held(r, level)], level + n.between + 1, n.record)
  }

  /** Completed records depend only on records completed before them. */
  ghost predicate Ordered(plan: Plan, done: seq<Record>) {
    forall k, n :: 0 <= k < |done| && done[k] in plan && n in plan[done[k]] ==> n.record in done[..k]
  }

  /** Every setup whose lock is held leads to this run. */
  ghost predicate AllReach(plan: Plan, held: seq<Held>, r: Record) {
    forall h :: h in held ==> Reaches(plan, h.record, r)
  }

  lemma ReachesChild(plan: Plan, held: seq<Held>, level: nat, r: Record, n: Nested)
    requires Closed(plan) && r in plan && n in plan[r] && AllReach(plan, held, r)
    ensures AllReach(plan, held + [Held(r, level)], n.record)
  {
    var i :| 0 <= i < |plan[r]| && plan[r][i] == n;
    assert Connects(plan, [Nested(r, 0), n], r, n.record);
    forall h | h in held
      ensures Reaches(plan, h.record, n.record)
    {
      var p: seq<Nested> :| Connects(plan, p, h.record, r);
      PathAppend(plan, p, n);
      assert Connects(plan, p + [n], h.record, n.record);
    }
  }

  /** A record on the stack above its own run is unsound. */
  lemma HeldIsUnsound(plan: Plan, held: seq<Held>, r: Record)
    requires AllReach(plan, held, r) && r in Records(held)
    ensures !Sound(plan, r)
  {
    assert Held(r, LevelOf(held, r)) in held;
    var p: seq<Nested> :| Connects(plan, p, r, r);
    assert Repeats(p);
    assert Loops(plan, p, r);
  }

  /** Along a path from a completed record, completion order only goes down. */
  lemma {:induction false} CompletedPathsDescend(plan: Plan, done: seq<Record>, p: seq<Nested>, k: nat, j: nat)
    requires Ordered(plan, done) && Path(plan, p)
    requires k < |done| && p[0].record == done[k] && 0 < j < |p|
    ensures p[j].record in done[..k]
  {
    if j == 1 {
      assert p[1] in plan[p[0].record];
    } else {
      CompletedPathsDescend(plan, done, p, k, j - 1);
      var m :| 0 <= m < k && done[m] == p[j - 1].record;
      assert p[j] in plan[p[j - 1].record];
      assert p[j].record in done[..m];
    }
  }

  /** The first completion of a record. */
  lemma FirstPlace(done: seq<Record>, r: Record) returns (k: nat)
    requires r in done
    ensures k < |done| && done[k] == r && r !in done[..k]
  {
    k := 0;
    while done[k] != r
      invariant k < |done| && r !in done[..k] && r in done[k..]
      decreases |done| - k
    {
      k := k + 1;
    }
  }

  lemma CompletedPlacesDiffer(plan: Plan, done: seq<Record>, p: seq<Nested>, i: nat, j: nat)
    requires Ordered(plan, done) && Path(plan, p) && p[0].record in done && i < j < |p|
    ensures p[i].record != p[j].record
  {
    if i > 0 {
      var k0 := FirstPlace(done, p[0].record);
      CompletedPathsDescend(plan, done, p, k0, i);
    }
    assert p[i].record in done;
    var k := FirstPlace(done, p[i].record);
    PathPart(plan, p, i, |p|);
    assert p[i..][j - i] == p[j];
    CompletedPathsDescend(plan, done, p[i..], k, j - i);
  }

  lemma CompletedIsSound(plan: Plan, done: seq<Record>, r: Record)
    requires Ordered(plan, done) && r in done
    ensures Sound(plan, r)
  {
    forall p: seq<Nested> | Path(plan, p) && p[0].record == r
      ensures !Loops(plan, p, r)
    {
      forall i, j | 0 <= i < j < |p|
        ensures p[i].record != p[j].record
      {
        CompletedPlacesDiffer(plan, done, p, i, j);
      }
    }
  }

  lemma CompletesInOrder(plan: Plan, done: seq<Record>, r: Record)
    requires Ordered(plan, done) && (r in plan ==> forall n :: n in plan[r] ==> n.record in done)
    ensures Ordered(plan, done + [r])
  {
    var more := done + [r];
    forall k, n | 0 <= k < |more| && more[k] in plan && n in plan[more[k]]
      ensures n.record in more[..k]
    {
      if k < |done| {
        assert more[..k] == done[..k];
      } else {
        assert more[..k] == done;
      }
    }
  }

  /** What a run of nested setups amounts to, besides how it ends. */
  ghost predicate Completes(plan: Plan, done: seq<Record>, out: Outcome) {
    done <= out.done && Ordered(plan, out.done)
  }

  /** How a run of strict scripts ends. */
  ghost predicate RunEnds(scripts: Scripts, held: seq<Held>, level: nat, done: seq<Record>, r: Record)
    requires Runnable(scripts) && r in scripts && Records(held) <= scripts.Keys && Stacked(held, level)
  {
    RunnableIsClosed(scripts);
    var plan, out := PlanOf(scripts), SetUp(scripts, held, level, done, r);
    && out.end == (if Sound(plan, r) then Succeeded else Ends(plan, held, level, r))
    && Completes(plan, done, out) && (out.end.Succeeded? ==> r in out.done)
  }

  /** When every nested run is fatal, a run ends well if its record is sound, and else as the first
      unsound chain of nested runs ends; either way records are completed only after everything
      they start. */
  lemma {:induction false} SetUpEnds(scripts: Scripts, held: seq<Held>, level: nat, done: seq<Record>, r: Record)
    requires Runnable(scripts) && r in scripts && Records(held) <= scripts.Keys && Stacked(held, level)
    requires AllStrict(scripts) && Ordered(PlanOf(scripts), done) && AllReach(PlanOf(scripts), held, r)
    ensures RunEnds(scripts, held, level, done, r)
    decreases scripts.Keys - Records(held), 1, Stop(true)
  {
    var plan := PlanOf(scripts);
    RunnableIsClosed(scripts);
    if r in done {
      CompletedIsSound(plan, done, r);
    } else if r in Records(held) {
      HeldIsUnsound(plan, held, r);
    } else {
      var more := held + [Held(r, level)];
      TakesOne(scripts.Keys, held, level, r);
      forall n: Nested | n in plan[r]
        ensures AllReach(plan, more, n.record)
      {
        ReachesChild(plan, held, level, r, n);
      }
      ProceedEnds(scripts, more, level, done, scripts[r]);
      if Sound(plan, r) {
        SoundAcquiredEnds(scripts, held, level, done, r);
      } else {
        UnsoundAcquiredEnds(scripts, held, level, done, r);
      }
    }
  }

  ghost predicate AllSound(plan: Plan, rs: seq<Nested>) {
    forall i :: 0 <= i < |rs| ==> Sound(plan, rs[i].record)
  }

  /** How a script ends. */
  ghost function ScriptEnds(plan: Plan, held: seq<Held>, level: nat, rs: seq<Nested>): End
    requires Stacked(held, level + 1)
    requires Closed(plan) && Records(held) <= plan.Keys && forall i :: 0 <= i < |rs| ==> rs[i].record in plan
  {
    if AllSound(plan, rs) then Succeeded
    else
      var n := FirstUnsound(plan, rs);
      Ends(plan, held, level + n.between + 1, n.record)
  }

  /** A sound record is completed when its script is done. */
  lemma {:induction false} SoundAcquiredEnds(scripts: Scripts, held: seq<Held>, level: nat, done: seq<Record>, r: Record)
    requires Runnable(scripts) && r in scripts && Records(held) <= scripts.Keys && Stacked(held, level)
    requires r !in done && r !in Records(held) && Sound(PlanOf(scripts), r)
    requires var more := held + [Held(r, level)];
      Records(more) <= scripts.Keys && Stacked(more, level + 1) && ScriptRuns(scripts, more, level, done, scripts[r])
    ensures RunEnds(scripts, held, level, done, r)
  {
    RunnableIsClosed(scripts);
    SoundBelow(PlanOf(scripts), r);
    var inner := Proceed(scripts, held + [Held(r, level)], level, done, scripts[r]);
    assert inner.end.Succeeded?;
    CompletesInOrder(PlanOf(scripts), inner.done, r);
    assert SetUp(scripts, held, level, done, r) == Outcome(Succeeded, inner.done + [r]);
  }

  /** An unsound one ends as its script does. */
  lemma {:induction false} UnsoundAcquiredEnds(scripts: Scripts, held: seq<Held>, level: nat, done: seq<Record>, r: Record)
    requires Runnable(scripts) && r in scripts && Records(held) <= scripts.Keys && Stacked(held, level)
    requires r !in done && r !in Records(held) && !Sound(PlanOf(scripts), r)
    requires var more := held + [Held(r, level)];
      Records(more) <= scripts.Keys && Stacked(more, level + 1) && ScriptRuns(scripts, more, level, done, scripts[r])
    ensures RunEnds(scripts, held, level, done, r)
  {
    RunnableIsClosed(scripts);
    var plan, more := PlanOf(scripts), held + [Held(r, level)];
    var inner := Proceed(scripts, more, level, done, scripts[r]);
    UnsoundScript(plan, held, level, r);
    assert SetUp(scripts, held, level, done, r) == inner;
  }

  lemma {:induction false} UnsoundScript(plan: Plan, held: seq<Held>, level: nat, r: Record)
    requires Closed(plan) && r in plan && Records(held) <= plan.Keys && Stacked(held, level)
    requires r !in Records(held) && !Sound(plan, r)
    requires var more := held + [Held(r, level)]; Records(more) <= plan.Keys && Stacked(more, level + 1)
    ensures ScriptEnds(plan, held + [Held(r, level)], level, plan[r]) == Ends(plan, held, level, r)
    ensures !Ends(plan, held, level, r).Succeeded?
  {
    UnsoundBelow(plan, r);
    UnsoundNeverSucceeds(plan, held, level, r);
  }

  lemma SoundBelow(plan: Plan, r: Record)
    requires r in plan && Sound(plan, r)
    ensures AllSound(plan, plan[r])
  {
    forall i | 0 <= i < |plan[r]|
      ensures Sound(plan, plan[r][i].record)
    {
      if !Sound(plan, plan[r][i].record) {
        UnsoundAbove(plan, r, plan[r][i]);
      }
    }
  }

  /** A script ends as ScriptEnds says, and completes records in order. */
  ghost predicate ScriptRuns(scripts: Scripts, held: seq<Held>, level: nat, done: seq<Record>, script: Script)
    requires Runnable(scripts) && Records(held) <= scripts.Keys && Stacked(held, level + 1)
    requires Known(script, scripts.Keys)
  {
    RunnableIsClosed(scripts);
    var plan, out := PlanOf(scripts), Proceed(scripts, held, level, done, script);
    && out.end == ScriptEnds(plan, held, level, RunsOf(script))
    && Completes(plan, done, out) && (out.end.Succeeded? ==> AllDone(RunsOf(script), out.done))
  }

  predicate AllDone(rs: seq<Nested>, done: seq<Record>) {
    forall i :: 0 <= i < |rs| ==> rs[i].record in done
  }

  lemma AllDoneCons(rs: seq<Nested>, first: seq<Record>, done: seq<Record>)
    requires rs != [] && rs[0].record in first && first <= done && AllDone(rs[1..], done)
    ensures AllDone(rs, done)
  {
    var k :| 0 <= k < |first| && first[k] == rs[0].record;
    assert done[k] == rs[0].record;
    forall i | 0 <= i < |rs|
      ensures rs[i].record in done
    {
      assert i > 0 ==> rs[i] == rs[1..][i - 1];
    }
  }

  /** The runs of a strict script are a list. */
  lemma {:induction false} StrictRuns(script: Script)
    requires Strict(script) && script.Hacman?
    ensures var rs := RunsOf(script); rs != [] && rs[0] == script.n && rs[1..] == RunsOf(script.onSuccess)
  {
    assert RunsOf(script) == [script.n] + RunsOf(script.onSuccess);
  }

  lemma {:induction false} ProceedEnds(scripts: Scripts, held: seq<Held>, level: nat, done: seq<Record>, script: Script)
    requires Runnable(scripts) && Records(held) <= scripts.Keys && Stacked(held, level + 1)
    requires AllStrict(scripts) && Strict(script) && Known(script, scripts.Keys) && Ordered(PlanOf(scripts), done)
    requires forall n :: n in RunsOf(script) ==> AllReach(PlanOf(scripts), held, n.record)
    ensures ScriptRuns(scripts, held, level, done, script)
    decreases scripts.Keys - Records(held), 2, script
  {
    if script.Hacman? {
      KnownBelow(script, scripts.Keys);
      StrictRuns(script);
      var n := script.n;
      assert n in RunsOf(script);
      SetUpEnds(scripts, held, level + n.between + 1, done, n.record);
      if Sound(PlanOf(scripts), n.record) {
        var first := SetUp(scripts, held, level + n.between + 1, done, n.record);
        ProceedEnds(scripts, held, level, first.done, script.onSuccess);
        SoundFirst(scripts, held, level, done, script);
      } else {
        UnsoundFirst(scripts, held, level, done, script);
      }
    }
  }

  lemma {:induction false} SoundFirst(scripts: Scripts, held: seq<Held>, level: nat, done: seq<Record>, script: Script)
    requires Runnable(scripts) && Records(held) <= scripts.Keys && Stacked(held, level + 1)
    requires script.Hacman? && Strict(script) && Known(script, scripts.Keys) && Known(script.onSuccess, scripts.Keys)
    requires script.n.record in scripts && Sound(PlanOf(scripts), script.n.record)
    requires RunEnds(scripts, held, level + script.n.between + 1, done, script.n.record)
    requires var first := SetUp(scripts, held, level + script.n.between + 1, done, script.n.record);
      ScriptRuns(scripts, held, level, first.done, script.onSuccess)
    ensures ScriptRuns(scripts, held, level, done, script)
  {
    RunnableIsClosed(scripts);
    StrictRuns(script);
    ScriptCons(PlanOf(scripts), held, level, RunsOf(script));
    var first := SetUp(scripts, held, level + script.n.between + 1, done, script.n.record);
    GoesOn(scripts, held, level, done, script);
    var out := Proceed(scripts, held, level, first.done, script.onSuccess);
    if out.end.Succeeded? {
      AllDoneCons(RunsOf(script), first.done, out.done);
    }
  }

  lemma GoesOn(scripts: Scripts, held: seq<Held>, level: nat, done: seq<Record>, script: Script)
    requires Runnable(scripts) && Records(held) <= scripts.Keys && Stacked(held, level + 1)
    requires script.Hacman? && Known(script, scripts.Keys) && Known(script.onSuccess, scripts.Keys)
    requires script.n.record in scripts
    ensures var first := SetUp(scripts, held, level + script.n.between + 1, done, script.n.record);
      && (first.end.Succeeded? ==>
            Proceed(scripts, held, level, done, script) == Proceed(scripts, held, level, first.done, script.onSuccess))
      && (!first.end.Succeeded? && script.onFailure == Stop(false) ==>
            Proceed(scripts, held, level, done, script) == first)
  {
  }

  lemma {:induction false} UnsoundFirst(scripts: Scripts, held: seq<Held>, level: nat, done: seq<Record>, script: Script)
    requires Runnable(scripts) && Records(held) <= scripts.Keys && Stacked(held, level + 1)
    requires script.Hacman? && Strict(script) && Known(script, scripts.Keys) && Known(script.onSuccess, scripts.Keys)
    requires script.n.record in scripts && !Sound(PlanOf(scripts), script.n.record)
    requires RunEnds(scripts, held, level + script.n.between + 1, done, script.n.record)
    ensures ScriptRuns(scripts, held, level, done, script)
  {
    RunnableIsClosed(scripts);
    StrictRuns(script);
    StopsAtFirst(scripts, held, level, done, script);
    FirstIsFirst(PlanOf(scripts), held, level, RunsOf(script));
  }

  lemma {:induction false} StopsAtFirst(scripts: Scripts, held: seq<Held>, level: nat, done: seq<Record>, script: Script)
    requires Runnable(scripts) && Records(held) <= scripts.Keys && Stacked(held, level + 1)
    requires script.Hacman? && script.onFailure == Stop(false)
    requires Known(script, scripts.Keys) && Known(script.onSuccess, scripts.Keys)
    requires script.n.record in scripts && !Sound(PlanOf(scripts), script.n.record)
    requires RunEnds(scripts, held, level + script.n.between + 1, done, script.n.record)
    ensures var first := SetUp(scripts, held, level + script.n.between + 1, done, script.n.record);
      !first.end.Succeeded? && Proceed(scripts, held, level, done, script) == first
  {
    RunnableIsClosed(scripts);
    UnsoundNeverSucceeds(PlanOf(scripts), held, level + script.n.between + 1, script.n.record);
    GoesOn(scripts, held, level, done, script);
  }

  lemma {:induction false} FirstIsFirst(plan: Plan, held: seq<Held>, level: nat, rs: seq<Nested>)
    requires Stacked(held, level + 1)
    requires Closed(plan) && Records(held) <= plan.Keys && forall i :: 0 <= i < |rs| ==> rs[i].record in plan
    requires rs != [] && !Sound(plan, rs[0].record)
    ensures ScriptEnds(plan, held, level, rs) == Ends(plan, held, level + rs[0].between + 1, rs[0].record)
  {
  }

  lemma {:induction false} UnsoundNeverSucceeds(plan: Plan, held: seq<Held>, level: nat, r: Record)
    requires Closed(plan) && r in plan && Records(held) <= plan.Keys && !Sound(plan, r) && Stacked(held, level)
    ensures !Ends(plan, held, level, r).Succeeded?
    decreases plan.Keys - Records(held)
  {
    if r !in Records(held) {
      TakesOne(plan.Keys, held, level, r);
      var n := NextFault(plan, held, level, r);
      UnsoundNeverSucceeds(plan, held + [Held(r, level)], level + n.between + 1, n.record);
    }
  }

  lemma ScriptCons(plan: Plan, held: seq<Held>, level: nat, rs: seq<Nested>)
    requires Stacked(held, level + 1)
    requires Closed(plan) && Records(held) <= plan.Keys && forall i :: 0 <= i < |rs| ==> rs[i].record in plan
    requires rs != [] && Sound(plan, rs[0].record)
    ensures ScriptEnds(plan, held, level, rs) == ScriptEnds(plan, held, level, rs[1..])
  {
    assert forall i :: 0 < i < |rs| ==> rs[i] == rs[1..][i - 1];
    if AllSound(plan, rs[1..]) {
    } else {
      var i :| 0 <= i < |rs[1..]| && !Sound(plan, rs[1..][i].record);
      assert !Sound(plan, rs[i + 1].record);
    }
  }

  /** Nested setups, from an empty cache, when every nested run is fatal: the outermost run succeeds
      exactly when no project can reach itself through the setups it starts; otherwise it ends as
      its first unsound chain of nested runs does. */
  lemma {:induction false} NestingEndsExactly(scripts: Scripts, r: Record)
    requires Runnable(scripts) && r in scripts && AllStrict(scripts)
    ensures Closed(PlanOf(scripts)) && r in PlanOf(scripts)
    ensures var end := SetUp(scripts, [], 0, [], r).end;
      && end == (if Sound(PlanOf(scripts), r) then Succeeded else Ends(PlanOf(scripts), [], 0, r))
      && (end.Succeeded? <==> Sound(PlanOf(scripts), r))
  {
    RunnableIsClosed(scripts);
    SetUpEnds(scripts, [], 0, [], r);
    if !Sound(PlanOf(scripts), r) {
      UnsoundNeverSucceeds(PlanOf(scripts), [], 0, r);
    }
  }

  // ---------- when nested setups hang ----------

  /** How many levels below its first record a path leads. */
  function Depth(p: seq<Nested>, j: nat): (depth: nat)
    requires j < |p|
  {
    if j == 0 then 0 else Depth(p, j - 1) + p[j].between + 1
  }

  lemma {:induction false} DepthGrows(p: seq<Nested>, i: nat, j: nat)
    requires i < j < |p|
    ensures Depth(p, i) < Depth(p, j)
  {
    if i < j - 1 {
      DepthGrows(p, i, j - 1);
    }
  }

  /** The number of processes between the i-th and the j-th hacman of a path. */
  function Between(p: seq<Nested>, i: nat, j: nat): nat
    requires i < j < |p|
  {
    DepthGrows(p, i, j);
    Depth(p, j) - Depth(p, i) - 1
  }

  /** A chain of nested runs whose last record is the first that it comes back to, at the i-th. */
  ghost predicate Returns(plan: Plan, p: seq<Nested>, i: nat) {
    && Path(plan, p) && i < |p| - 1 && p[i].record == p[|p| - 1].record
    && forall a, b :: 0 <= a < b < |p| - 1 ==> p[a].record != p[b].record
  }

  /** Some chain of nested runs comes back to a record past the reach of the ancestor check. */
  ghost predicate ComesBackFar(plan: Plan, r: Record) {
    exists p: seq<Nested>, i: nat :: Returns(plan, p, i) && p[0].record == r && Between(p, i, |p| - 1) >= 256
  }

  /** `n` is the first nested run of this script that cannot succeed. */
  ghost predicate FirstFault(plan: Plan, r: Record, n: Nested) {
    && r in plan && !Sound(plan, n.record)
    && exists j :: 0 <= j < |plan[r]| && plan[r][j] == n && AllSound(plan, plan[r][..j])
  }

  /** At every step the chain takes the first nested run that cannot succeed. */
  ghost predicate TakesFirstFaults(plan: Plan, p: seq<Nested>) {
    forall k :: 0 <= k < |p| - 1 ==> FirstFault(plan, p[k].record, p[k + 1])
  }

  lemma {:induction false} FirstUnsoundFirst(plan: Plan, rs: seq<Nested>) returns (j: nat)
    requires exists i :: 0 <= i < |rs| && !Sound(plan, rs[i].record)
    ensures j < |rs| && rs[j] == FirstUnsound(plan, rs) && AllSound(plan, rs[..j])
  {
    if !Sound(plan, rs[0].record) {
      j := 0;
    } else {
      var i :| 0 <= i < |rs| && !Sound(plan, rs[i].record);
      assert rs[1..][i - 1] == rs[i];
      var k := FirstUnsoundFirst(plan, rs[1..]);
      j := k + 1;
      assert forall x :: 0 < x < j ==> rs[..j][x] == rs[1..][..k][x - 1];
    }
  }

  /** The locks taken along a path, up to the run at its end. */
  predicate Along(p: seq<Nested>, held: seq<Held>, level: nat) {
    && |p| == |held| + 1 && level == Depth(p, |held|)
    && (forall i :: 0 <= i < |held| ==> held[i] == Held(p[i].record, Depth(p, i)))
    && Stacked(held, level)
  }

  lemma {:induction false} DepthAppend(p: seq<Nested>, m: Nested, i: nat)
    requires i < |p|
    ensures Depth(p + [m], i) == Depth(p, i)
  {
    if i > 0 {
      DepthAppend(p, m, i - 1);
    }
  }

  lemma AlongAppend(p: seq<Nested>, held: seq<Held>, level: nat, m: Nested)
    requires Along(p, held, level) && p[|held|].record !in Records(held)
    ensures Along(p + [m], held + [Held(p[|held|].record, level)], level + m.between + 1)
  {
    forall i | 0 <= i < |p|
      ensures Depth(p + [m], i) == Depth(p, i)
    {
      DepthAppend(p, m, i);
    }
    StillStacked(held, level, p[|held|].record);
  }

  lemma TakesFirstAppend(plan: Plan, p: seq<Nested>, m: Nested)
    requires TakesFirstFaults(plan, p) && p != [] && FirstFault(plan, p[|p| - 1].record, m)
    ensures TakesFirstFaults(plan, p + [m])
  {
    var q := p + [m];
    assert forall k :: 0 <= k < |p| ==> q[k] == p[k];
  }

  /** A run that cannot succeed, at the end of a chain of such runs. */
  ghost predicate Faulty(plan: Plan, p: seq<Nested>, held: seq<Held>, level: nat) {
    && Path(plan, p) && Along(p, held, level) && Records(held) <= plan.Keys
    && !Sound(plan, p[|held|].record) && TakesFirstFaults(plan, p)
  }

  /** An unsound run ends where its chain of first unsound runs comes back: it fails if the
      ancestor check can see that far, and is stuck otherwise. */
  lemma {:induction false} FollowsFirstFaults(plan: Plan, p: seq<Nested>, held: seq<Held>, level: nat)
    returns (q: seq<Nested>, i: nat)
    requires Closed(plan) && Faulty(plan, p, held, level)
    ensures ComesBack(plan, p[0], EndsOf(plan, p, held, level), q, i)
    decreases plan.Keys - Records(held)
  {
    var r := p[|held|].record;
    if r in Records(held) {
      q := p;
      i := HeldEnds(plan, p, held, level);
    } else {
      var more := held + [Held(r, level)];
      var m := FaultBelow(plan, p, held, level);
      FewerLeft(plan.Keys, Records(held), r);
      q, i := FollowsFirstFaults(plan, p + [m], more, level + m.between + 1);
    }
  }

  predicate EndsLike(end: End, q: seq<Nested>, i: nat)
    requires i < |q| - 1
  {
    end == if Between(q, i, |q| - 1) >= 256 then Stuck else Failed
  }

  lemma FewerLeft(all: set<Record>, held: set<Record>, r: Record)
    requires r in all && r !in held
    ensures all - (held + {r}) < all - held
  {
    assert r in all - held;
  }

  /** The chain `q` from `start` comes back to its i-th record, and the run ends accordingly. */
  ghost predicate ComesBack(plan: Plan, start: Nested, end: End, q: seq<Nested>, i: nat) {
    Returns(plan, q, i) && TakesFirstFaults(plan, q) && q[0] == start && EndsLike(end, q, i)
  }

  lemma HeldEnds(plan: Plan, p: seq<Nested>, held: seq<Held>, level: nat) returns (i: nat)
    requires Closed(plan) && Faulty(plan, p, held, level) && p[|held|].record in Records(held)
    ensures ComesBack(plan, p[0], EndsOf(plan, p, held, level), p, i)
  {
    i := HeldAbove(plan, p, held, level);
  }

  /** How the run at the end of a faulty chain ends. */
  ghost function EndsOf(plan: Plan, p: seq<Nested>, held: seq<Held>, level: nat): End
    requires Closed(plan) && Faulty(plan, p, held, level)
  {
    Ends(plan, held, level, p[|held|].record)
  }

  lemma FaultBelow(plan: Plan, p: seq<Nested>, held: seq<Held>, level: nat) returns (m: Nested)
    requires Closed(plan) && Faulty(plan, p, held, level) && p[|held|].record !in Records(held)
    ensures var r := p[|held|].record; var more := held + [Held(r, level)];
      && Records(more) == Records(held) + {r} && Faulty(plan, p + [m], more, level + m.between + 1)
      && EndsOf(plan, p, held, level) == EndsOf(plan, p + [m], more, level + m.between + 1)
  {
    var r := p[|held|].record;
    OneMoreHeld(held, Held(r, level));
    m := NextFault(plan, held, level, r);
    FaultyAppend(plan, p, held, level, m);
  }

  lemma NextFault(plan: Plan, held: seq<Held>, level: nat, r: Record) returns (m: Nested)
    requires Closed(plan) && r in plan && Records(held) <= plan.Keys && Stacked(held, level)
    requires !Sound(plan, r) && r !in Records(held)
    ensures Records(held + [Held(r, level)]) <= plan.Keys && Stacked(held + [Held(r, level)], level + m.between + 1)
    ensures m.record in plan && m in plan[r] && FirstFault(plan, r, m)
    ensures Ends(plan, held, level, r) == Ends(plan, held + [Held(r, level)], level + m.between + 1, m.record)
  {
    TakesOne(plan.Keys, held, level, r);
    m := FaultIn(plan, r);
    EndsBelow(plan, held, level, r, m);
  }

  lemma FaultIn(plan: Plan, r: Record) returns (m: Nested)
    requires Closed(plan) && r in plan && !Sound(plan, r)
    ensures m.record in plan && m in plan[r] && FirstFault(plan, r, m)
    ensures (exists i :: 0 <= i < |plan[r]| && !Sound(plan, plan[r][i].record)) && m == FirstUnsound(plan, plan[r])
  {
    UnsoundBelow(plan, r);
    m := FirstUnsound(plan, plan[r]);
    var j := FirstUnsoundFirst(plan, plan[r]);
  }

  lemma EndsBelow(plan: Plan, held: seq<Held>, level: nat, r: Record, m: Nested)
    requires Closed(plan) && r in plan && Records(held) <= plan.Keys && Stacked(held, level)
    requires !Sound(plan, r) && r !in Records(held)
    requires exists i :: 0 <= i < |plan[r]| && !Sound(plan, plan[r][i].record)
    requires m == FirstUnsound(plan, plan[r]) && m.record in plan
    requires Records(held + [Held(r, level)]) <= plan.Keys && Stacked(held + [Held(r, level)], level + m.between + 1)
    ensures Ends(plan, held, level, r) == Ends(plan, held + [Held(r, level)], level + m.between + 1, m.record)
  {
    assert Attempted(held, level, r) == Acquired;
    var n := FirstUnsound(plan, plan[r]);
    assert n == m;
  }

  lemma FaultyAppend(plan: Plan, p: seq<Nested>, held: seq<Held>, level: nat, m: Nested)
    requires Closed(plan) && Faulty(plan, p, held, level) && p[|held|].record !in Records(held)
    requires Records(held + [Held(p[|held|].record, level)]) <= plan.Keys
    requires m in plan[p[|held|].record] && FirstFault(plan, p[|held|].record, m)
    ensures Faulty(plan, p + [m], held + [Held(p[|held|].record, level)], level + m.between + 1)
  {
    PathAppend(plan, p, m);
    AlongAppend(p, held, level, m);
    TakesFirstAppend(plan, p, m);
  }

  lemma HeldAbove(plan: Plan, p: seq<Nested>, held: seq<Held>, level: nat) returns (i: nat)
    requires Path(plan, p) && Along(p, held, level) && p[|held|].record in Records(held)
    ensures Returns(plan, p, i)
    ensures Attempted(held, level, p[|held|].record).Blocks? <==> Between(p, i, |p| - 1) >= 256
  {
    var r := p[|held|].record;
    i :| 0 <= i < |held| && held[i] == Held(r, LevelOf(held, r));
    assert forall a :: 0 <= a < |held| ==> p[a].record == held[a].record;
  }

  /** Exactly when strict nested setups hang: a run that cannot succeed follows the first unsound
      nested run of every script; where that chain first comes back it fails if fewer than 256
      processes lie in between, and otherwise waits forever for a lock held above itself. */
  lemma NestingHangsExactly(scripts: Scripts, r: Record) returns (p: seq<Nested>, i: nat)
    requires Runnable(scripts) && r in scripts && AllStrict(scripts) && !Sound(PlanOf(scripts), r)
    ensures Returns(PlanOf(scripts), p, i) && TakesFirstFaults(PlanOf(scripts), p) && p[0].record == r
    ensures EndsLike(SetUp(scripts, [], 0, [], r).end, p, i)
  {
    NestingEndsExactly(scripts, r);
    assert Records([]) == {};
    p, i := FollowsFirstFaults(PlanOf(scripts), [Nested(r, 0)], [], 0);
  }
}
