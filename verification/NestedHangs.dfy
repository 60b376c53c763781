/** What holds of nested setups whatever their scripts do after a failed nested run. */
module NestedHangs {
  import opened Nesting
  import opened NestedSetups

  // ---------- success ----------

  /** As long as its nested runs succeed the script goes on to exit with 0; what it does after a
      failure is its own affair. */
  predicate Willing(script: Script) {
    match script
    case Stop(zero) => zero
    case Hacman(_, onSuccess, _) => Willing(onSuccess)
  }

  lemma {:induction false} RunIsStarted(script: Script)
    requires script.Hacman?
    ensures script.n in RunsOf(script)
    ensures forall n :: n in RunsOf(script.onSuccess) ==> n in RunsOf(script)
    ensures forall n :: n in RunsOf(script.onFailure) ==> n in RunsOf(script)
  {
    assert RunsOf(script)[0] == script.n;
  }

  /** No run of a sound record is ever refused, and none waits. */
  lemma {:induction false} SoundSucceeds(scripts: Scripts, held: seq<Held>, level: nat, done: seq<Record>, r: Record)
    requires Runnable(scripts) && r in scripts && Records(held) <= scripts.Keys && Stacked(held, level)
    requires forall s :: s in scripts ==> Willing(scripts[s])
    requires Sound(PlanOf(scripts), r) && AllReach(PlanOf(scripts), held, r)
    ensures SetUp(scripts, held, level, done, r).end.Succeeded?
    decreases scripts.Keys - Records(held), 1, Stop(true)
  {
    var plan := PlanOf(scripts);
    RunnableIsClosed(scripts);
    if r in done {
    } else if r in Records(held) {
      HeldIsUnsound(plan, held, r);
    } else {
      var more := held + [Held(r, level)];
      TakesOne(scripts.Keys, held, level, r);
      SoundBelow(plan, r);
      forall n: Nested | n in plan[r]
        ensures Sound(plan, n.record) && AllReach(plan, more, n.record)
      {
        ReachesChild(plan, held, level, r, n);
      }
      SoundScript(scripts, more, level, done, scripts[r]);
    }
  }

  lemma {:induction false} SoundScript(scripts: Scripts, held: seq<Held>, level: nat, done: seq<Record>, script: Script)
    requires Runnable(scripts) && Records(held) <= scripts.Keys && Stacked(held, level + 1)
    requires Known(script, scripts.Keys) && Willing(script) && forall s :: s in scripts ==> Willing(scripts[s])
    requires forall n: Nested :: n in RunsOf(script) ==>
      Sound(PlanOf(scripts), n.record) && AllReach(PlanOf(scripts), held, n.record)
    ensures Proceed(scripts, held, level, done, script).end.Succeeded?
    decreases scripts.Keys - Records(held), 2, script
  {
    if script.Hacman? {
      KnownBelow(script, scripts.Keys);
      RunIsStarted(script);
      SoundSucceeds(scripts, held, level + script.n.between + 1, done, script.n.record);
      var first := SetUp(scripts, held, level + script.n.between + 1, done, script.n.record);
      SoundScript(scripts, held, level, first.done, script.onSuccess);
    }
  }

  /** Nested setups succeed when no project reaches itself, whatever their scripts would do after a
      failure. */
  lemma {:induction false} SoundNestingSucceeds(scripts: Scripts, r: Record)
    requires Runnable(scripts) && r in scripts && Sound(PlanOf(scripts), r)
    requires forall s :: s in scripts ==> Willing(scripts[s])
    ensures SetUp(scripts, [], 0, [], r).end.Succeeded?
  {
    SoundSucceeds(scripts, [], 0, [], r);
  }

  // ---------- hanging ----------

  /** The run at the end of a chain of nested runs, which hold the locks in `held`. */
  ghost predicate AtEnd(scripts: Scripts, p: seq<Nested>, held: seq<Held>, level: nat) {
    && Runnable(scripts) && Records(held) <= scripts.Keys
    && Path(PlanOf(scripts), p) && Along(p, held, level)
  }

  /** The chain `p` can be continued to one that comes back far. */
  ghost predicate Continues(plan: Plan, p: seq<Nested>, q: seq<Nested>, i: nat) {
    Returns(plan, q, i) && p != [] && q[0] == p[0] && Between(q, i, |q| - 1) >= 256
  }

  lemma {:induction false} StuckComesBack(scripts: Scripts, p: seq<Nested>, held: seq<Held>, level: nat, done: seq<Record>)
    returns (q: seq<Nested>, i: nat)
    requires AtEnd(scripts, p, held, level) && SetUp(scripts, held, level, done, p[|held|].record).end.Stuck?
    ensures Continues(PlanOf(scripts), p, q, i)
    decreases scripts.Keys - Records(held), 1, Stop(true)
  {
    var r := p[|held|].record;
    if r in Records(held) {
      q := p;
      i := HeldAbove(PlanOf(scripts), p, held, level);
    } else {
      TakesOne(scripts.Keys, held, level, r);
      q, i := StuckScript(scripts, p, held, level, done, scripts[r]);
    }
  }

  lemma {:induction false} StuckScript(scripts: Scripts, p: seq<Nested>, held: seq<Held>, level: nat, done: seq<Record>,
                                       script: Script)
    returns (q: seq<Nested>, i: nat)
    requires AtEnd(scripts, p, held, level) && p[|held|].record !in Records(held)
    requires Known(script, scripts.Keys)
    requires forall n :: n in RunsOf(script) ==> n in PlanOf(scripts)[p[|held|].record]
    requires var more := held + [Held(p[|held|].record, level)];
      && Stacked(more, level + 1) && Records(more) <= scripts.Keys
      && Proceed(scripts, more, level, done, script).end.Stuck?
    ensures Continues(PlanOf(scripts), p, q, i)
    decreases scripts.Keys - Records(held + [Held(p[|held|].record, level)]), 2, script
  {
    var more := held + [Held(p[|held|].record, level)];
    KnownBelow(script, scripts.Keys);
    RunIsStarted(script);
    var n := script.n;
    var first := SetUp(scripts, more, level + n.between + 1, done, n.record);
    match first.end
    case Succeeded => q, i := StuckScript(scripts, p, held, level, first.done, script.onSuccess);
    case Failed => q, i := StuckScript(scripts, p, held, level, first.done, script.onFailure);
    case Stuck =>
      RunnableIsClosed(scripts);
      PathAppend(PlanOf(scripts), p, n);
      AlongAppend(p, held, level, n);
      q, i := StuckComesBack(scripts, p + [n], more, level + n.between + 1, done);
  }

  /** Nested setups end, one way or the other, unless some chain of the runs that their scripts may
      start comes back to a record with 256 or more processes in between. */
  lemma {:induction false} NestingEndsUnlessFar(scripts: Scripts, r: Record)
    requires Runnable(scripts) && r in scripts && !ComesBackFar(PlanOf(scripts), r)
    ensures !SetUp(scripts, [], 0, [], r).end.Stuck?
  {
    if SetUp(scripts, [], 0, [], r).end.Stuck? {
      assert Records([]) == {};
      var q, i := StuckComesBack(scripts, [Nested(r, 0)], [], 0, []);
    }
  }

  /** Scripts that start no other runs than these. */
  ghost predicate Within(scripts: Scripts, plan: Plan) {
    && scripts.Keys == plan.Keys
    && forall r, n :: r in scripts && n in RunsOf(scripts[r]) ==> n in plan[r]
  }

  /** The script that starts what comes next along the chain `p`, if `r` is on it. */
  function NextAlong(p: seq<Nested>, r: Record): Script {
    if |p| < 2 then Stop(true)
    else if p[0].record == r then Hacman(p[1], Stop(true), Stop(false))
    else NextAlong(p[1..], r)
  }

  lemma {:induction false} NextIsAlong(p: seq<Nested>, r: Record, n: Nested)
    requires n in RunsOf(NextAlong(p, r))
    ensures exists k :: 0 <= k < |p| - 1 && p[k].record == r && p[k + 1] == n
  {
    if p[0].record == r {
      assert RunsOf(NextAlong(p, r)) == [p[1]];
    } else {
      NextIsAlong(p[1..], r, n);
      var k :| 0 <= k < |p[1..]| - 1 && p[1..][k].record == r && p[1..][k + 1] == n;
      assert p[k + 1].record == r && p[k + 2] == n;
    }
  }

  lemma {:induction false} AlongAt(p: seq<Nested>, k: nat)
    requires k < |p| - 1 && forall a, b :: 0 <= a < b < |p| - 1 ==> p[a].record != p[b].record
    ensures NextAlong(p, p[k].record) == Hacman(p[k + 1], Stop(true), Stop(false))
  {
    if k > 0 {
      AlongAt(p[1..], k - 1);
      assert p[1..][k - 1] == p[k] && p[1..][k] == p[k + 1];
    }
  }

  function ScriptsAlong(plan: Plan, p: seq<Nested>): Scripts {
    map r | r in plan :: NextAlong(p, r)
  }

  lemma ScriptsAlongWithin(plan: Plan, p: seq<Nested>)
    requires Closed(plan) && Path(plan, p)
    ensures Within(ScriptsAlong(plan, p), plan) && Runnable(ScriptsAlong(plan, p))
  {
    var scripts := ScriptsAlong(plan, p);
    forall r, n | r in scripts && n in RunsOf(scripts[r])
      ensures n in plan[r] && n.record in plan
    {
      NextIsAlong(p, r, n);
      var k :| 0 <= k < |p| - 1 && p[k].record == r && p[k + 1] == n;
    }
    assert scripts.Keys == plan.Keys;
    forall r | r in scripts
      ensures Known(scripts[r], scripts.Keys)
    {
      assert forall i :: 0 <= i < |RunsOf(scripts[r])| ==> RunsOf(scripts[r])[i] in RunsOf(scripts[r]);
    }
  }

  lemma {:induction false} DepthPart(p: seq<Nested>, k: nat, j: nat)
    requires j < k <= |p|
    ensures Depth(p[..k], j) == Depth(p, j)
  {
    if j > 0 {
      DepthPart(p, k, j - 1);
    }
  }

  /** The run at the |held|-th place of a chain that comes back, with the locks of those before it. */
  ghost predicate Halfway(plan: Plan, p: seq<Nested>, i: nat, held: seq<Held>, level: nat) {
    && Closed(plan) && Returns(plan, p, i)
    && |held| < |p| && Along(p[..|held| + 1], held, level) && Records(held) <= plan.Keys
  }

  /** It hangs. */
  ghost predicate Hung(plan: Plan, p: seq<Nested>, held: seq<Held>, level: nat) {
    && Runnable(ScriptsAlong(plan, p)) && ScriptsAlong(plan, p).Keys == plan.Keys
    && |held| < |p| && p[|held|].record in plan && Records(held) <= plan.Keys && Stacked(held, level)
    && SetUp(ScriptsAlong(plan, p), held, level, [], p[|held|].record).end.Stuck?
  }

  /** Following the chain down, until its last run waits for a lock held above it. */
  lemma {:induction false} WalksDown(plan: Plan, p: seq<Nested>, i: nat, held: seq<Held>, level: nat)
    requires Halfway(plan, p, i, held, level) && Between(p, i, |p| - 1) >= 256
    ensures Hung(plan, p, held, level)
    decreases |p| - |held|
  {
    if |held| == |p| - 1 {
      WaitsBelow(plan, p, i, held, level);
    } else {
      var more, below := StepDown(plan, p, i, held, level);
      WalksDown(plan, p, i, more, below);
      StuckBelow(plan, p, i, held, level, more, below);
    }
  }

  lemma WaitsBelow(plan: Plan, p: seq<Nested>, i: nat, held: seq<Held>, level: nat)
    requires Halfway(plan, p, i, held, level) && |held| == |p| - 1 && Between(p, i, |p| - 1) >= 256
    ensures Hung(plan, p, held, level)
  {
    ScriptsAlongWithin(plan, p);
    assert p[..|p|] == p;
    assert held[i].record == p[i].record && held[i] in held;
    var j := HeldAbove(plan, p, held, level);
    assert p[j].record == p[i].record;
    assert j == i;
  }

  /** The place below, once this one has its lock. */
  predicate Next(p: seq<Nested>, held: seq<Held>, level: nat, more: seq<Held>, below: nat) {
    && |held| < |p| - 1 && p[|held|].record !in Records(held)
    && more == held + [Held(p[|held|].record, level)] && below == level + p[|held| + 1].between + 1
  }

  lemma StepDown(plan: Plan, p: seq<Nested>, i: nat, held: seq<Held>, level: nat) returns (more: seq<Held>, below: nat)
    requires Halfway(plan, p, i, held, level) && |held| < |p| - 1
    ensures Next(p, held, level, more, below) && Halfway(plan, p, i, more, below)
  {
    var k := |held|;
    var part := p[..k + 1];
    forall h | h in held
      ensures h.record != p[k].record
    {
      var a :| 0 <= a < k && held[a] == h;
      assert h.record == part[a].record == p[a].record;
    }
    more, below := held + [Held(p[k].record, level)], level + p[k + 1].between + 1;
    AlongAppend(part, held, level, p[k + 1]);
    assert part + [p[k + 1]] == p[..k + 2];
    TakesOne(plan.Keys, held, level, p[k].record);
  }

  lemma StuckBelow(plan: Plan, p: seq<Nested>, i: nat, held: seq<Held>, level: nat, more: seq<Held>, below: nat)
    requires Halfway(plan, p, i, held, level) && Next(p, held, level, more, below) && Hung(plan, p, more, below)
    ensures Hung(plan, p, held, level)
  {
    var scripts, r, n := ScriptsAlong(plan, p), p[|held|].record, p[|held| + 1];
    TakesOne(plan.Keys, held, level, r);
    AlongAt(p, |held|);
    assert scripts[r] == Hacman(n, Stop(true), Stop(false));
    assert Known(scripts[r], scripts.Keys);
    var inner := Proceed(scripts, more, level, [], scripts[r]);
    assert inner.end.Stuck?;
  }

  /** These scripts, started from an empty cache, hang. */
  ghost predicate Hangs(scripts: Scripts, r: Record) {
    Runnable(scripts) && r in scripts && SetUp(scripts, [], 0, [], r).end.Stuck?
  }

  lemma FarWithin(scripts: Scripts, plan: Plan, r: Record)
    requires Within(scripts, plan) && ComesBackFar(PlanOf(scripts), r)
    ensures ComesBackFar(plan, r)
  {
    var p: seq<Nested>, i: nat :|
      Returns(PlanOf(scripts), p, i) && p[0].record == r && Between(p, i, |p| - 1) >= 256;
    assert Path(plan, p);
    assert Returns(plan, p, i);
  }

  /** The condition is exact: among the scripts that start no runs but these, some hang if and only
      if some chain of these runs comes back far. */
  lemma {:induction false} SomeScriptsHangExactly(plan: Plan, r: Record)
    requires Closed(plan) && r in plan
    ensures (exists scripts: Scripts :: Within(scripts, plan) && Hangs(scripts, r)) <==> ComesBackFar(plan, r)
  {
    forall scripts: Scripts | Within(scripts, plan) && Hangs(scripts, r)
      ensures ComesBackFar(plan, r)
    {
      if !ComesBackFar(PlanOf(scripts), r) {
        NestingEndsUnlessFar(scripts, r);
      }
      FarWithin(scripts, plan, r);
    }
    if ComesBackFar(plan, r) {
      var p: seq<Nested>, i: nat :| Returns(plan, p, i) && p[0].record == r && Between(p, i, |p| - 1) >= 256;
      ScriptsAlongWithin(plan, p);
      assert Along(p[..1], [], 0) && Records([]) == {};
      WalksDown(plan, p, i, [], 0);
      assert Hangs(ScriptsAlong(plan, p), r);
    }
  }

  // ---------- projects that run themselves ----------

  function Alike(script: Script): Scripts {
    map["self" := script]
  }

  predicate SelfOnly(script: Script) {
    forall i :: 0 <= i < |RunsOf(script)| ==> RunsOf(script)[i].record == "self"
  }

  /** How the setup of a project ends whose script runs hacman on the project itself: a run over
      fewer than 256 processes is refused and the script goes on, another one hangs. */
  function SelfEnd(script: Script): End {
    match script
    case Stop(zero) => if zero then Succeeded else Failed
    case Hacman(n, _, onFailure) => if n.between >= 256 then Stuck else SelfEnd(onFailure)
  }

  lemma SelfIsRunnable(script: Script)
    requires SelfOnly(script)
    ensures Runnable(Alike(script)) && Known(script, Alike(script).Keys)
  {
  }

  lemma OwnLock()
    ensures Records([Held("self", 0)]) == {"self"} && [] + [Held("self", 0)] == [Held("self", 0)]
  {
    assert Held("self", 0) in [Held("self", 0)];
  }

  lemma {:induction false} SelfScript(script: Script, rest: Script)
    requires SelfOnly(script) && SelfOnly(rest)
    ensures Runnable(Alike(script)) && Known(rest, Alike(script).Keys) && Records([Held("self", 0)]) <= Alike(script).Keys
    ensures Proceed(Alike(script), [Held("self", 0)], 0, [], rest) == Outcome(SelfEnd(rest), [])
    decreases rest
  {
    SelfIsRunnable(script);
    OwnLock();
    assert Known(rest, Alike(script).Keys);
    if rest.Hacman? {
      KnownBelow(rest, {"self"});
      SelfScript(script, rest.onFailure);
    }
  }

  /** Exactly how a project ends whose script runs only the project itself. */
  lemma {:induction false} SelfEndsExactly(script: Script)
    requires SelfOnly(script)
    ensures Runnable(Alike(script)) && Records([]) == {}
    ensures SetUp(Alike(script), [], 0, [], "self").end == SelfEnd(script)
  {
    SelfScript(script, script);
    OwnLock();
    assert Attempted([], 0, "self").Acquired?;
  }

  /** `hacman self` as the whole script. */
  function Once(between: nat): Script {
    Hacman(Nested("self", between), Stop(true), Stop(false))
  }

  /** It hangs over 256 or more processes, and fails otherwise. */
  lemma SelfStartHangs(n: nat)
    ensures Runnable(Alike(Once(n))) && Records([]) == {}
    ensures SetUp(Alike(Once(n)), [], 0, [], "self").end == if n >= 256 then Stuck else Failed
  {
    SelfEndsExactly(Once(n));
  }

  /** A script that goes on after a refused run may still hang, where one that stops there fails:
      `hacman self; hacman self` with m processes around the second run. */
  lemma TolerantScriptHangs(m: nat)
    requires m >= 256
    ensures var strict := Hacman(Nested("self", 0), Once(m), Stop(false));
      var tolerant := Hacman(Nested("self", 0), Once(m), Once(m));
      && Runnable(Alike(strict)) && Runnable(Alike(tolerant)) && Records([]) == {}
      && Strict(strict) && PlanOf(Alike(strict))["self"] <= PlanOf(Alike(tolerant))["self"]
      && SetUp(Alike(strict), [], 0, [], "self").end == Failed
      && SetUp(Alike(tolerant), [], 0, [], "self").end == Stuck
  {
    assert RunsOf(Once(m)) == [Nested("self", m)];
    SelfEndsExactly(Hacman(Nested("self", 0), Once(m), Stop(false)));
    SelfEndsExactly(Hacman(Nested("self", 0), Once(m), Once(m)));
  }

  /** And `hacman self; true` succeeds and is recorded, although the project reaches itself. */
  lemma TolerantScriptSucceeds()
    ensures var script := Hacman(Nested("self", 0), Stop(true), Stop(true));
      && Runnable(Alike(script)) && Records([]) == {} && !Sound(PlanOf(Alike(script)), "self")
      && SetUp(Alike(script), [], 0, [], "self").end == Succeeded
  {
    var script := Hacman(Nested("self", 0), Stop(true), Stop(true));
    SelfEndsExactly(script);
    var loop := [Nested("self", 0), Nested("self", 0)];
    assert PlanOf(Alike(script))["self"] == [Nested("self", 0)];
    assert Path(PlanOf(Alike(script)), loop) && loop[0].record == loop[1].record;
    assert Loops(PlanOf(Alike(script)), loop, "self");
  }
}
