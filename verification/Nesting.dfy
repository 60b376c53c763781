/** Setup code that runs hacman again: the ancestor check of hm_cache_lock on a chain of processes,
    each waiting for the next. */
module Nesting {
  import opened Wrappers

  type Pid = int
  type Record(==,!new) = string

  const MAX_WALK := 256

  // ---------- the walk up the process tree ----------

  /** parent_pid: the parent procfs reports, or -1. */
  function ParentPid(parents: map<Pid, Pid>, pid: Pid): Pid {
    if pid in parents then parents[pid] else -1
  }

  /** The k-th process above one whose parent is `cur`; not positive once the walk has ended. */
  function Above(parents: map<Pid, Pid>, cur: Pid, k: nat): Pid {
    if k == 0 then cur
    else
      var below := Above(parents, cur, k - 1);
      if below <= 0 || below == 1 then -1 else ParentPid(parents, below)
  }

  /** `pid` is one of the first MAX_WALK ancestors. */
  ghost predicate IsAncestor(parents: map<Pid, Pid>, cur: Pid, pid: Pid) {
    exists k: nat {:trigger Above(parents, cur, k)} :: k < MAX_WALK && Above(parents, cur, k) == pid && pid > 0
  }

  lemma {:induction false} WalkEnded(parents: map<Pid, Pid>, cur: Pid, j: nat, k: nat)
    requires j < k && (Above(parents, cur, j) <= 0 || Above(parents, cur, j) == 1)
    ensures Above(parents, cur, k) <= 0
  {
    if j < k - 1 {
      WalkEnded(parents, cur, j, k - 1);
    }
  }

  /** A line of processes from `cur` upwards, each the parent that procfs reports for the one before;
      only its last one can be the init process. */
  ghost predicate Lineage(parents: map<Pid, Pid>, cur: Pid, line: seq<Pid>) {
    && line != [] && line[0] == cur
    && forall i :: 0 <= i < |line| - 1 ==> line[i] > 1 && line[i] in parents && line[i + 1] == parents[line[i]]
  }

  /** Such a line of at most 256 processes leads up to `pid`. */
  ghost predicate Descends(parents: map<Pid, Pid>, cur: Pid, pid: Pid) {
    pid > 0 && exists line :: Lineage(parents, cur, line) && |line| <= 256 && line[|line| - 1] == pid
  }

  lemma {:induction false} LineLeadsUp(parents: map<Pid, Pid>, cur: Pid, line: seq<Pid>, k: nat)
    requires Lineage(parents, cur, line) && k < |line|
    ensures Above(parents, cur, k) == line[k]
  {
    if k > 0 {
      LineLeadsUp(parents, cur, line, k - 1);
    }
  }

  lemma {:induction false} LineUpTo(parents: map<Pid, Pid>, cur: Pid, k: nat) returns (line: seq<Pid>)
    requires Above(parents, cur, k) > 0
    ensures Lineage(parents, cur, line) && |line| == k + 1 && line[k] == Above(parents, cur, k)
  {
    if k == 0 {
      line := [cur];
    } else {
      line := LineUpTo(parents, cur, k - 1);
      line := line + [Above(parents, cur, k)];
    }
  }

  lemma AncestorsDescend(parents: map<Pid, Pid>, cur: Pid, pid: Pid)
    ensures IsAncestor(parents, cur, pid) <==> Descends(parents, cur, pid)
  {
    if IsAncestor(parents, cur, pid) {
      var k: nat :| k < MAX_WALK && Above(parents, cur, k) == pid && pid > 0;
      var line := LineUpTo(parents, cur, k);
      assert Lineage(parents, cur, line) && |line| <= 256 && line[|line| - 1] == pid;
    }
    if Descends(parents, cur, pid) {
      var line :| Lineage(parents, cur, line) && |line| <= 256 && line[|line| - 1] == pid;
      LineLeadsUp(parents, cur, line, |line| - 1);
    }
  }

  /** is_ancestor. */
  method WalkUp(parents: map<Pid, Pid>, ppid: Pid, pid: Pid) returns (found: bool)
    ensures found <==> IsAncestor(parents, ppid, pid)
    ensures found <==> Descends(parents, ppid, pid)
  {
    AncestorsDescend(parents, ppid, pid);
    var cur := ppid;
    var depth := 0;
    while cur > 0 && depth < MAX_WALK
      invariant 0 <= depth <= MAX_WALK && cur == Above(parents, ppid, depth)
      invariant forall k: nat :: k < depth ==> Above(parents, ppid, k) != pid || pid <= 0
      decreases MAX_WALK - depth
    {
      if cur == pid {
        assert Above(parents, ppid, depth) == pid;
        return true;
      }
      if cur == 1 {
        break;
      }
      cur := ParentPid(parents, cur);
      depth := depth + 1;
    }
    forall k: nat | k < MAX_WALK
      ensures Above(parents, ppid, k) != pid || pid <= 0
    {
      if k > depth {
        WalkEnded(parents, ppid, depth, k);
      }
    }
    found := false;
  }

  // ---------- one chain of processes, each waiting for the next ----------

  /** A process in the chain and the record whose update lock it holds. */
  datatype Level = Level(pid: Pid, holds: Option<Record>)

  /** The chain from the outermost process to the one that is running, the parents procfs
      reports, and all lock holders on the system. */
  datatype Chain = Chain(levels: seq<Level>, parents: map<Pid, Pid>, locks: map<Record, Pid>)

  datatype Event =
    | Spawn(pid: Pid)               // the running process starts a child and waits for it
    | Lock(r: Record)               // the running process wins a lock
    | Unlock
    | Exit                          // the running process ends or crashes; its parent goes on
    | Outside(r: Record, pid: Pid)  // some process outside the chain wins a lock
    | OutsideUnlock(r: Record)

  predicate InChain(c: Chain, pid: Pid) {
    exists i :: 0 <= i < |c.levels| && c.levels[i].pid == pid
  }

  function Last(c: Chain): Level
    requires c.levels != []
  {
    c.levels[|c.levels| - 1]
  }

  datatype Attempt = Acquired | Refused | Blocks(holder: Pid)

  /** hm_cache_lock by the running process: take a free lock, refuse one that an ancestor
      holds, wait for any other. */
  ghost function Try(c: Chain, r: Record): Attempt
    requires c.levels != []
  {
    if r !in c.locks then Acquired
    else if IsAncestor(c.parents, ParentPid(c.parents, Last(c).pid), c.locks[r]) then Refused
    else Blocks(c.locks[r])
  }

  ghost function Apply(c: Chain, e: Event): Option<Chain> {
    match e
    case Spawn(pid) =>
      if c.levels == [] || pid <= 1 || InChain(c, pid) || pid in c.locks.Values then None
      else Some(c.(levels := c.levels + [Level(pid, None)], parents := c.parents[pid := Last(c).pid]))
    case Lock(r) =>
      if c.levels == [] || Last(c).holds.Some? || Try(c, r) != Acquired then None
      else Some(c.(levels := c.levels[|c.levels| - 1 := Last(c).(holds := Some(r))], locks := c.locks[r := Last(c).pid]))
    case Unlock =>
      if c.levels == [] || Last(c).holds.None? then None
      else Some(c.(levels := c.levels[|c.levels| - 1 := Last(c).(holds := None)], locks := c.locks - {Last(c).holds.value}))
    case Exit =>
      if |c.levels| <= 1 then None
      else
        Some(c.(levels := c.levels[..|c.levels| - 1],
                locks := if Last(c).holds.Some? then c.locks - {Last(c).holds.value} else c.locks))
    case Outside(r, pid) =>
      if r in c.locks || InChain(c, pid) then None else Some(c.(locks := c.locks[r := pid]))
    case OutsideUnlock(r) =>
      if r !in c.locks || InChain(c, c.locks[r]) then None else Some(c.(locks := c.locks - {r}))
  }

  ghost function Run(c: Chain, events: seq<Event>): Option<Chain> {
    if events == [] then Some(c)
    else
      var before := Run(c, events[..|events| - 1]);
      if before.None? then None else Apply(before.value, events[|events| - 1])
  }

  /** A single process that holds nothing. */
  function Alone(pid: Pid): Chain {
    Chain([Level(pid, None)], map[], map[])
  }

  ghost predicate Linked(c: Chain) {
    && c.levels != []
    && (forall i :: 0 <= i < |c.levels| ==> c.levels[i].pid > 1)
    && (forall i, j :: 0 <= i < j < |c.levels| ==> c.levels[i].pid != c.levels[j].pid)
    && (forall i :: 0 < i < |c.levels| ==> ParentPid(c.parents, c.levels[i].pid) == c.levels[i - 1].pid)
  }

  /** The locks of chain members are exactly what their levels say. */
  ghost predicate Owned(c: Chain) {
    && (forall i :: 0 <= i < |c.levels| && c.levels[i].holds.Some? ==>
          c.levels[i].holds.value in c.locks && c.locks[c.levels[i].holds.value] == c.levels[i].pid)
    && (forall r, i :: r in c.locks && 0 <= i < |c.levels| && c.locks[r] == c.levels[i].pid ==>
          c.levels[i].holds == Some(r))
  }

  lemma SpawnKeepsOwners(c: Chain, pid: Pid)
    requires Linked(c) && Owned(c) && Apply(c, Spawn(pid)).Some?
    ensures Owned(Apply(c, Spawn(pid)).value)
  {
    var d := Apply(c, Spawn(pid)).value;
    assert forall i :: 0 <= i < |c.levels| ==> d.levels[i] == c.levels[i];
    forall r, i | r in d.locks && 0 <= i < |d.levels| && d.locks[r] == d.levels[i].pid
      ensures d.levels[i].holds == Some(r)
    {
      assert d.locks[r] in c.locks.Values;
    }
  }

  lemma SpawnKeeps(c: Chain, pid: Pid)
    requires Linked(c) && Owned(c) && Apply(c, Spawn(pid)).Some?
    ensures var d := Apply(c, Spawn(pid)).value; Linked(d) && Owned(d)
  {
    var d := Apply(c, Spawn(pid)).value;
    assert forall i :: 0 <= i < |c.levels| ==> d.levels[i] == c.levels[i] && c.levels[i].pid != pid;
    SpawnKeepsOwners(c, pid);
  }

  lemma LockKeeps(c: Chain, r: Record)
    requires Linked(c) && Owned(c) && Apply(c, Lock(r)).Some?
    ensures var d := Apply(c, Lock(r)).value; Linked(d) && Owned(d)
  {
    var d := Apply(c, Lock(r)).value;
    assert forall i :: 0 <= i < |d.levels| ==> d.levels[i].pid == c.levels[i].pid;
    assert forall i :: 0 <= i < |d.levels| - 1 ==> d.levels[i] == c.levels[i];
  }

  lemma UnlockKeeps(c: Chain, e: Event)
    requires Linked(c) && Owned(c) && (e.Unlock? || e.Exit?) && Apply(c, e).Some?
    ensures Linked(Apply(c, e).value) && Owned(Apply(c, e).value)
  {
    var d := Apply(c, e).value;
    assert forall i :: 0 <= i < |d.levels| ==> d.levels[i].pid == c.levels[i].pid;
    assert forall i :: 0 <= i < |c.levels| - 1 ==> d.levels[i] == c.levels[i];
  }

  lemma ApplyKeeps(c: Chain, e: Event)
    requires Linked(c) && Owned(c) && Apply(c, e).Some?
    ensures Linked(Apply(c, e).value) && Owned(Apply(c, e).value)
  {
    match e
    case Spawn(pid) => SpawnKeeps(c, pid);
    case Lock(r) => LockKeeps(c, r);
    case Unlock => UnlockKeeps(c, e);
    case Exit => UnlockKeeps(c, e);
    case Outside(r, pid) =>
    case OutsideUnlock(r) =>
  }

  /** The outermost process has no parent of its own in the model. */
  ghost predicate Rooted(c: Chain) {
    c.levels != [] && c.levels[0].pid !in c.parents
  }

  lemma {:induction false} Always(pid: Pid, events: seq<Event>)
    requires pid > 1 && Run(Alone(pid), events).Some?
    ensures var c := Run(Alone(pid), events).value; Linked(c) && Owned(c) && Rooted(c)
  {
    if events != [] {
      var before := Run(Alone(pid), events[..|events| - 1]).value;
      Always(pid, events[..|events| - 1]);
      ApplyKeeps(before, events[|events| - 1]);
      assert Apply(before, events[|events| - 1]).value.levels[0].pid == before.levels[0].pid;
    }
  }

  /** The walk from the running process meets the chain level by level. */
  lemma {:induction false} WalkMeetsChain(c: Chain, k: nat)
    requires Linked(c) && k + 1 < |c.levels|
    ensures Above(c.parents, ParentPid(c.parents, Last(c).pid), k) == c.levels[|c.levels| - 2 - k].pid
  {
    if k > 0 {
      WalkMeetsChain(c, k - 1);
    }
  }

  /** No self-deadlock, and exactly up to which depth. In every reachable chain, a lock held by
      an outer level is refused rather than waited for if and only if fewer than 256
      processes lie between it and the running one. Locks held along the chain are distinct. */
  lemma {:induction false} NeverWaitsForAnAncestor(pid: Pid, events: seq<Event>, i: nat)
    requires pid > 1 && Run(Alone(pid), events).Some?
    requires var c := Run(Alone(pid), events).value; i < |c.levels| - 1 && c.levels[i].holds.Some?
    ensures var c := Run(Alone(pid), events).value; var r := c.levels[i].holds.value;
      && Try(c, r) == (if |c.levels| - 2 - i < 256 then Refused else Blocks(c.levels[i].pid))
      && (forall j :: 0 <= j < |c.levels| && j != i ==> c.levels[j].holds != c.levels[i].holds)
  {
    Always(pid, events);
    var c := Run(Alone(pid), events).value;
    var up := ParentPid(c.parents, Last(c).pid);
    var k := |c.levels| - 2 - i;
    WalkMeetsChain(c, k);
    if k >= MAX_WALK {
      forall other: nat | other < MAX_WALK
        ensures Above(c.parents, up, other) != c.levels[i].pid
      {
        WalkMeetsChain(c, other);
      }
    }
  }

  /** A chain of at most 257 levels, so with at most 256 above the running process, never waits
      for any of its own locks. */
  lemma {:induction false} ShortChainsNeverSelfBlock(pid: Pid, events: seq<Event>, r: Record)
    requires pid > 1 && Run(Alone(pid), events).Some?
    requires var c := Run(Alone(pid), events).value; 0 < |c.levels| <= 257 && Last(c).holds.None?
    ensures var c := Run(Alone(pid), events).value; Try(c, r).Blocks? ==> !InChain(c, Try(c, r).holder)
  {
    Always(pid, events);
    var c := Run(Alone(pid), events).value;
    if Try(c, r).Blocks? && InChain(c, c.locks[r]) {
      var i :| 0 <= i < |c.levels| && c.levels[i].pid == c.locks[r];
      NeverWaitsForAnAncestor(pid, events, i);
    }
  }

  // ---------- what can happen, and whose the locks are ----------

  /** The running process can give up a lock exactly when it holds one, and end exactly when somebody
      waits for it; every process but those of the chain can take any free lock and give up its own. */
  lemma MovesArePossible(c: Chain, r: Record, pid: Pid)
    requires c.levels != []
    ensures Apply(c, Unlock).Some? <==> Last(c).holds.Some?
    ensures Apply(c, Exit).Some? <==> |c.levels| > 1
    ensures Apply(c, Outside(r, pid)).Some? <==>
            r !in c.locks && forall i :: 0 <= i < |c.levels| ==> c.levels[i].pid != pid
    ensures Apply(c, OutsideUnlock(r)).Some? <==>
            r in c.locks && forall i :: 0 <= i < |c.levels| ==> c.levels[i].pid != c.locks[r]
    ensures Apply(c, Spawn(pid)).Some? <==>
            && pid > 1 && (forall i :: 0 <= i < |c.levels| ==> c.levels[i].pid != pid)
            && forall q :: q in c.locks ==> c.locks[q] != pid
  {
  }

  /** The same locks as before, by the same processes, but for those of `pid`. */
  ghost predicate WithoutThoseOf(before: map<Record, Pid>, after: map<Record, Pid>, pid: Pid) {
    && (forall r :: r in after <==> r in before && before[r] != pid)
    && (forall r :: r in after ==> after[r] == before[r])
  }

  /** In every run: a process that gives up its lock, or ends, takes no lock but its own with it, and
      the one that waited for it goes on as it was. */
  lemma {:induction false} GivingUpFrees(pid: Pid, events: seq<Event>)
    requires pid > 1 && Run(Alone(pid), events).Some? && Run(Alone(pid), events).value.levels != []
    ensures var c := Run(Alone(pid), events).value; Last(c).holds.Some? ==>
      && Apply(c, Unlock).Some? && WithoutThoseOf(c.locks, Apply(c, Unlock).value.locks, Last(c).pid)
      && Apply(c, Unlock).value.levels == c.levels[..|c.levels| - 1] + [Level(Last(c).pid, None)]
    ensures var c := Run(Alone(pid), events).value; |c.levels| > 1 ==>
      && Apply(c, Exit).Some? && WithoutThoseOf(c.locks, Apply(c, Exit).value.locks, Last(c).pid)
      && Apply(c, Exit).value.levels + [Last(c)] == c.levels
  {
    Always(pid, events);
  }

  ghost predicate LiveLocks(c: Chain, events: seq<Event>) {
    forall r :: r in c.locks ==>
      InChain(c, c.locks[r]) || (exists k :: 0 <= k < |events| && events[k] == Outside(r, c.locks[r]))
  }

  /** No lock outlives its process: in every run, a lock is held by a process of the chain whose level
      says so, or by one that has taken it from outside. */
  lemma {:induction false} LocksAreOfTheLiving(pid: Pid, events: seq<Event>)
    requires pid > 1 && Run(Alone(pid), events).Some?
    ensures LiveLocks(Run(Alone(pid), events).value, events)
  {
    if events != [] {
      var before, e := events[..|events| - 1], events[|events| - 1];
      assert events == before + [e];
      LocksAreOfTheLiving(pid, before);
      Always(pid, before);
      LiveStep(Run(Alone(pid), before).value, before, e);
    }
  }

  lemma LiveStep(c: Chain, events: seq<Event>, e: Event)
    requires Linked(c) && Owned(c) && LiveLocks(c, events) && Apply(c, e).Some?
    ensures LiveLocks(Apply(c, e).value, events + [e])
  {
    var d := Apply(c, e).value;
    forall r | r in d.locks
      ensures InChain(d, d.locks[r]) || exists k :: 0 <= k < |events + [e]| && (events + [e])[k] == Outside(r, d.locks[r])
    {
      if e == Outside(r, d.locks[r]) {
        assert (events + [e])[|events|] == Outside(r, d.locks[r]);
      } else if r in c.locks && d.locks[r] == c.locks[r] {
        StillLive(c, events, e, r);
      } else {
        assert d.levels[|d.levels| - 1].pid == d.locks[r];
      }
    }
  }

  lemma StillLive(c: Chain, events: seq<Event>, e: Event, r: Record)
    requires Linked(c) && Owned(c) && LiveLocks(c, events) && Apply(c, e).Some?
    requires r in c.locks && r in Apply(c, e).value.locks && Apply(c, e).value.locks[r] == c.locks[r]
    ensures InChain(Apply(c, e).value, c.locks[r]) ||
            exists k :: 0 <= k < |events + [e]| && (events + [e])[k] == Outside(r, c.locks[r])
  {
    var d := Apply(c, e).value;
    if InChain(c, c.locks[r]) {
      var i :| 0 <= i < |c.levels| && c.levels[i].pid == c.locks[r];
      if i < |d.levels| {
        assert d.levels[i].pid == c.levels[i].pid;
      }
    } else {
      var k :| 0 <= k < |events| && events[k] == Outside(r, c.locks[r]);
      assert (events + [e])[k] == events[k];
    }
  }
}
