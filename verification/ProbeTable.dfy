/** Open addressing with linear probing and tombstones, on sequences of slots. */
module ProbeTable {

  /** One counted systemd unit. The map never moves or copies it. */
  class Unit {
    const name: string
    const hash: nat
    var count: nat

    constructor (name: string, hash: nat)
      ensures this.name == name && this.hash == hash && this.count == 0
    {
      this.name, this.hash, this.count := name, hash, 0;
    }
  }

  datatype Slot = Empty | Tombstone | Live(u: Unit)

  /** Capacities are powers of two, so masking with cap - 1 is taking the remainder. */
  predicate PowerOfTwo(n: nat) {
    n == 1 || (n > 1 && n % 2 == 0 && PowerOfTwo(n / 2))
  }

  function Home(hash: nat, cap: nat): (pos: nat)
    requires cap > 0
    ensures pos < cap
  {
    hash % cap
  }

  /** The slot `k` steps after `pos`, around the end of the table. */
  function Ahead(pos: nat, k: nat, cap: nat): (r: nat)
    requires pos < cap && k < cap
    ensures r < cap
  {
    if pos + k < cap then pos + k else pos + k - cap
  }

  /** How many steps lead from `pos` to `target`. */
  function Steps(pos: nat, target: nat, cap: nat): (k: nat)
    requires pos < cap && target < cap
    ensures k < cap && Ahead(pos, k, cap) == target
    ensures forall j: nat :: j < cap && Ahead(pos, j, cap) == target ==> j == k
  {
    if target >= pos then target - pos else target + cap - pos
  }

  // ---------- counting ----------

  function Lives(s: seq<Slot>): (n: nat)
    ensures n <= |s|
  {
    if s == [] then 0 else Lives(s[..|s| - 1]) + if s[|s| - 1].Live? then 1 else 0
  }

  function Tombs(s: seq<Slot>): (n: nat)
    ensures n + Lives(s) <= |s|
  {
    if s == [] then 0 else Tombs(s[..|s| - 1]) + if s[|s| - 1].Tombstone? then 1 else 0
  }

  lemma {:induction false} CountsAfterUpdate(s: seq<Slot>, i: nat, x: Slot)
    requires i < |s|
    ensures Lives(s[i := x]) == Lives(s) - (if s[i].Live? then 1 else 0) + (if x.Live? then 1 else 0)
    ensures Tombs(s[i := x]) == Tombs(s) - (if s[i].Tombstone? then 1 else 0) + (if x.Tombstone? then 1 else 0)
  {
    var n := |s| - 1;
    if i == n {
      assert s[i := x][..n] == s[..n];
    } else {
      CountsAfterUpdate(s[..n], i, x);
      assert s[i := x][..n] == s[..n][i := x];
    }
  }

  lemma {:induction false} AllEmptyCounts(s: seq<Slot>)
    requires forall i :: 0 <= i < |s| ==> s[i] == Empty
    ensures Lives(s) == 0 && Tombs(s) == 0
  {
    if s != [] {
      AllEmptyCounts(s[..|s| - 1]);
    }
  }

  /** A table that is not full of live units and tombstones has an empty slot. */
  lemma {:induction false} HasEmpty(s: seq<Slot>) returns (e: nat)
    requires Lives(s) + Tombs(s) < |s|
    ensures e < |s| && s[e] == Empty
  {
    var n := |s| - 1;
    if s[n] == Empty {
      e := n;
    } else {
      e := HasEmpty(s[..n]);
    }
  }

  // ---------- the table as a map ----------

  /** `m` is the map a table stands for and `at` says where each name sits. Every unit sits
      under its own name and hash, and no empty slot lies between its home and its place. */
  ghost predicate Table(s: seq<Slot>, hashOf: string -> nat, m: map<string, Unit>, at: map<string, nat>) {
    && s != []
    && m.Keys == at.Keys
    && (forall n :: n in at ==> Placed(s, hashOf, n, m, at))
    && (forall i :: 0 <= i < |s| && s[i].Live? ==> s[i].u.name in at && at[s[i].u.name] == i)
  }

  ghost predicate Placed(s: seq<Slot>, hashOf: string -> nat, n: string, m: map<string, Unit>, at: map<string, nat>)
    requires s != [] && n in at && n in m
  {
    && at[n] < |s| && s[at[n]] == Live(m[n])
    && m[n].name == n && m[n].hash == hashOf(n)
    && Reachable(s, Home(hashOf(n), |s|), at[n])
  }

  /** Probing from `home` meets no empty slot before `target`. */
  ghost predicate Reachable(s: seq<Slot>, home: nat, target: nat)
    requires home < |s| && target < |s|
  {
    forall k: nat :: k < Steps(home, target, |s|) ==> s[Ahead(home, k, |s|)] != Empty
  }

  /** The first `k` slots from `home` are neither empty nor hold `name`. */
  ghost predicate Probed(s: seq<Slot>, home: nat, k: nat, name: string)
    requires home < |s| && k <= |s|
  {
    forall j: nat :: j < k ==>
      var x := s[Ahead(home, j, |s|)];
      x != Empty && (x.Live? ==> x.u.name != name)
  }

  /** An empty slot ends the search: the name is not in the table. */
  lemma EmptyMeansAbsent(s: seq<Slot>, hashOf: string -> nat, m: map<string, Unit>, at: map<string, nat>,
                         name: string, k: nat)
    requires Table(s, hashOf, m, at) && k < |s|
    requires var home := Home(hashOf(name), |s|); Probed(s, home, k, name) && s[Ahead(home, k, |s|)] == Empty
    ensures name !in m
  {
  }

  /** Putting a unit where the probe ended keeps the table in order. */
  lemma InsertKeeps(s: seq<Slot>, hashOf: string -> nat, m: map<string, Unit>, at: map<string, nat>,
                    u: Unit, home: nat, k: nat)
    requires Table(s, hashOf, m, at) && u.name !in m && u.hash == hashOf(u.name)
    requires home == Home(hashOf(u.name), |s|) && k < |s| && Probed(s, home, k, u.name)
    requires !s[Ahead(home, k, |s|)].Live?
    ensures var dst := Ahead(home, k, |s|);
      Table(s[dst := Live(u)], hashOf, m[u.name := u], at[u.name := dst])
  {
    var dst := Ahead(home, k, |s|);
    var t, m2, at2 := s[dst := Live(u)], m[u.name := u], at[u.name := dst];
    assert Steps(home, dst, |s|) == k;
    forall n | n in at2
      ensures Placed(t, hashOf, n, m2, at2)
    {
      if n != u.name {
        assert Placed(s, hashOf, n, m, at);
      }
    }
  }

  /** Turning a unit's slot into a tombstone removes exactly that unit. */
  lemma RemoveKeeps(s: seq<Slot>, hashOf: string -> nat, m: map<string, Unit>, at: map<string, nat>, name: string)
    requires Table(s, hashOf, m, at) && name in m
    ensures at[name] < |s| && Table(s[at[name] := Tombstone], hashOf, m - {name}, at - {name})
  {
    assert Placed(s, hashOf, name, m, at);
    var t, m2, at2 := s[at[name] := Tombstone], m - {name}, at - {name};
    forall n | n in at2
      ensures Placed(t, hashOf, n, m2, at2)
    {
      assert Placed(s, hashOf, n, m, at);
    }
  }
}
