/** The counted units by name: unitmap_* of examples/systemd-errors.siml. */
module UnitMap {
  import opened ProbeTable

  const INITIAL_MAP_CAP := 64

  /** The table stands for `m`, the counters are right, and the load limit leaves empty slots. */
  ghost predicate Consistent(s: seq<Slot>, hashOf: string -> nat, m: map<string, Unit>, at: map<string, nat>,
                             len: nat, tombs: nat)
  {
    && PowerOfTwo(|s|) && |s| >= INITIAL_MAP_CAP
    && Table(s, hashOf, m, at)
    && len == |m| == Lives(s) && tombs == Tombs(s)
    && (len + tombs) * 10 < |s| * 7
  }

  class UnitMap {
    const hashOf: string -> nat
    var slots: array<Slot>
    var len: nat
    var tombs: nat
    ghost var units: map<string, Unit>  // what the table stands for
    ghost var at: map<string, nat>      // the slot of each name

    ghost predicate Valid()
      reads this, slots
    {
      Consistent(slots[..], hashOf, units, at, len, tombs)
    }

    constructor (hashOf: string -> nat)
      ensures Valid() && fresh(slots) && units == map[]
    {
      this.hashOf := hashOf;
      slots := new Slot[INITIAL_MAP_CAP](_ => Empty);
      len, tombs := 0, 0;
      units, at := map[], map[];
      new;
      AllEmptyCounts(slots[..]);
    }

    /** unitmap_rehash: moves every unit into a fresh table without tombstones. */
    method Rehash(newCap: nat)
      requires PowerOfTwo(slots.Length) && Table(slots[..], hashOf, units, at)
      requires len == |units| == Lives(slots[..])
      requires newCap >= slots.Length && PowerOfTwo(newCap) && len < newCap
      modifies this`slots, this`tombs, this`at
      ensures fresh(slots) && slots.Length == newCap && tombs == 0
      ensures Table(slots[..], hashOf, units, at)
      ensures Lives(slots[..]) == len && Tombs(slots[..]) == 0
    {
      var a := new Slot[newCap](_ => Empty);
      RefillStarts(a[..], slots[..], hashOf, units, at);
      SlotsBeforeLast(slots[..], hashOf, units, at);
      at := Refill(slots, a, hashOf, units, at);
      slots, tombs := a, 0;
    }

    /** unitmap_get_or_add: the unit of this name, which keeps its identity for as long as it is
        in the map, or a new one with count 0. The table grows, or drops its tombstones, first. */
    method GetOrAdd(name: string) returns (u: Unit)
      requires Valid()
      modifies this, slots
      ensures Valid() && (slots == old(slots) || fresh(slots))
      ensures u.name == name
      ensures name in old(units) ==> u == old(units[name]) && units == old(units)
      ensures name !in old(units) ==> fresh(u) && u.count == 0 && units == old(units)[name := u]
    {
      if (len + tombs + 1) * 10 >= slots.Length * 7 {
        RoomToGrow(len, tombs, slots.Length);
        Rehash(if tombs > len then slots.Length else slots.Length * 2);
      }
      u := FindOrInsert(name);
    }

    method FindOrInsert(name: string) returns (u: Unit)
      requires Valid() && (len + tombs + 1) * 10 < slots.Length * 7
      modifies this`len, this`tombs, this`units, this`at, slots
      ensures Valid()
      ensures u.name == name
      ensures name in old(units) ==> u == old(units[name]) && units == old(units)
      ensures name !in old(units) ==> fresh(u) && u.count == 0 && units == old(units)[name := u]
    {
      var hash := hashOf(name);
      var found, pos := Probe(slots, hashOf, hash, name, units, at);
      if found {
        return slots[pos].u;
      }
      u := new Unit(name, hash);
      Insert(u, pos);
    }

    /** Stores a new unit where the search for its name ended. */
    method Insert(u: Unit, pos: nat)
      requires Valid() && (len + tombs + 1) * 10 < slots.Length * 7
      requires u.name !in units && u.hash == hashOf(u.name)
      requires pos < slots.Length && !slots[pos].Live?
      requires var home := Home(u.hash, slots.Length);
        Probed(slots[..], home, Steps(home, pos, slots.Length), u.name)
      modifies this`len, this`tombs, this`units, this`at, slots
      ensures Valid() && units == old(units)[u.name := u]
    {
      InsertConsistent(slots[..], hashOf, units, at, len, tombs, u, pos);
      if slots[pos].Tombstone? {
        tombs := tombs - 1;
      }
      Store(slots, pos, Live(u));
      len := len + 1;
      units, at := units[u.name := u], at[u.name := pos];
    }

    /** unitmap_remove: the unit's slot becomes a tombstone, every other unit stays where it is. */
    method Remove(u: Unit)
      requires Valid() && u.name in units && units[u.name] == u
      modifies this`len, this`tombs, this`units, this`at, slots
      ensures Valid() && units == old(units) - {u.name}
    {
      var pos := Locate(slots, hashOf, u, units, at);
      ghost var m, places := units - {u.name}, at - {u.name};
      RemoveConsistent(slots[..], hashOf, units, at, len, tombs, u.name);
      Bury(pos, m, places);
    }

    /** The slot turns into a tombstone, and the counters follow. */
    method Bury(pos: nat, ghost m: map<string, Unit>, ghost places: map<string, nat>)
      requires pos < slots.Length && len > 0
      requires Consistent(slots[..][pos := Tombstone], hashOf, m, places, len - 1, tombs + 1)
      modifies this`len, this`tombs, this`units, this`at, slots
      ensures Valid() && units == m
    {
      Store(slots, pos, Tombstone);
      len, tombs := len - 1, tombs + 1;
      units, at := m, places;
    }
  }

  method Store(a: array<Slot>, pos: nat, x: Slot)
    requires pos < a.Length
    modifies a
    ensures a[..] == old(a[..])[pos := x]
  {
    a[pos] := x;
  }

  /** What storing a new unit where its search ended does to the table and its counts. */
  lemma InsertCounts(s: seq<Slot>, hashOf: string -> nat, m: map<string, Unit>, at: map<string, nat>, u: Unit, pos: nat)
    requires Table(s, hashOf, m, at) && u.name !in m && u.hash == hashOf(u.name)
    requires pos < |s| && !s[pos].Live?
    requires var home := Home(u.hash, |s|); Probed(s, home, Steps(home, pos, |s|), u.name)
    ensures var t := s[pos := Live(u)];
      && Table(t, hashOf, m[u.name := u], at[u.name := pos])
      && Lives(t) == Lives(s) + 1 && Tombs(t) == Tombs(s) - (if s[pos].Tombstone? then 1 else 0)
  {
    var home := Home(u.hash, |s|);
    InsertKeeps(s, hashOf, m, at, u, home, Steps(home, pos, |s|));
    CountsAfterUpdate(s, pos, Live(u));
  }

  lemma InsertConsistent(s: seq<Slot>, hashOf: string -> nat, m: map<string, Unit>, at: map<string, nat>,
                         len: nat, tombs: nat, u: Unit, pos: nat)
    requires Consistent(s, hashOf, m, at, len, tombs) && (len + tombs + 1) * 10 < |s| * 7
    requires u.name !in m && u.hash == hashOf(u.name)
    requires pos < |s| && !s[pos].Live?
    requires var home := Home(u.hash, |s|); Probed(s, home, Steps(home, pos, |s|), u.name)
    ensures var left := if s[pos].Tombstone? then tombs - 1 else tombs;
      left >= 0 && Consistent(s[pos := Live(u)], hashOf, m[u.name := u], at[u.name := pos], len + 1, left)
  {
    InsertCounts(s, hashOf, m, at, u, pos);
  }

  lemma RemoveConsistent(s: seq<Slot>, hashOf: string -> nat, m: map<string, Unit>, at: map<string, nat>,
                         len: nat, tombs: nat, name: string)
    requires Consistent(s, hashOf, m, at, len, tombs) && name in m
    ensures at[name] < |s| && len > 0
    ensures Consistent(s[at[name] := Tombstone], hashOf, m - {name}, at - {name}, len - 1, tombs + 1)
  {
    RemoveKeeps(s, hashOf, m, at, name);
    assert Placed(s, hashOf, name, m, at);
    CountsAfterUpdate(s, at[name], Tombstone);
    assert (m - {name}).Keys == m.Keys - {name};
  }

  /** The table that a rehash leaves has room for one more unit under the load limit, also when
      dropping the tombstones is all it does. */
  lemma RoomToGrow(len: nat, tombs: nat, cap: nat)
    requires (len + tombs) * 10 < cap * 7 && cap >= INITIAL_MAP_CAP && PowerOfTwo(cap)
    ensures var newCap := if tombs > len then cap else cap * 2;
      len < newCap && (len + 1) * 10 < newCap * 7 && PowerOfTwo(newCap)
  {
  }

  /** The search of unitmap_get_or_add: the slot that holds `name`, or else the slot for a new
      unit, which is the first tombstone on the way or the empty slot that ended the search. */
  method Probe(a: array<Slot>, hashOf: string -> nat, hash: nat, name: string,
               ghost m: map<string, Unit>, ghost at: map<string, nat>) returns (found: bool, pos: nat)
    requires Table(a[..], hashOf, m, at) && hash == hashOf(name)
    requires Lives(a[..]) + Tombs(a[..]) < a.Length
    ensures pos < a.Length && (found <==> name in m)
    ensures found ==> a[pos] == Live(m[name])
    ensures var home := Home(hash, a.Length);
      !found ==> !a[pos].Live? && Probed(a[..], home, Steps(home, pos, a.Length), name)
  {
    ghost var s := a[..];
    ghost var e := HasEmpty(s);
    ghost var limit := Steps(Home(hash, a.Length), e, a.Length);
    ghost var k: nat := 0;
    var tomb, haveTomb := 0, false;
    pos := Home(hash, a.Length);
    while a[pos] != Empty
      invariant k <= limit && pos == Ahead(Home(hash, a.Length), k, a.Length)
      invariant Probed(s, Home(hash, a.Length), k, name)
      invariant haveTomb ==> tomb < a.Length && s[tomb] == Tombstone && Steps(Home(hash, a.Length), tomb, a.Length) < k
      decreases limit - k
    {
      if a[pos].Tombstone? {
        if !haveTomb {
          tomb, haveTomb := pos, true;
        }
      } else if a[pos].u.hash == hash && a[pos].u.name == name {
        assert Placed(s, hashOf, name, m, at);
        return true, pos;
      } else {
        assert Placed(s, hashOf, a[pos].u.name, m, at);
      }
      pos := if pos + 1 < a.Length then pos + 1 else 0;
      k := k + 1;
    }
    EmptyMeansAbsent(s, hashOf, m, at, name, k);
    found := false;
    if haveTomb {
      pos := tomb;
    }
  }

  /** The search of unitmap_remove, by identity; it cannot run into an empty slot. */
  method Locate(a: array<Slot>, hashOf: string -> nat, u: Unit, ghost m: map<string, Unit>, ghost at: map<string, nat>)
    returns (pos: nat)
    requires Table(a[..], hashOf, m, at) && u.name in m && m[u.name] == u
    ensures pos < a.Length && pos == at[u.name] && a[pos] == Live(u)
  {
    ghost var s := a[..];
    assert Placed(s, hashOf, u.name, m, at);
    ghost var limit := Steps(Home(u.hash, a.Length), at[u.name], a.Length);
    ghost var k: nat := 0;
    pos := Home(u.hash, a.Length);
    while a[pos] != Live(u)
      invariant k <= limit && pos == Ahead(Home(u.hash, a.Length), k, a.Length)
      decreases limit - k
    {
      assert s[pos] != Empty; // abort() is never reached
      pos := if pos + 1 < a.Length then pos + 1 else 0;
      k := k + 1;
    }
  }

  /** Moves the live units of one table into an empty one, slot by slot. */
  method Refill(src: array<Slot>, a: array<Slot>, hashOf: string -> nat, ghost m: map<string, Unit>, ghost at: map<string, nat>)
    returns (ghost at': map<string, nat>)
    requires src != a && Table(src[..], hashOf, m, at) && |m| < a.Length
    requires Refilled(a[..], hashOf, SlotsBefore(src[..], hashOf, m, at, 0), map[])
    modifies a
    ensures Refilled(a[..], hashOf, SlotsBefore(old(src[..]), hashOf, m, at, src.Length), at')
  {
    ghost var was := src[..];
    at' := map[];
    var i := 0;
    while i < src.Length
      invariant 0 <= i <= src.Length && src[..] == was
      invariant Refilled(a[..], hashOf, SlotsBefore(was, hashOf, m, at, i), at')
    {
      at' := RefillSlot(was, src[i], a, hashOf, m, at, at', i);
      i := i + 1;
    }
  }

  /** A table without tombstones that stands for `m`. */
  ghost predicate Refilled(s: seq<Slot>, hashOf: string -> nat, m: map<string, Unit>, at: map<string, nat>) {
    Table(s, hashOf, m, at) && Lives(s) == |m| && Tombs(s) == 0
  }

  method RefillSlot(ghost was: seq<Slot>, x: Slot, a: array<Slot>, hashOf: string -> nat,
                    ghost m: map<string, Unit>, ghost at: map<string, nat>, ghost placed: map<string, nat>, ghost i: nat)
    returns (ghost placed': map<string, nat>)
    requires Table(was, hashOf, m, at) && |m| < a.Length && i < |was| && x == was[i]
    requires Refilled(a[..], hashOf, SlotsBefore(was, hashOf, m, at, i), placed)
    modifies a
    ensures Refilled(a[..], hashOf, SlotsBefore(was, hashOf, m, at, i + 1), placed')
  {
    SlotsBeforeNext(was, hashOf, m, at, i);
    placed' := placed;
    if x.Live? {
      placed' := Place(a, hashOf, x.u, SlotsBefore(was, hashOf, m, at, i), placed);
    }
  }

  /** The part of a table's map that sits in its first `i` slots. */
  ghost function SlotsBefore(s: seq<Slot>, hashOf: string -> nat, m: map<string, Unit>, at: map<string, nat>, i: nat)
    : map<string, Unit>
    requires Table(s, hashOf, m, at)
  {
    map n | n in at && at[n] < i :: m[n]
  }

  lemma RefillStarts(a: seq<Slot>, s: seq<Slot>, hashOf: string -> nat, m: map<string, Unit>, at: map<string, nat>)
    requires Table(s, hashOf, m, at) && a != []
    requires forall i :: 0 <= i < |a| ==> a[i] == Empty
    ensures Refilled(a, hashOf, SlotsBefore(s, hashOf, m, at, 0), map[])
  {
    AllEmptyCounts(a);
    assert SlotsBefore(s, hashOf, m, at, 0) == map[];
  }

  lemma SlotsBeforeLast(s: seq<Slot>, hashOf: string -> nat, m: map<string, Unit>, at: map<string, nat>)
    requires Table(s, hashOf, m, at)
    ensures SlotsBefore(s, hashOf, m, at, |s|) == m
  {
    forall n | n in at
      ensures at[n] < |s|
    {
      assert Placed(s, hashOf, n, m, at);
    }
  }

  lemma SlotsBeforeNext(s: seq<Slot>, hashOf: string -> nat, m: map<string, Unit>, at: map<string, nat>, i: nat)
    requires Table(s, hashOf, m, at) && i < |s|
    ensures var b := SlotsBefore(s, hashOf, m, at, i); var b' := SlotsBefore(s, hashOf, m, at, i + 1);
      if s[i].Live? then
        && s[i].u.name !in b && b' == b[s[i].u.name := s[i].u] && |b| < |m|
        && s[i].u.hash == hashOf(s[i].u.name)
      else b' == b && |b| <= |m|
  {
    var b := SlotsBefore(s, hashOf, m, at, i);
    forall n | n in at
      ensures s[i].Live? || at[n] != i
      ensures at[n] == i ==> n == s[i].u.name && m[n] == s[i].u
    {
      assert Placed(s, hashOf, n, m, at);
    }
    if s[i].Live? {
      assert Placed(s, hashOf, s[i].u.name, m, at);
      SmallerMap(b, m, s[i].u.name);
    } else if b.Keys != m.Keys {
      var n :| n in m && n !in b;
      SmallerMap(b, m, n);
    } else {
      assert b == m;
    }
  }

  lemma SmallerMap(a: map<string, Unit>, b: map<string, Unit>, n: string)
    requires a.Keys <= b.Keys && n in b && n !in a
    ensures |a| < |b|
  {
    Smaller(a.Keys, b.Keys, n);
  }

  lemma {:induction false} Smaller(a: set<string>, b: set<string>, n: string)
    requires a <= b && n in b && n !in a
    ensures |a| < |b|
  {
    if a != {} {
      var x :| x in a;
      Smaller(a - {x}, b - {x}, n);
    }
  }

  /** The first empty slot from `home`. */
  method ProbeEmpty(a: array<Slot>, home: nat, ghost name: string) returns (pos: nat)
    requires home < a.Length && Lives(a[..]) + Tombs(a[..]) < a.Length
    requires forall i :: 0 <= i < a.Length && a[i].Live? ==> a[i].u.name != name
    ensures pos < a.Length && a[pos] == Empty
    ensures Probed(a[..], home, Steps(home, pos, a.Length), name)
  {
    ghost var e := HasEmpty(a[..]);
    ghost var limit := Steps(home, e, a.Length);
    ghost var k: nat := 0;
    pos := home;
    while a[pos] != Empty
      invariant k <= limit && pos == Ahead(home, k, a.Length)
      invariant Probed(a[..], home, k, name)
      decreases limit - k
    {
      pos := if pos + 1 < a.Length then pos + 1 else 0;
      k := k + 1;
    }
    assert k == Steps(home, pos, a.Length);
  }

  /** Puts a unit that is not in the table yet into the first empty slot from its home. */
  method Place(a: array<Slot>, hashOf: string -> nat, u: Unit, ghost m: map<string, Unit>, ghost at: map<string, nat>)
    returns (ghost at': map<string, nat>)
    requires Table(a[..], hashOf, m, at) && u.name !in m && u.hash == hashOf(u.name)
    requires Lives(a[..]) == |m| < a.Length && Tombs(a[..]) == 0
    modifies a
    ensures Table(a[..], hashOf, m[u.name := u], at') && at'.Keys == at.Keys + {u.name}
    ensures Lives(a[..]) == |m| + 1 && Tombs(a[..]) == 0
  {
    var pos := ProbeEmpty(a, Home(u.hash, a.Length), u.name);
    InsertCounts(a[..], hashOf, m, at, u, pos);
    Store(a, pos, Live(u));
    at' := at[u.name := pos];
  }
}
