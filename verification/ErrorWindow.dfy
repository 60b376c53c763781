/** The sliding window of error events: add_remote_main_entry, add_current_entry and expire_old
    of examples/systemd-errors.siml keep the per-unit counts in step with the heap. */
module ErrorWindow {
  import opened Wrappers
  import opened ProbeTable
  import opened EventHeap
  import U = UnitMap

  const SERVICE := ".service"

  /** ends_with_service. */
  predicate EndsWithService(name: string) {
    |name| >= |SERVICE| && name[|name| - |SERVICE|..] == SERVICE
  }

  lemma ServiceNames(name: string)
    ensures EndsWithService(name) <==> exists base :: name == base + ".service"
  {
    if EndsWithService(name) {
      assert name == name[..|name| - |SERVICE|] + ".service";
    }
  }

  /** How many events count for `u`. */
  function CountFor(s: seq<Event>, u: Unit): (n: nat)
    ensures n > 0 <==> exists i :: 0 <= i < |s| && s[i].unit == u
  {
    if s == [] then 0
    else
      assert forall i :: 0 <= i < |s| - 1 ==> s[..|s| - 1][i] == s[i];
      CountFor(s[..|s| - 1], u) + if s[|s| - 1].unit == u then 1 else 0
  }

  /** The positions of the events that count for `u`. */
  ghost function Positions(s: seq<Event>, u: Unit): set<int> {
    set i | 0 <= i < |s| && s[i].unit == u
  }

  /** Every event counts once, for its own unit. */
  lemma {:induction false} CountsEachOnce(s: seq<Event>, u: Unit)
    ensures CountFor(s, u) == |Positions(s, u)|
  {
    if s != [] {
      var n := |s| - 1;
      CountsEachOnce(s[..n], u);
      assert Positions(s, u) == Positions(s[..n], u) + (if s[n].unit == u then {n} else {});
    }
  }

  lemma {:induction false} CountWithout(s: seq<Event>, j: nat, u: Unit)
    requires j < |s|
    ensures CountFor(s, u) == CountFor(s[..j] + s[j + 1..], u) + (if s[j].unit == u then 1 else 0)
  {
    var n := |s| - 1;
    if j < n {
      CountWithout(s[..n], j, u);
      var rest := s[..j] + s[j + 1..];
      assert rest[..|rest| - 1] == s[..n][..j] + s[..n][j + 1..];
      assert rest[|rest| - 1] == s[n];
    } else {
      assert s[..j] + s[j + 1..] == s[..n];
    }
  }

  lemma WithoutOne(s: seq<Event>, j: nat)
    requires j < |s|
    ensures multiset(s[..j] + s[j + 1..]) == multiset(s) - multiset{s[j]}
  {
    var rest := s[..j] + s[j + 1..];
    assert s == s[..j] + [s[j]] + s[j + 1..];
    assert multiset(s) == multiset(rest) + multiset{s[j]};
  }

  lemma WithoutLast(s: seq<Event>)
    requires s != []
    ensures multiset(s[..|s| - 1]) == multiset(s) - multiset{s[|s| - 1]}
  {
    var n := |s| - 1;
    WithoutOne(s, n);
    assert s[..n] + s[n + 1..] == s[..n];
  }

  /** Counts depend on the events only, not on where the heap keeps them. */
  lemma {:induction false} CountsIgnoreOrder(a: seq<Event>, b: seq<Event>, u: Unit)
    requires multiset(a) == multiset(b)
    ensures CountFor(a, u) == CountFor(b, u)
    decreases |a|
  {
    if a == [] {
      assert |multiset(b)| == 0;
    } else {
      var n := |a| - 1;
      WithoutLast(a);
      assert a[n] in multiset(a);
      var j :| 0 <= j < |b| && b[j] == a[n];
      WithoutOne(b, j);
      CountsIgnoreOrder(a[..n], b[..j] + b[j + 1..], u);
      CountWithout(b, j, u);
    }
  }

  lemma {:induction false} CountAppend(s: seq<Event>, e: Event, u: Unit)
    ensures CountFor(s + [e], u) == CountFor(s, u) + (if e.unit == u then 1 else 0)
  {
    assert (s + [e])[..|s|] == s;
  }

  ghost predicate Named(m: map<string, Unit>) {
    forall n :: n in m ==> m[n].name == n
  }

  /** Every event points at the unit the map has under that unit's name. */
  ghost predicate Pointing(s: seq<Event>, m: map<string, Unit>) {
    forall i :: 0 <= i < |s| ==> s[i].unit != null && s[i].unit.name in m && m[s[i].unit.name] == s[i].unit
  }

  /** Every mapped unit counts its events, and has some. */
  ghost predicate Counted(s: seq<Event>, m: map<string, Unit>)
    reads m.Values
  {
    forall n :: n in m ==> m[n].count == CountFor(s, m[n]) > 0
  }

  /** Every unit except the one called `name` counts its events, and has some. */
  ghost predicate OthersCounted(s: seq<Event>, m: map<string, Unit>, name: string)
    reads m.Values
  {
    forall n :: n in m && n != name ==> m[n].count == CountFor(s, m[n]) > 0
  }

  /** The books are right for everyone but `u`, and for `u` when zero is allowed. */
  ghost predicate Open(s: seq<Event>, m: map<string, Unit>, u: Unit)
    reads m.Values, u
  {
    && Named(m) && Pointing(s, m)
    && u.name in m && m[u.name] == u && u.count == CountFor(s, u)
    && OthersCounted(s, m, u.name)
  }

  lemma Admitted(s: seq<Event>, m: map<string, Unit>, m2: map<string, Unit>, u: Unit)
    requires Named(m) && Pointing(s, m) && Counted(s, m)
    requires u.name in m ==> m[u.name] == u && m2 == m
    requires u.name !in m ==> u.count == 0 && m2 == m[u.name := u]
    ensures Open(s, m2, u)
  {
    if u.name !in m {
      assert forall n :: n in m ==> m[n] != u;
      StrangerUncounted(s, m, u);
    }
  }

  /** The books are right but for one event too many counted for `u`. */
  ghost predicate Overcounted(s: seq<Event>, m: map<string, Unit>, u: Unit)
    reads m.Values, u
  {
    && Named(m) && Pointing(s, m)
    && u.name in m && m[u.name] == u && u.count == CountFor(s, u) + 1
    && OthersCounted(s, m, u.name)
  }

  /** What popping `out` does to the books: only its own unit counts one event less. */
  lemma Popped(s: seq<Event>, t: seq<Event>, out: Event, m: map<string, Unit>)
    requires Named(m) && Pointing(s, m) && Counted(s, m)
    requires multiset(s) == multiset(t) + multiset{out}
    ensures out.unit != null && Overcounted(t, m, out.unit)
  {
    assert multiset(t + [out]) == multiset(s);
    PointingIgnoresOrder(s, t + [out], m);
    assert (t + [out])[|t|] == out;
    forall i | 0 <= i < |t|
      ensures (t + [out])[i] == t[i]
    {
    }
    forall n | n in m
      ensures m[n].count == CountFor(t, m[n]) + (if out.unit == m[n] then 1 else 0)
    {
      CountsIgnoreOrder(s, t + [out], m[n]);
      CountAppend(t, out, m[n]);
    }
  }

  /** A unit without events can leave: nothing points at it any more. */
  lemma Closed(s: seq<Event>, m: map<string, Unit>, u: Unit)
    requires Open(s, m, u) && u.count == 0
    ensures var left := m - {u.name}; Named(left) && Pointing(s, left) && Counted(s, left)
  {
    forall i | 0 <= i < |s|
      ensures s[i].unit.name != u.name
    {
      assert CountFor(s, u) == 0;
    }
  }

  /** No event counts for a unit that is not in the map. */
  lemma {:induction false} StrangerUncounted(s: seq<Event>, m: map<string, Unit>, u: Unit)
    requires Pointing(s, m) && u !in m.Values
    ensures CountFor(s, u) == 0
  {
    forall i | 0 <= i < |s|
      ensures s[i].unit != u
    {
      assert m[s[i].unit.name] in m.Values;
    }
  }

  lemma PointingIgnoresOrder(a: seq<Event>, b: seq<Event>, m: map<string, Unit>)
    requires multiset(a) == multiset(b) && Pointing(a, m)
    ensures Pointing(b, m)
  {
    forall i | 0 <= i < |b|
      ensures b[i].unit != null && b[i].unit.name in m && m[b[i].unit.name] == b[i].unit
    {
      assert b[i] in multiset(a);
    }
  }

  class App {
    const units: U.UnitMap
    const events: EventHeap
    const window: nat

    ghost function Events(): seq<Event>
      reads this, events, events.v
      requires events.Valid()
    {
      events.v[..events.len]
    }

    ghost predicate Valid()
      reads this, units, units.slots, events, events.v, units.units.Values
    {
      && units.Valid() && events.Valid()
      && Named(units.units)
      && Pointing(Events(), units.units)
      && Counted(Events(), units.units)
    }

    constructor (hashOf: string -> nat, window: nat)
      ensures Valid() && Events() == [] && this.window == window
    {
      units := new U.UnitMap(hashOf);
      events := new EventHeap();
      this.window := window;
    }

    /** add_remote_main_entry and add_current_entry: one event for its service, if it is recent. */
    method Add(name: Option<string>, ts: nat, cutoff: nat) returns (added: bool)
      requires Valid()
      modifies units, units.slots, events, events.v, units.units.Values
      ensures Valid()
      ensures added <==> name.Some? && ts >= cutoff && exists base :: name.value == base + ".service"
      ensures !added ==> Events() == old(Events()) && units.units == old(units.units)
      ensures added ==>
        && name.value in units.units
        && multiset(Events()) == multiset(old(Events())) + multiset{Event(ts, units.units[name.value])}
        && (name.value in old(units.units) ==> units.units == old(units.units))
        && (name.value !in old(units.units) ==>
              fresh(units.units[name.value]) && units.units == old(units.units)[name.value := units.units[name.value]])
    {
      if name.None? || ts < cutoff {
        return false;
      }
      ServiceNames(name.value);
      if !EndsWithService(name.value) {
        return false;
      }
      AddEvent(name.value, ts);
      added := true;
    }

    method AddEvent(name: string, ts: nat)
      requires Valid()
      modifies units, units.slots, events, events.v, units.units.Values
      ensures Valid() && name in units.units
      ensures multiset(Events()) == multiset(old(Events())) + multiset{Event(ts, units.units[name])}
      ensures if name in old(units.units) then units.units == old(units.units)
              else fresh(units.units[name]) && units.units == old(units.units)[name := units.units[name]]
    {
      var u := Admit(name);
      CountOne(u, ts);
    }

    /** The unit of this name; a new one is not counted by any event yet. */
    method Admit(name: string) returns (u: Unit)
      requires Valid()
      modifies units, units.slots
      ensures units.Valid() && events.Valid() && u.name == name
      ensures Open(old(Events()), units.units, u)
      ensures units.slots == old(units.slots) || fresh(units.slots)
      ensures if name in old(units.units) then units.units == old(units.units)
              else fresh(u) && units.units == old(units.units)[name := u]
    {
      ghost var m, s := units.units, Events();
      u := units.GetOrAdd(name);
      assert Counted(s, m);
      Admitted(s, m, units.units, u);
    }

    /** Every unit but possibly `u` is counted, and `u` is when zero counts as well. */
    ghost predicate AlmostValid(u: Unit)
      reads this, units, units.slots, events, events.v, units.units.Values, u
    {
      units.Valid() && events.Valid() && Open(Events(), units.units, u)
    }

    method CountOne(u: Unit, ts: nat)
      requires AlmostValid(u)
      modifies events, events.v, u`count
      ensures Valid() && multiset(Events()) == multiset(old(Events())) + multiset{Event(ts, u)}
    {
      ghost var was := Events();
      ghost var e := Event(ts, u);
      u.count := u.count + 1;
      events.Push(Event(ts, u));
      assert multiset(was + [e]) == multiset(Events());
      PointingIgnoresOrder(was + [e], Events(), units.units);
      forall n | n in units.units
        ensures units.units[n].count == CountFor(Events(), units.units[n]) > 0
      {
        CountAppend(was, e, units.units[n]);
        CountsIgnoreOrder(was + [e], Events(), units.units[n]);
      }
    }

    /** One turn of the expiry loop: the oldest event goes, and its unit with it if that was its
        last event. The count is never 0 beforehand, so abort() is never reached. */
    method ExpireOne() returns (out: Event)
      requires Valid() && events.len > 0
      modifies units, units.slots, events, events.v, units.units.Values
      ensures units.slots == old(units.slots) && events.v == old(events.v)
      ensures Valid() && events.len == old(events.len) - 1
      ensures out == old(Events()[0]) && multiset(old(Events())) == multiset(Events()) + multiset{out}
      ensures units.units.Keys <= old(units.units.Keys)
      ensures forall n :: n in units.units ==> units.units[n] == old(units.units[n])
    {
      ghost var m := units.units;
      out := PopOldest();
      Uncount(out.unit, Events(), m);
      if out.unit.count == 0 {
        DropUnit(out.unit);
      }
    }

    method PopOldest() returns (out: Event)
      requires Valid() && events.len > 0
      modifies events, events.v
      ensures events.v == old(events.v) && events.Valid() && events.len == old(events.len) - 1
      ensures out == old(Events()[0]) && multiset(old(Events())) == multiset(Events()) + multiset{out}
      ensures out.unit != null && Overcounted(Events(), units.units, out.unit)
    {
      ghost var s, m := Events(), units.units;
      out := events.Pop();
      assert Counted(s, m);
      Popped(s, Events(), out, m);
    }

    method Uncount(u: Unit, ghost t: seq<Event>, ghost m: map<string, Unit>)
      requires Overcounted(t, m, u)
      modifies u`count
      ensures Open(t, m, u)
    {
      assert forall n :: n in m && n != u.name ==> m[n] != u;
      u.count := u.count - 1;
    }

    method DropUnit(u: Unit)
      requires units.Valid() && events.Valid() && Open(Events(), units.units, u) && u.count == 0
      modifies units, units.slots
      ensures Valid() && units.slots == old(units.slots) && Events() == old(Events())
      ensures units.units == old(units.units) - {u.name}
    {
      ghost var s := Events();
      Closed(s, units.units, u);
      ghost var left := units.units - {u.name};
      units.Remove(u);
      assert Counted(s, left);
    }

    /** expire_old: exactly the events younger than the window stay, each as often as before, and
        the result says whether any left; while the clock is within one window of its start, those
        with a positive time stay. Units that keep an event keep their identity. */
    method ExpireOld(now: nat) returns (changed: bool)
      requires Valid()
      modifies units, units.slots, events, events.v, units.units.Values
      ensures Valid() && multiset(Events()) <= multiset(old(Events()))
      ensures now > window ==>
        && (forall e :: e in Events() ==> e.ts + window > now)
        && (forall e :: e in old(Events()) && e.ts + window > now ==> multiset(Events())[e] == multiset(old(Events()))[e])
        && (changed <==> exists e :: e in old(Events()) && e.ts + window <= now)
      ensures now <= window ==>
        && (forall e :: e in Events() ==> e.ts > 0)
        && (forall e :: e in old(Events()) && e.ts > 0 ==> multiset(Events())[e] == multiset(old(Events()))[e])
        && (changed <==> exists e :: e in old(Events()) && e.ts == 0)
      ensures forall n :: n in units.units ==> n in old(units.units) && units.units[n] == old(units.units[n])
    {
      ghost var was := Events();
      var cutoff := if now > window then now - window else 0;
      changed := ExpireUpTo(cutoff);
      KeptAsOften(was, Events(), cutoff);
    }

    /** The loop of expire_old, for a given cutoff. */
    method ExpireUpTo(cutoff: nat) returns (changed: bool)
      requires Valid()
      modifies units, units.slots, events, events.v, units.units.Values
      ensures Valid()
      ensures Kept(multiset(old(Events())), multiset(Events()), cutoff)
      ensures changed <==> exists e :: e in old(Events()) && e.ts <= cutoff
      ensures forall n :: n in units.units ==> n in old(units.units) && units.units[n] == old(units.units[n])
    {
      ghost var was, m := Events(), units.units;
      changed := false;
      while events.len > 0 && events.v[0].ts <= cutoff
        invariant Valid() && units.slots == old(units.slots) && events.v == old(events.v)
        invariant Keeping(multiset(was), multiset(Events()), cutoff)
        invariant changed ==> exists e :: e in was && e.ts <= cutoff
        invariant !changed ==> Events() == was
        invariant forall n :: n in units.units ==> n in m && units.units[n] == m[n]
        decreases events.len
      {
        ghost var before := Events();
        var out := ExpireOne();
        KeepingStep(was, before, Events(), out, cutoff);
        changed := true;
      }
      AllKept(was, Events(), cutoff);
    }
  }

  lemma KeptAsOften(was: seq<Event>, now: seq<Event>, cutoff: nat)
    requires Kept(multiset(was), multiset(now), cutoff)
    ensures multiset(now) <= multiset(was) && forall e :: e in now ==> e.ts > cutoff
    ensures forall e :: e in was && e.ts > cutoff ==> multiset(now)[e] == multiset(was)[e]
  {
    assert forall e :: e in now ==> e in multiset(now);
    assert forall e :: e in was ==> e in multiset(was);
  }

  /** What is left of a bag of events once everything up to the cutoff has expired: every later
      event as often as before, and nothing else. */
  ghost predicate Kept(was: multiset<Event>, now: multiset<Event>, cutoff: nat) {
    Keeping(was, now, cutoff) && forall e :: e in now ==> e.ts > cutoff
  }

  /** ... and while it is expiring. */
  ghost predicate Keeping(was: multiset<Event>, now: multiset<Event>, cutoff: nat) {
    now <= was && forall e :: e in was && e.ts > cutoff ==> now[e] == was[e]
  }

  lemma KeepingStep(was: seq<Event>, before: seq<Event>, after: seq<Event>, out: Event, cutoff: nat)
    requires Keeping(multiset(was), multiset(before), cutoff)
    requires multiset(before) == multiset(after) + multiset{out} && out.ts <= cutoff
    ensures Keeping(multiset(was), multiset(after), cutoff) && out in was
  {
    assert out in multiset(before);
    assert out in multiset(was);
  }

  /** When the oldest event is recent enough, all of them are. */
  lemma AllKept(was: seq<Event>, now: seq<Event>, cutoff: nat)
    requires Keeping(multiset(was), multiset(now), cutoff) && IsHeap(now)
    requires now == [] || now[0].ts > cutoff
    ensures Kept(multiset(was), multiset(now), cutoff)
    ensures now == was ==> forall e :: e in was ==> e.ts > cutoff
  {
    if now != [] {
      OldestFirst(now);
    }
  }
}
