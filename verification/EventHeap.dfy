/** The heap of error events by time: heap_push and heap_pop of examples/systemd-errors.siml,
    which move a hole through the array instead of swapping. */
module EventHeap {
  import opened ProbeTable

  const INITIAL_HEAP_CAP := 64

  /** A timestamp and a pointer to the unit it counts for. */
  datatype Event = Event(ts: nat, unit: Unit?)

  function Parent(i: nat): (p: nat)
    requires i > 0
    ensures p < i
  {
    (i - 1) / 2
  }

  ghost predicate IsHeap(s: seq<Event>) {
    forall j :: 0 < j < |s| ==> s[Parent(j)].ts <= s[j].ts
  }

  /** The first event of a heap is the oldest one. */
  lemma {:induction false} FirstIsOldest(s: seq<Event>, i: nat)
    requires IsHeap(s) && i < |s|
    ensures s[0].ts <= s[i].ts
  {
    if i > 0 {
      FirstIsOldest(s, Parent(i));
    }
  }

  // ---------- the hole ----------

  /** A heap but for the place `i`, which may be too early for its parent; its children are
      in order with its parent. */
  ghost predicate Rising(t: seq<Event>, i: nat) {
    && i < |t|
    && (forall j :: 0 < j < |t| && j != i ==> t[Parent(j)].ts <= t[j].ts)
    && (forall j :: 0 < j < |t| && Parent(j) == i && i > 0 ==> t[Parent(i)].ts <= t[j].ts)
  }

  /** A heap but for the place `i`, which may be too late for its children; its children are
      in order with its parent. */
  ghost predicate Sinking(t: seq<Event>, i: nat) {
    && i < |t|
    && (forall j :: 0 < j < |t| && Parent(j) != i ==> t[Parent(j)].ts <= t[j].ts)
    && (forall j :: 0 < j < |t| && Parent(j) == i && i > 0 ==> t[Parent(i)].ts <= t[j].ts)
  }

  function Exchange(t: seq<Event>, i: nat, j: nat): (r: seq<Event>)
    requires i < |t| && j < |t|
    ensures |r| == |t|
  {
    t[i := t[j]][j := t[i]]
  }

  lemma ExchangeKeepsEvents(t: seq<Event>, i: nat, j: nat)
    requires i < |t| && j < |t|
    ensures multiset(Exchange(t, i, j)) == multiset(t)
  {
  }

  lemma Rise(t: seq<Event>, i: nat)
    requires Rising(t, i) && i > 0 && t[Parent(i)].ts > t[i].ts
    ensures Rising(Exchange(t, i, Parent(i)), Parent(i))
  {
    var p, r := Parent(i), Exchange(t, i, Parent(i));
    forall j | 0 < j < |r| && j != p
      ensures r[Parent(j)].ts <= r[j].ts
    {
      assert t[Parent(j)].ts <= t[j].ts || j == i;
    }
    forall j | 0 < j < |r| && Parent(j) == p && p > 0
      ensures r[Parent(p)].ts <= r[j].ts
    {
      assert t[Parent(p)].ts <= t[p].ts;
      assert t[p].ts <= t[j].ts || j == i;
    }
  }

  /** `c` is the child of `i` that has to move up. */
  ghost predicate OldestChild(t: seq<Event>, i: nat, c: nat) {
    && 0 < c < |t| && Parent(c) == i
    && (forall j :: 0 < j < |t| && Parent(j) == i ==> t[c].ts <= t[j].ts)
  }

  /** The choice between the two children. */
  lemma ChooseChild(t: seq<Event>, i: nat, c: nat)
    requires var left, right := i * 2 + 1, i * 2 + 2;
      left < |t| && c == if right < |t| && t[right].ts < t[left].ts then right else left
    ensures OldestChild(t, i, c)
  {
    forall j | 0 < j < |t| && Parent(j) == i
      ensures j == i * 2 + 1 || j == i * 2 + 2
    {
    }
  }

  lemma SettledAtLeaf(t: seq<Event>, i: nat)
    requires Sinking(t, i) && i * 2 + 1 >= |t|
    ensures IsHeap(t)
  {
  }

  lemma SettledAbove(t: seq<Event>, i: nat, c: nat)
    requires Sinking(t, i) && OldestChild(t, i, c) && t[i].ts <= t[c].ts
    ensures IsHeap(t)
  {
  }

  lemma Sink(t: seq<Event>, i: nat, c: nat)
    requires Sinking(t, i) && OldestChild(t, i, c) && t[c].ts < t[i].ts
    ensures Sinking(Exchange(t, i, c), c)
  {
  }

  class EventHeap {
    var v: array<Event>
    var len: nat

    ghost predicate Valid()
      reads this, v
    {
      len <= v.Length && IsHeap(v[..len])
    }

    constructor ()
      ensures Valid() && fresh(v) && len == 0
    {
      v := new Event[0];
      len := 0;
    }

    /** Doubles a full array, as xrealloc does. */
    method Reserve()
      requires len <= v.Length
      modifies this`v
      ensures len < v.Length && v[..len] == old(v[..len]) && (v == old(v) || fresh(v))
    {
      if len == v.Length {
        var bigger := new Event[if v.Length > 0 then v.Length * 2 else INITIAL_HEAP_CAP];
        forall i | 0 <= i < len {
          bigger[i] := v[i];
        }
        v := bigger;
      }
    }

    /** heap_push: exactly `ev` joins the heap. */
    method Push(ev: Event)
      requires Valid()
      modifies this, v
      ensures Valid() && (v == old(v) || fresh(v)) && len == old(len) + 1
      ensures multiset(v[..len]) == multiset(old(v[..len])) + multiset{ev}
    {
      Reserve();
      ghost var t := v[..len] + [ev];
      len := len + 1;
      RiseInto(v, len, ev, t);
    }

    /** heap_pop: exactly the returned event leaves the heap, and no event is older. */
    method Pop() returns (out: Event)
      requires Valid() && len > 0
      modifies this`len, v
      ensures Valid() && len == old(len) - 1
      ensures out == old(v[0]) && multiset(old(v[..len])) == multiset(v[..len]) + multiset{out}
      ensures forall e :: e in old(v[..len]) ==> out.ts <= e.ts
    {
      ghost var was := v[..len];
      OldestFirst(was);
      out := v[0];
      len := len - 1;
      var last := v[len];
      if len == 0 {
        assert was == [out];
        return;
      }
      ghost var t := was[..len][0 := last];
      ReplaceFirst(was);
      SinkInto(v, len, last, t);
    }
  }

  /** The array holds `t` except at the hole `i`. */
  ghost predicate Holds(s: seq<Event>, t: seq<Event>, i: nat) {
    |s| == |t| && forall j :: 0 <= j < |t| && j != i ==> s[j] == t[j]
  }

  /** Fills the hole at `i` from `c`, where the hole is afterwards. */
  method MoveHole(v: array<Event>, len: nat, i: nat, c: nat, ghost t: seq<Event>)
    requires len <= v.Length && Holds(v[..len], t, i) && i < len && c < len && i != c
    modifies v
    ensures Holds(v[..len], Exchange(t, i, c), c)
    ensures multiset(Exchange(t, i, c)) == multiset(t)
  {
    ExchangeKeepsEvents(t, i, c);
    v[i] := v[c];
  }

  method FillHole(v: array<Event>, len: nat, i: nat, e: Event, ghost t: seq<Event>)
    requires len <= v.Length && Holds(v[..len], t, i) && i < len && t[i] == e
    modifies v
    ensures v[..len] == t
  {
    v[i] := e;
  }

  /** The loop of heap_push: moves the hole up from the end until `ev` fits. */
  method RiseInto(v: array<Event>, len: nat, ev: Event, ghost t0: seq<Event>)
    requires 0 < len <= v.Length && |t0| == len && t0[len - 1] == ev
    requires Holds(v[..len], t0, len - 1)
    requires Rising(t0, len - 1)
    modifies v
    ensures IsHeap(v[..len]) && multiset(v[..len]) == multiset(t0)
  {
    ghost var t := t0;
    var i := len - 1;
    while i > 0
      invariant 0 <= i < len == |t| && t[i] == ev && Rising(t, i)
      invariant Holds(v[..len], t, i)
      invariant multiset(t) == multiset(t0)
    {
      var parent := (i - 1) / 2;
      assert v[..len][parent] == t[parent];
      if v[parent].ts <= ev.ts {
        break;
      }
      Rise(t, i);
      MoveHole(v, len, i, parent, t);
      t := Exchange(t, i, parent);
      i := parent;
    }
    FillHole(v, len, i, ev, t);
  }

  /** On the way down: the array holds `t` but for the hole `i`, where `last` belongs in `t`. */
  ghost predicate SinkingInto(s: seq<Event>, t: seq<Event>, i: nat, last: Event, all: multiset<Event>) {
    && Holds(s, t, i) && i < |t| && t[i] == last && Sinking(t, i) && multiset(t) == all
  }

  /** The loop of heap_pop: moves the hole down from the top until `last` fits. */
  method SinkInto(v: array<Event>, len: nat, last: Event, ghost t0: seq<Event>)
    requires 0 < len <= v.Length && SinkingInto(v[..len], t0, 0, last, multiset(t0))
    modifies v
    ensures IsHeap(v[..len]) && multiset(v[..len]) == multiset(t0)
  {
    ghost var t := t0;
    var i := 0;
    while i * 2 + 1 < len
      invariant 0 <= i < len && SinkingInto(v[..len], t, i, last, multiset(t0))
      decreases len - i
    {
      var left := i * 2 + 1;
      var right := left + 1;
      assert v[..len][left] == t[left] && (right < len ==> v[..len][right] == t[right]);
      var child := if right < len && v[right].ts < v[left].ts then right else left;
      ChooseChild(t, i, child);
      if v[child].ts >= last.ts {
        SettledAbove(t, i, child);
        FillHole(v, len, i, last, t);
        return;
      }
      SinkBelow(v, len, i, child, last, t, multiset(t0));
      t := Exchange(t, i, child);
      i := child;
    }
    SettledAtLeaf(t, i);
    FillHole(v, len, i, last, t);
  }

  /** One turn: the child moves up into the hole. */
  method SinkBelow(v: array<Event>, len: nat, i: nat, child: nat, last: Event, ghost t: seq<Event>, ghost all: multiset<Event>)
    requires len <= v.Length && SinkingInto(v[..len], t, i, last, all)
    requires OldestChild(t, i, child) && t[child].ts < last.ts
    modifies v
    ensures SinkingInto(v[..len], Exchange(t, i, child), child, last, all)
  {
    Sink(t, i, child);
    MoveHole(v, len, i, child, t);
  }

  lemma OldestFirst(s: seq<Event>)
    requires IsHeap(s) && s != []
    ensures forall e :: e in s ==> s[0].ts <= e.ts
  {
    forall i | 0 <= i < |s|
      ensures s[0].ts <= s[i].ts
    {
      FirstIsOldest(s, i);
    }
  }

  /** Moving the last event into the first place takes exactly the first one away. */
  lemma ReplaceFirst(s: seq<Event>)
    requires |s| > 1 && IsHeap(s)
    ensures var t := s[..|s| - 1][0 := s[|s| - 1]];
      multiset(s) == multiset(t) + multiset{s[0]} && Sinking(t, 0)
  {
    var init := s[..|s| - 1];
    assert s == init + [s[|s| - 1]];
  }
}
