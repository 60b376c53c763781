/** The context view: build_detail_from_context of examples/systemd-errors.siml shows each
    error with the lines around it and one gap for every run of lines it leaves out. */
module ContextLines {

  datatype Item = Item(ts: nat, priority: int, isError: bool, message: string)

  datatype Line = Gap | Log(item: Item)

  // ---------- specification ----------

  /** Position `k` is within `c` lines of the error at `i`. */
  predicate Near(i: int, k: int, c: nat) {
    i - c <= k <= i + c
  }

  /** Position `k` is within `c` lines of some error. */
  predicate Shown(items: seq<Item>, c: nat, k: int) {
    exists i :: 0 <= i < |items| && items[i].isError && Near(i, k, c)
  }

  predicate HasError(items: seq<Item>) {
    exists i :: 0 <= i < |items| && items[i].isError
  }

  /** The view of the first `n` positions: a shown item is a log line, the first position of an
      omitted run is a gap, and the rest of the run is nothing. */
  function Lines(items: seq<Item>, c: nat, n: nat): seq<Line>
    requires n <= |items|
  {
    if n == 0 then []
    else
      Lines(items, c, n - 1) +
      if Shown(items, c, n - 1) then [Log(items[n - 1])]
      else if n == 1 || Shown(items, c, n - 2) then [Gap]
      else []
  }

  function View(items: seq<Item>, c: nat): seq<Line> {
    if HasError(items) then Lines(items, c, |items|) else []
  }

  function Logs(items: seq<Item>, a: nat, b: nat): seq<Line>
    requires a <= b <= |items|
  {
    if a == b then [] else Logs(items, a, b - 1) + [Log(items[b - 1])]
  }

  lemma {:induction false} ShownRun(items: seq<Item>, c: nat, a: nat, b: nat)
    requires a <= b <= |items|
    requires forall k :: a <= k < b ==> Shown(items, c, k)
    ensures Lines(items, c, b) == Lines(items, c, a) + Logs(items, a, b)
  {
    if a < b {
      ShownRun(items, c, a, b - 1);
    }
  }

  lemma {:induction false} HiddenRun(items: seq<Item>, c: nat, a: nat, b: nat)
    requires a < b <= |items| && (a == 0 || Shown(items, c, a - 1))
    requires forall k :: a <= k < b ==> !Shown(items, c, k)
    ensures Lines(items, c, b) == Lines(items, c, a) + [Gap]
  {
    if a + 1 < b {
      HiddenRun(items, c, a, b - 1);
      assert !Shown(items, c, b - 2);
    }
  }

  /** The items of the log lines. */
  function Items(lines: seq<Line>): seq<Item> {
    if lines == [] then []
    else
      Items(lines[..|lines| - 1]) +
      match lines[|lines| - 1] { case Gap => [] case Log(item) => [item] }
  }

  /** The first `n` items, without those far from every error. */
  function ShownItems(items: seq<Item>, c: nat, n: nat): seq<Item>
    requires n <= |items|
  {
    if n == 0 then []
    else ShownItems(items, c, n - 1) + if Shown(items, c, n - 1) then [items[n - 1]] else []
  }

  /** Each item near an error appears exactly once and in order, and no other item does; no two
      gaps meet, so every omitted run has exactly one. */
  lemma {:induction false} ViewIsExact(items: seq<Item>, c: nat, n: nat)
    requires n <= |items|
    ensures Items(Lines(items, c, n)) == ShownItems(items, c, n)
    ensures var lines := Lines(items, c, n); forall j :: 0 < j < |lines| ==> !(lines[j - 1].Gap? && lines[j].Gap?)
    ensures n > 0 ==> var lines := Lines(items, c, n);
      lines != [] && (lines[|lines| - 1].Log? <==> Shown(items, c, n - 1))
  {
    if n > 0 {
      ViewIsExact(items, c, n - 1);
      var before, lines := Lines(items, c, n - 1), Lines(items, c, n);
      if Shown(items, c, n - 1) {
        assert lines == before + [Log(items[n - 1])];
        assert lines[..|lines| - 1] == before;
      } else if n == 1 || Shown(items, c, n - 2) {
        assert lines == before + [Gap];
        assert lines[..|lines| - 1] == before;
      } else {
        assert lines == before;
      }
    }
  }

  /** Which items a view shows: exactly those within `c` places of an error, each once and in
      order. Without an error there is nothing to see, not even a gap. */
  lemma {:induction false} ViewShows(items: seq<Item>, c: nat) returns (at: seq<nat>)
    ensures forall i, j :: 0 <= i < j < |at| ==> at[i] < at[j]
    ensures forall k :: k in at <==>
      0 <= k < |items| && exists i :: 0 <= i < |items| && items[i].isError && i <= k + c && k <= i + c
    ensures |Items(View(items, c))| == |at|
    ensures forall j :: 0 <= j < |at| ==> at[j] < |items| && Items(View(items, c))[j] == items[at[j]]
    ensures (forall i :: 0 <= i < |items| ==> !items[i].isError) ==> View(items, c) == []
    ensures (exists i :: 0 <= i < |items| && items[i].isError) ==> View(items, c) == Lines(items, c, |items|)
  {
    at := ShownPlaces(items, c, |items|);
    ViewIsExact(items, c, |items|);
    forall k: nat
      ensures Shown(items, c, k) <==> exists i :: 0 <= i < |items| && items[i].isError && i <= k + c && k <= i + c
    {
      ShownMeans(items, c, k);
    }
    if !HasError(items) {
      assert at != [] ==> at[0] in at && Shown(items, c, at[0]);
    }
  }

  lemma ShownMeans(items: seq<Item>, c: nat, k: nat)
    ensures Shown(items, c, k) <==> exists i :: 0 <= i < |items| && items[i].isError && i <= k + c && k <= i + c
  {
    forall i | 0 <= i < |items|
      ensures Near(i, k, c) <==> i <= k + c && k <= i + c
    {
    }
  }

  /** `at` lists the first `n` places that are shown. */
  ghost predicate Lists(items: seq<Item>, c: nat, n: nat, at: seq<nat>)
    requires n <= |items|
  {
    && (forall i, j :: 0 <= i < j < |at| ==> at[i] < at[j])
    && (forall k: nat :: k in at <==> k < n && Shown(items, c, k))
    && |ShownItems(items, c, n)| == |at|
    && (forall j :: 0 <= j < |at| ==> at[j] < n && ShownItems(items, c, n)[j] == items[at[j]])
  }

  lemma {:induction false} ShownPlaces(items: seq<Item>, c: nat, n: nat) returns (at: seq<nat>)
    requires n <= |items|
    ensures Lists(items, c, n, at)
  {
    if n == 0 {
      at := [];
    } else {
      var before := ShownPlaces(items, c, n - 1);
      if Shown(items, c, n - 1) {
        at := before + [n - 1];
        OneMorePlace(items, c, n, before);
      } else {
        at := before;
        assert forall k: nat :: k < n && Shown(items, c, k) ==> k < n - 1;
      }
    }
  }

  lemma OneMorePlace(items: seq<Item>, c: nat, n: nat, before: seq<nat>)
    requires 0 < n <= |items| && Lists(items, c, n - 1, before) && Shown(items, c, n - 1)
    ensures Lists(items, c, n, before + [n - 1])
  {
    var at := before + [n - 1];
    forall k: nat
      ensures k in at <==> k < n && Shown(items, c, k)
    {
      assert k in at <==> k in before || k == n - 1;
    }
  }

  // ---------- the one-pass merger ----------

  /** DetailView: a growing vector of lines. */
  class Detail {
    var lines: seq<Line>

    constructor ()
      ensures lines == []
    {
      lines := [];
    }

    method AppendGap()
      modifies this
      ensures lines == old(lines) + [Gap]
    {
      lines := lines + [Gap];
    }

    method AppendLog(item: Item)
      modifies this
      ensures lines == old(lines) + [Log(item)]
    {
      lines := lines + [Log(item)];
    }

    method AppendLogs(items: seq<Item>, start: nat, end: nat)
      requires start <= end <= |items|
      modifies this
      ensures lines == old(lines) + Logs(items, start, end)
    {
      var k := start;
      while k < end
        invariant start <= k <= end
        invariant lines == old(lines) + Logs(items, start, k)
      {
        AppendLog(items[k]);
        k := k + 1;
      }
    }
  }

  /** Where the region of the last error ends. */
  predicate EndsAt(items: seq<Item>, c: nat, last: nat, end: nat) {
    last < |items| && end == if last + 1 + c < |items| then last + 1 + c else |items|
  }

  /** What the region of the first error adds to the view. */
  lemma {:induction false} FirstRegion(items: seq<Item>, c: nat, i: nat, start: nat, end: nat)
    requires i < |items| && items[i].isError && forall j :: 0 <= j < i ==> !items[j].isError
    requires start == (if i > c then i - c else 0) && EndsAt(items, c, i, end)
    ensures Lines(items, c, end) == (if start > 0 then [Gap] else []) + Logs(items, start, end)
  {
    HiddenBefore(items, c, i, start);
    RegionShown(items, c, i, start, end);
    ShownRun(items, c, start, end);
  }

  /** What the region of a later error adds: with a gap, as a continuation, or nothing. */
  lemma {:induction false} NextRegion(items: seq<Item>, c: nat, last: nat, i: nat, emitted: nat, start: nat, end: nat)
    requires last < i < |items| && items[last].isError && items[i].isError
    requires forall j :: last < j < i ==> !items[j].isError
    requires EndsAt(items, c, last, emitted) && EndsAt(items, c, i, end) && start == if i > c then i - c else 0
    ensures start > emitted ==> Lines(items, c, end) == Lines(items, c, emitted) + [Gap] + Logs(items, start, end)
    ensures start <= emitted < end ==> Lines(items, c, end) == Lines(items, c, emitted) + Logs(items, emitted, end)
    ensures end <= emitted ==> end == emitted
  {
    RegionShown(items, c, i, start, end);
    if start > emitted {
      HiddenBetween(items, c, last, i, emitted, start);
      HiddenRun(items, c, emitted, start);
      ShownRun(items, c, start, end);
    } else if end > emitted {
      ShownRun(items, c, emitted, end);
    }
  }

  /** The body of the loop for an error at `i`: emits what its region adds. `prefix` is what the
      view held before the first region. */
  method AddRegion(detail: Detail, items: seq<Item>, c: nat, i: nat, haveRegion: bool, emittedEnd: nat,
                   ghost last: nat, ghost prefix: seq<Line>) returns (end: nat)
    requires i < |items| && items[i].isError
    requires !haveRegion ==> emittedEnd == 0 && forall j :: 0 <= j < i ==> !items[j].isError
    requires haveRegion ==>
      && last < i && items[last].isError && EndsAt(items, c, last, emittedEnd)
      && forall j :: last < j < i ==> !items[j].isError
    requires emittedEnd <= |items| && detail.lines == prefix + Lines(items, c, emittedEnd)
    modifies detail
    ensures EndsAt(items, c, i, end) && detail.lines == prefix + Lines(items, c, end)
  {
    var start := if i > c then i - c else 0;
    end := i + 1;
    if c > |items| - end {
      end := |items|;
    } else {
      end := end + c;
    }
    if !haveRegion {
      FirstRegion(items, c, i, start, end);
      if start > 0 {
        detail.AppendGap();
      }
      detail.AppendLogs(items, start, end);
      return;
    }
    NextRegion(items, c, last, i, emittedEnd, start, end);
    if start > emittedEnd {
      detail.AppendGap();
      detail.AppendLogs(items, start, end);
    } else if end > emittedEnd {
      detail.AppendLogs(items, emittedEnd, end);
    }
  }

  /** build_detail_from_context: one pass over the items, merging regions that touch. */
  method BuildDetail(detail: Detail, items: seq<Item>, c: nat)
    modifies detail
    ensures detail.lines == old(detail.lines) + View(items, c)
  {
    ghost var prefix := detail.lines;
    var haveRegion := false;
    var emittedEnd := 0;
    ghost var last := 0;
    var i := 0;
    while i < |items|
      invariant 0 <= i <= |items| && 0 <= emittedEnd <= |items| && 0 <= last
      invariant !haveRegion ==> emittedEnd == 0 && forall j :: 0 <= j < i ==> !items[j].isError
      invariant haveRegion ==>
        && last < i && items[last].isError && EndsAt(items, c, last, emittedEnd)
        && forall j :: last < j < i ==> !items[j].isError
      invariant detail.lines == prefix + Lines(items, c, emittedEnd)
    {
      if items[i].isError {
        emittedEnd := AddRegion(detail, items, c, i, haveRegion, emittedEnd, last, prefix);
        haveRegion := true;
        last := i;
      }
      i := i + 1;
    }
    if haveRegion && emittedEnd < |items| {
      HiddenAfter(items, c, last, emittedEnd);
      detail.AppendGap();
    }
  }

  /** An error shows its whole region. */
  lemma RegionShown(items: seq<Item>, c: nat, i: nat, start: int, end: int)
    requires i < |items| && items[i].isError && i - c <= start && end <= i + 1 + c
    ensures forall k :: start <= k < end ==> Shown(items, c, k)
  {
    assert forall k :: start <= k < end ==> Near(i, k, c);
  }

  /** Nothing before the first error's region is shown. */
  lemma {:induction false} HiddenBefore(items: seq<Item>, c: nat, first: nat, b: nat)
    requires first < |items| && forall j :: 0 <= j < first ==> !items[j].isError
    requires b <= first && (b == 0 || b <= first - c)
    ensures Lines(items, c, b) == if b > 0 then [Gap] else []
  {
    if b > 0 {
      HiddenRun(items, c, 0, b);
    }
  }

  /** Nothing between the regions of two consecutive errors is shown. */
  lemma HiddenBetween(items: seq<Item>, c: nat, last: nat, next: nat, a: nat, b: nat)
    requires last < next < |items| && forall j :: last < j < next ==> !items[j].isError
    requires EndsAt(items, c, last, a) && items[last].isError && a <= b <= next - c
    ensures forall k :: a <= k < b ==> !Shown(items, c, k)
    ensures a > 0 && Shown(items, c, a - 1)
  {
    assert Near(last, a - 1, c);
  }

  /** Nothing after the last error's region is shown. */
  lemma {:induction false} HiddenAfter(items: seq<Item>, c: nat, last: nat, a: nat)
    requires EndsAt(items, c, last, a) && items[last].isError
    requires forall j :: last < j < |items| ==> !items[j].isError
    requires a < |items|
    ensures Lines(items, c, |items|) == Lines(items, c, a) + [Gap]
  {
    assert Near(last, a - 1, c);
    HiddenRun(items, c, a, |items|);
  }
}
