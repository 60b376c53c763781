/** What is printed and what is run: the block that src/plan.c prints through the bounded output
    of src/util.c, and the script that src/install.c writes from the same lines. */
module PlanText {
  import opened Text
  import opened Wrappers
  import opened BlockLines
  import CacheRecord

  /** HM_LINE_CAP and HM_OUT_CAP. */
  const CAP := 4096

  // ---------- hm_out ----------

  /** A conversion of hm_vformat: a byte of the format, %% or %c; %s or %S; %u; %d. */
  datatype Directive = Byte(ch: char) | Str(s: string) | Unsigned(n: nat) | Signed(v: int)

  predicate Fits(fmt: seq<Directive>) {
    forall i :: 0 <= i < |fmt| ==>
      (fmt[i].Unsigned? ==> fmt[i].n < TWO_64) && (fmt[i].Signed? ==> -TWO_63 <= fmt[i].v < TWO_63)
  }

  function Rendered(fmt: seq<Directive>): string {
    if fmt == [] then "" else DirectiveText(fmt[0]) + Rendered(fmt[1..])
  }

  /** Bytes and strings stand for themselves, one after the other. */
  lemma {:induction false} BytesStandForThemselves(ch: char, s: string, more: seq<Directive>)
    ensures Rendered([Byte(ch), Str(s)] + more) == [ch] + s + Rendered(more)
  {
    var fmt := [Byte(ch), Str(s)] + more;
    assert fmt[1..][1..] == more;
    assert Rendered(fmt[1..]) == s + Rendered(more);
  }

  /** Numbers are written in decimal, negative ones with a sign, and read back. */
  lemma NumbersReadBack(n: nat, v: int)
    ensures var u := Rendered([Unsigned(n)]); AllDigits(u) && u != "" && DecimalValue(u) == n
    ensures var r := Rendered([Signed(v)]);
      if v < 0 then r != "" && r[0] == '-' && AllDigits(r[1..]) && r[1..] != "" && DecimalValue(r[1..]) == -v
      else AllDigits(r) && r != "" && DecimalValue(r) == v
  {
    DecimalRoundTrip(n);
    assert Decimal(n) + "" == Decimal(n) && Rendered([Unsigned(n)]) == Decimal(n) + "";
    var size := if v < 0 then -v else v;
    DecimalRoundTrip(size);
    assert Decimal(size) + "" == Decimal(size);
    assert ("-" + Decimal(size) + "")[1..] == Decimal(size);
  }

  /** hm_vformat: renders into `dst`, cutting off what does not fit. */
  method Format(dst: array<char>, fmt: seq<Directive>) returns (o: nat)
    requires Fits(fmt)
    modifies dst
    ensures o <= dst.Length && dst[..o] == Take(Rendered(fmt), dst.Length)
  {
    o := 0;
    var i := 0;
    ghost var x := "";
    assert fmt[0..] == fmt && x + Rendered(fmt) == Rendered(fmt);
    while i < |fmt| && o < dst.Length
      invariant 0 <= i <= |fmt| && Formatting(dst[..], o, x) && Rendering(fmt, i, x)
    {
      RenderingGoesOn(fmt, i, x);
      match fmt[i] {
        case Byte(ch) =>
          o := AppendByte(dst, o, ch, x);
        case Str(s) =>
          o := Append(dst, o, s, x);
        case Unsigned(n) =>
          o := AppendNumber(dst, o, n, x);
        case Signed(v) =>
          o := AppendSigned(dst, o, v, x);
      }
      x := x + DirectiveText(fmt[i]);
      i := i + 1;
    }
    FormattedRest(dst[..], o, fmt, i, x);
  }

  function DirectiveText(d: Directive): string {
    match d
    case Byte(ch) => [ch]
    case Str(s) => s
    case Unsigned(n) => Decimal(n)
    case Signed(v) => if v < 0 then "-" + Decimal(-v) else Decimal(v)
  }

  /** The directives before `i` render to `x`. */
  ghost predicate Rendering(fmt: seq<Directive>, i: nat, x: string) {
    i <= |fmt| && Rendered(fmt) == x + Rendered(fmt[i..])
  }

  lemma RenderingGoesOn(fmt: seq<Directive>, i: nat, x: string)
    requires Rendering(fmt, i, x) && i < |fmt|
    ensures Rendering(fmt, i + 1, x + DirectiveText(fmt[i]))
  {
    assert fmt[i..][1..] == fmt[i + 1..];
    var text, rest := DirectiveText(fmt[i]), Rendered(fmt[i + 1..]);
    assert x + (text + rest) == (x + text) + rest;
  }

  /** What has been written of `x`: as much of it as fits. */
  ghost predicate Formatting(b: string, o: nat, x: string) {
    o <= |b| && b[..o] == Take(x, |b|)
  }

  lemma {:induction false} FormattedRest(b: string, o: nat, fmt: seq<Directive>, i: nat, x: string)
    requires Formatting(b, o, x) && Rendering(fmt, i, x) && (i == |fmt| || o == |b|)
    ensures Formatting(b, o, Rendered(fmt))
  {
    var rest := Rendered(fmt[i..]);
    if i == |fmt| {
      assert fmt[i..] == [] && x + "" == x;
    } else {
      assert (x + rest)[..|b|] == x[..|b|];
    }
  }

  method AppendByte(dst: array<char>, o: nat, ch: char, ghost x: string) returns (o': nat)
    requires Formatting(dst[..], o, x) && o < dst.Length
    modifies dst
    ensures Formatting(dst[..], o', x + [ch])
  {
    ghost var was := dst[..];
    dst[o] := ch;
    o' := o + 1;
    assert dst[..o + 1] == was[..o] + [ch];
  }

  method Append(dst: array<char>, o: nat, s: string, ghost x: string) returns (o': nat)
    requires Formatting(dst[..], o, x)
    modifies dst
    ensures Formatting(dst[..], o', x + s)
  {
    o' := o;
    var i := 0;
    assert x + s[..0] == x;
    while i < |s| && o' < dst.Length
      invariant 0 <= i <= |s| && 0 <= o' && Formatting(dst[..], o', x + s[..i])
    {
      assert x + s[..i + 1] == x + s[..i] + [s[i]];
      o' := AppendByte(dst, o', s[i], x + s[..i]);
      i := i + 1;
    }
    CutOff(dst[..], o', x, s, i);
  }

  /** fmt_ulong: the digits, most significant first, as far as they fit. */
  method AppendNumber(dst: array<char>, o: nat, n: nat, ghost x: string) returns (o': nat)
    requires Formatting(dst[..], o, x) && n < TWO_64
    modifies dst
    ensures Formatting(dst[..], o', x + Decimal(n))
  {
    var tmp := CacheRecord.DigitsBackwards(n);
    ghost var digits := CacheRecord.Reversed(tmp);
    var left := |tmp|;
    o' := o;
    assert x + digits[..0] == x;
    while left > 0 && o' < dst.Length
      invariant 0 <= left <= |tmp| == |digits| && 0 <= o' && Formatting(dst[..], o', x + digits[..|tmp| - left])
    {
      left := left - 1;
      CacheRecord.ReversedAt(tmp, left);
      ghost var k := |tmp| - 1 - left;
      assert x + digits[..k + 1] == x + digits[..k] + [digits[k]];
      o' := AppendByte(dst, o', tmp[left], x + digits[..k]);
    }
    CutOff(dst[..], o', x, digits, |tmp| - left);
  }

  method AppendSigned(dst: array<char>, o: nat, v: int, ghost x: string) returns (o': nat)
    requires Formatting(dst[..], o, x) && -TWO_63 <= v < TWO_63 && o < dst.Length
    modifies dst
    ensures Formatting(dst[..], o', x + DirectiveText(Signed(v)))
  {
    if v < 0 {
      o' := AppendByte(dst, o, '-', x);
      if o' < dst.Length {
        o' := AppendNumber(dst, o', -v, x + ['-']);
        Associative(x, "-", Decimal(-v));
      } else {
        Associative(x, "-", Decimal(-v));
        FullStays(dst[..], o', x + "-", Decimal(-v));
      }
    } else {
      o' := AppendNumber(dst, o, v, x);
    }
  }

  lemma FullStays(b: string, o: nat, x: string, more: string)
    requires Formatting(b, o, x) && o == |b|
    ensures Formatting(b, o, x + more)
  {
    assert (x + more)[..|b|] == x[..|b|];
  }

  lemma CutOff(b: string, o: nat, x: string, s: string, i: nat)
    requires i <= |s| && Formatting(b, o, x + s[..i]) && (i == |s| || o == |b|)
    ensures Formatting(b, o, x + s)
  {
    if i == |s| {
      assert s[..i] == s;
    } else {
      assert (x + s)[..|b|] == (x + s[..i])[..|b|];
    }
  }

  /** The statics of src/util.c behind hm_out, and what has reached the file descriptor. */
  class Output {
    const buf: array<char>
    var len: nat
    var written: string

    constructor ()
      ensures Valid() && fresh(buf) && Stream() == ""
    {
      buf := new char[CAP];
      len, written := 0, "";
    }

    predicate Valid()
      reads this
    {
      buf.Length == CAP && len <= CAP
    }

    /** Everything printed so far, flushed or not. */
    function Stream(): string
      reads this, buf
      requires Valid()
    {
      written + buf[..len]
    }

    /** hm_out_flush */
    method Flush()
      requires Valid()
      modifies this
      ensures Valid() && len == 0 && written == old(Stream())
    {
      written := written + buf[..len];
      len := 0;
    }

    /** hm_out: each call prints at most CAP bytes, in order, whatever is flushed when. */
    method Out(fmt: seq<Directive>)
      requires Valid() && Fits(fmt)
      modifies this, buf
      ensures Valid() && Stream() == old(Stream()) + Take(Rendered(fmt), 4096)
    {
      var line := new char[CAP];
      var n := Format(line, fmt);
      if n > CAP - len {
        Flush();
      }
      Put(line, n);
    }

    method Put(line: array<char>, n: nat)
      requires Valid() && n <= line.Length && n <= CAP - len && line != buf
      modifies `len, buf
      ensures Valid() && Stream() == old(Stream()) + line[..n]
    {
      ghost var was := buf[..len];
      var at := len;
      forall i | 0 <= i < n {
        buf[at + i] := line[i];
      }
      len := at + n;
      assert buf[..at + n] == was + line[..n];
      assert written + (was + line[..n]) == written + was + line[..n];
    }
  }

  // ---------- the two renderings of a block ----------

  /** A line of the plan: blank, or indented by `columns` and then cut off. */
  function PlanLine(line: string, columns: nat): string {
    Take(if line == "" then "\n" else Spaces(columns) + line + "\n", CAP)
  }

  function PlanBlock(lines: seq<string>, columns: nat): string {
    if lines == [] then "" else PlanLine(lines[0], columns) + PlanBlock(lines[1..], columns)
  }

  function ScriptBody(lines: seq<string>): string {
    if lines == [] then "" else lines[0] + "\n" + ScriptBody(lines[1..])
  }

  function Columns(columns: nat): (fmt: seq<Directive>)
    ensures Fits(fmt)
  {
    if columns == 0 then [] else [Byte(' ')] + Columns(columns - 1)
  }

  lemma {:induction false} ColumnsRender(columns: nat, line: string)
    ensures Rendered(Columns(columns) + [Str(line), Byte('\n')]) == Spaces(columns) + line + "\n"
  {
    var tail := [Str(line), Byte('\n')];
    TailRenders(line);
    ColumnsThen(columns, tail);
    Associative(Spaces(columns), line, "\n");
  }

  lemma {:induction false} RenderedCons(d: Directive, more: seq<Directive>, tail: seq<Directive>)
    ensures Rendered([d] + more + tail) == DirectiveText(d) + Rendered(more + tail)
  {
    assert ([d] + more + tail)[1..] == more + tail;
  }

  lemma {:induction false} ColumnsThen(columns: nat, tail: seq<Directive>)
    ensures Rendered(Columns(columns) + tail) == Spaces(columns) + Rendered(tail)
  {
    if columns == 0 {
      assert Columns(0) + tail == tail;
      assert Spaces(0) + Rendered(tail) == Rendered(tail);
    } else {
      ColumnsThen(columns - 1, tail);
      RenderedCons(Byte(' '), Columns(columns - 1), tail);
      Associative([' '], Spaces(columns - 1), Rendered(tail));
    }
  }

  lemma TailRenders(line: string)
    ensures Rendered([Str(line), Byte('\n')]) == line + "\n"
  {
    assert [Str(line), Byte('\n')][1..] == [Byte('\n')];
    assert Rendered([Byte('\n')]) == "\n" + Rendered([]);
    assert "\n" + "" == "\n";
  }

  /** Walking a region: `lines` have been yielded, the rest starts at `cursor`. */
  ghost predicate Walking(buf: string, r: Region, lines: seq<string>, cursor: nat) {
    && r.end <= |buf| && r.start.Some? && r.start.value <= cursor
    && lines + LinesFrom(buf, cursor, r.end, r.indent) == RegionLines(buf, r)
  }

  lemma WalkStarts(buf: string, r: Region)
    requires r.end <= |buf| && r.start.Some?
    ensures Walking(buf, r, [], r.start.value)
  {
    assert [] + RegionLines(buf, r) == RegionLines(buf, r);
  }

  lemma WalkGoesOn(buf: string, r: Region, lines: seq<string>, cursor: nat, line: string, next: nat)
    requires Walking(buf, r, lines, cursor) && cursor < r.end && (line, next) == NextAt(buf, cursor, r.end, r.indent)
    ensures Walking(buf, r, lines + [line], next)
  {
    var rest := LinesFrom(buf, next, r.end, r.indent);
    assert lines + ([line] + rest) == lines + [line] + rest;
  }

  lemma WalkEnds(buf: string, r: Region, lines: seq<string>, cursor: nat)
    requires Walking(buf, r, lines, cursor) && cursor >= r.end
    ensures lines == RegionLines(buf, r)
  {
    assert lines + [] == lines;
  }

  /** The loop of print_install (two columns) and of print_files (four). */
  method PrintBlock(o: Output, buf: string, r: Region, columns: nat)
    requires o.Valid() && r.end <= |buf|
    modifies o, o.buf
    ensures o.Valid() && o.Stream() == old(o.Stream()) + PlanBlock(RegionLines(buf, r), columns)
  {
    ghost var head := o.Stream();
    assert head + "" == head;
    if r.start == None {
      return;
    }
    var more, line, cursor := true, "", r.start.value;
    ghost var lines: seq<string> := [];
    WalkStarts(buf, r);
    while true
      invariant 0 <= cursor && o.Valid() && Walking(buf, r, lines, cursor)
      invariant o.Stream() == head + PlanBlock(lines, columns)
      decreases r.end - cursor
    {
      ghost var at := cursor;
      more, line, cursor := NextLine(buf, r, cursor);
      if !more {
        WalkEnds(buf, r, lines, at);
        break;
      }
      WalkGoesOn(buf, r, lines, at, line, cursor);
      PrintLine(o, line, columns);
      PlanGrows(head, lines, line, columns);
      lines := lines + [line];
    }
  }

  method PrintLine(o: Output, line: string, columns: nat)
    requires o.Valid()
    modifies o, o.buf
    ensures o.Valid() && o.Stream() == old(o.Stream()) + PlanLine(line, columns)
  {
    if line == "" {
      assert Rendered([Byte('\n')]) == "\n" + Rendered([]);
      o.Out([Byte('\n')]);
    } else {
      ColumnsRender(columns, line);
      o.Out(Columns(columns) + [Str(line), Byte('\n')]);
    }
  }

  lemma {:induction false} PlanSnoc(lines: seq<string>, line: string, columns: nat)
    ensures PlanBlock(lines + [line], columns) == PlanBlock(lines, columns) + PlanLine(line, columns)
  {
    if lines == [] {
      assert PlanBlock([line], columns) == PlanLine(line, columns) + PlanBlock([line][1..], columns);
    } else {
      assert (lines + [line])[1..] == lines[1..] + [line];
      PlanSnoc(lines[1..], line, columns);
    }
  }

  lemma {:induction false} PlanGrows(head: string, lines: seq<string>, line: string, columns: nat)
    ensures head + PlanBlock(lines + [line], columns) == head + PlanBlock(lines, columns) + PlanLine(line, columns)
  {
    PlanSnoc(lines, line, columns);
  }

  /** write_script: the interpreter line and then every line of the block. */
  method WriteScript(buf: string, r: Region, shell: string) returns (script: string)
    requires r.end <= |buf|
    ensures script == "#!" + shell + "\n" + ScriptBody(RegionLines(buf, r))
  {
    script := "#!" + shell + "\n";
    ghost var head := script;
    assert script == head + "";
    if r.start == None {
      return;
    }
    ghost var lines: seq<string> := [];
    var more, line, cursor := true, "", r.start.value;
    WalkStarts(buf, r);
    while true
      invariant 0 <= cursor && Walking(buf, r, lines, cursor)
      invariant script == head + ScriptBody(lines)
      decreases r.end - cursor
    {
      ghost var at := cursor;
      more, line, cursor := NextLine(buf, r, cursor);
      if !more {
        WalkEnds(buf, r, lines, at);
        break;
      }
      WalkGoesOn(buf, r, lines, at, line, cursor);
      ScriptSnoc(lines, line);
      script := script + line + "\n";
      lines := lines + [line];
    }
  }

  lemma {:induction false} ScriptSnoc(lines: seq<string>, line: string)
    ensures ScriptBody(lines + [line]) == ScriptBody(lines) + line + "\n"
  {
    if lines == [] {
      assert ScriptBody([line]) == line + "\n" + ScriptBody([line][1..]);
    } else {
      assert (lines + [line])[1..] == lines[1..] + [line];
      ScriptSnoc(lines[1..], line);
    }
  }

  // ---------- the plan shows the script ----------

  /** A text with the first `columns` bytes of every non-empty line removed. */
  function Undent(s: string, columns: nat): string
    decreases |s|
  {
    var n := IndexOf(s, '\n');
    var line := s[..n];
    line[Min(columns, n)..] + if n == |s| then "" else "\n" + Undent(s[n + 1..], columns)
  }

  function LineFeeds(s: string): nat {
    if s == "" then 0 else (if s[0] == '\n' then 1 else 0) + LineFeeds(s[1..])
  }

  predicate FitsPlan(line: string, columns: nat) {
    line == "" || columns + |line| + 1 <= CAP
  }

  lemma {:induction false} LineFeedsAppend(a: string, b: string)
    ensures LineFeeds(a + b) == LineFeeds(a) + LineFeeds(b)
  {
    if a == "" {
      assert a + b == b;
    } else {
      LineFeedsAppend(a[1..], b);
      assert (a + b)[1..] == a[1..] + b;
    }
  }

  lemma {:induction false} NoLineFeeds(s: string)
    requires '\n' !in s
    ensures LineFeeds(s) == 0
  {
    if s != "" {
      assert s[0] in s;
      NoLineFeeds(s[1..]);
    }
  }

  lemma {:induction false} UndentKeepsLineFeeds(s: string, columns: nat)
    ensures LineFeeds(Undent(s, columns)) == LineFeeds(s)
    decreases |s|
  {
    var n := IndexOf(s, '\n');
    var line := s[..n];
    var kept := line[Min(columns, n)..];
    NoLineFeeds(line);
    NoLineFeeds(kept);
    if n < |s| {
      var rest := s[n + 1..];
      UndentKeepsLineFeeds(rest, columns);
      assert s == line + ("\n" + rest);
      LineFeedsAppend(line, "\n" + rest);
      LineFeedsAppend(kept, "\n" + Undent(rest, columns));
      LineFeedsAppend("\n", rest);
      LineFeedsAppend("\n", Undent(rest, columns));
    } else {
      assert s == line && kept + "" == kept;
    }
  }

  predicate Lines(lines: seq<string>) {
    forall i :: 0 <= i < |lines| ==> '\n' !in lines[i]
  }

  lemma {:induction false} FittingBlock(lines: seq<string>, columns: nat)
    requires Lines(lines) && forall i :: 0 <= i < |lines| ==> FitsPlan(lines[i], columns)
    ensures Undent(PlanBlock(lines, columns), columns) == ScriptBody(lines)
  {
    if lines != [] {
      FittingBlock(lines[1..], columns);
      UndentFirst(lines[0], PlanBlock(lines[1..], columns), columns);
    }
  }

  lemma {:induction false} UndentFirst(line: string, rest: string, columns: nat)
    requires '\n' !in line && FitsPlan(line, columns)
    ensures Undent(PlanLine(line, columns) + rest, columns) == line + "\n" + Undent(rest, columns)
  {
    var body := if line == "" then "" else Spaces(columns) + line;
    assert PlanLine(line, columns) == body + "\n";
    assert body[Min(columns, |body|)..] == line;
    UndentLine(body, rest, columns);
  }

  lemma {:induction false} UndentLine(body: string, rest: string, columns: nat)
    requires '\n' !in body
    ensures Undent(body + "\n" + rest, columns) == body[Min(columns, |body|)..] + "\n" + Undent(rest, columns)
  {
    var s := body + "\n" + rest;
    IndexOfUnique(s, '\n', |body|);
    assert s[..|body|] == body && s[|body| + 1..] == rest;
    var kept := body[Min(columns, |body|)..];
    assert kept + ("\n" + Undent(rest, columns)) == kept + "\n" + Undent(rest, columns);
  }

  lemma {:induction false} ScriptLineFeeds(lines: seq<string>)
    requires Lines(lines)
    ensures LineFeeds(ScriptBody(lines)) == |lines|
  {
    if lines != [] {
      ScriptLineFeeds(lines[1..]);
      NoLineFeeds(lines[0]);
      assert lines[0] + "\n" + ScriptBody(lines[1..]) == lines[0] + ("\n" + ScriptBody(lines[1..]));
      LineFeedsAppend(lines[0], "\n" + ScriptBody(lines[1..]));
      LineFeedsAppend("\n", ScriptBody(lines[1..]));
    }
  }

  lemma PlanLineFeeds(line: string, columns: nat)
    requires '\n' !in line
    ensures LineFeeds(PlanLine(line, columns)) == if FitsPlan(line, columns) then 1 else 0
  {
    if line == "" {
      assert Take("\n", CAP) == "\n";
    } else {
      var body := Spaces(columns) + line;
      NoLineFeeds(body);
      if FitsPlan(line, columns) {
        assert PlanLine(line, columns) == body + "\n";
        LineFeedsAppend(body, "\n");
      } else {
        assert PlanLine(line, columns) == body[..CAP];
        NoLineFeeds(body[..CAP]);
      }
    }
  }

  /** A line that does not fit loses its line feed. */
  lemma {:induction false} PlanBlockLineFeeds(lines: seq<string>, columns: nat)
    requires Lines(lines)
    ensures LineFeeds(PlanBlock(lines, columns)) <= |lines|
    ensures LineFeeds(PlanBlock(lines, columns)) == |lines| ==> forall i :: 0 <= i < |lines| ==> FitsPlan(lines[i], columns)
  {
    if lines != [] {
      PlanBlockLineFeeds(lines[1..], columns);
      PlanLineFeeds(lines[0], columns);
      LineFeedsAppend(PlanLine(lines[0], columns), PlanBlock(lines[1..], columns));
      if LineFeeds(PlanBlock(lines, columns)) == |lines| {
        forall i | 0 <= i < |lines|
          ensures FitsPlan(lines[i], columns)
        {
          assert i > 0 ==> lines[i] == lines[1..][i - 1];
        }
      }
    }
  }

  /** The plan's block, its columns removed, is the script's body exactly when every line fits:
      4093 bytes for the two columns of an install block, 4091 for the four of a file. */
  lemma {:induction false} PlanShowsScript(lines: seq<string>, columns: nat)
    requires Lines(lines)
    ensures Undent(PlanBlock(lines, columns), columns) == ScriptBody(lines)
      <==> forall i :: 0 <= i < |lines| ==> lines[i] == "" || columns + |lines[i]| + 1 <= 4096
  {
    assert forall i :: 0 <= i < |lines| ==>
      (FitsPlan(lines[i], columns) <==> lines[i] == "" || columns + |lines[i]| + 1 <= 4096);
    if Undent(PlanBlock(lines, columns), columns) == ScriptBody(lines) {
      UndentKeepsLineFeeds(PlanBlock(lines, columns), columns);
      ScriptLineFeeds(lines);
      PlanBlockLineFeeds(lines, columns);
    } else if forall i :: 0 <= i < |lines| ==> FitsPlan(lines[i], columns) {
      FittingBlock(lines, columns);
    }
  }

  lemma {:induction false} StripKeepsOut(s: string, k: nat, ch: char)
    requires ch !in s
    ensures ch !in Strip(s, k)
  {
    if k > 0 && s != "" && s[0] == ' ' {
      StripKeepsOut(s[1..], k - 1, ch);
    }
  }

  lemma {:induction false} YieldsLines(buf: string, cur: nat, end: nat, indent: nat)
    requires end <= |buf|
    ensures Lines(LinesFrom(buf, cur, end, indent))
    decreases end - cur
  {
    if cur < end {
      var n := IndexOf(buf[cur..end], '\n');
      assert buf[cur..cur + n] == buf[cur..end][..n];
      StripKeepsOut(buf[cur..cur + n], indent, '\n');
      YieldsLines(buf, NextAt(buf, cur, end, indent).1, end, indent);
    }
  }

  /** So for every region: what `--plan` shows of a block is what would be run, or a line of it
      is too long to be shown. */
  lemma {:induction false} PlanAndScriptAgree(buf: string, r: Region, columns: nat)
    requires r.end <= |buf|
    ensures var lines := RegionLines(buf, r);
      Undent(PlanBlock(lines, columns), columns) == ScriptBody(lines) <==>
        forall i :: 0 <= i < |lines| ==> lines[i] == "" || columns + |lines[i]| + 1 <= 4096
  {
    if r.start.Some? {
      YieldsLines(buf, r.start.value, r.end, r.indent);
    }
    PlanShowsScript(RegionLines(buf, r), columns);
  }
}
