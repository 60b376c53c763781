/** The two-line cache record: hm_cache_save's formatter and hm_cache_load's parser.

    Print and Parse are the specification; the methods below work on a fixed
    buffer and a running offset the way src/cache.c does, and refine them. */
module CacheRecord {
  import opened Text
  import opened Wrappers

  const MAGIC := "#hacman-cache 1 "
  const RECORD_MAX := 4096
  const IDENTITY_MAX := 127
  const MARK_MAX := 255

  /** The fields of hm_cache that a record carries, plus the identity and `known`. */
  datatype Cache = Cache(identity: string, mark: string, lastCheck: int, lastChange: int, known: bool)

  /** Ranges the C struct guarantees: bounded NUL-terminated arrays and `long` times. */
  predicate InRange(c: Cache) {
    && |c.identity| <= IDENTITY_MAX && NUL !in c.identity
    && |c.mark| <= MARK_MAX && NUL !in c.mark
    && -TWO_63 <= c.lastCheck < TWO_63
    && -TWO_63 <= c.lastChange < TWO_63
  }

  // ---------- specification ----------

  function CleanChar(ch: char): char {
    if ch == '\t' || ch == '\n' || ch == '\r' then ' ' else ch
  }

  function Clean(s: string): (r: string)
    ensures |r| == |s|
    ensures forall i :: 0 <= i < |s| ==> r[i] == CleanChar(s[i])
  {
    seq(|s|, i requires 0 <= i < |s| => CleanChar(s[i]))
  }

  function NonNegative(v: int): nat {
    if v < 0 then 0 else v
  }

  /** The second record line without its line feed. */
  function Fields(check: int, change: int, mark: string): string {
    Decimal(NonNegative(check)) + "\t" + Decimal(NonNegative(change)) + "\t" + Clean(mark)
  }

  /** The bytes hm_cache_save writes for `c`. */
  function Print(c: Cache): string {
    MAGIC + c.identity + "\n" + Fields(c.lastCheck, c.lastChange, c.mark) + "\n"
  }

  /** The field up to the next tab, and what follows that tab. */
  function FieldOf(s: string): string {
    s[..IndexOf(s, '\t')]
  }

  function AfterField(s: string): string {
    s[Min(IndexOf(s, '\t') + 1, |s|)..]
  }

  /** hm_parse_ulong followed by the cast to long; malformed text counts as 0. */
  function ParseEpoch(s: string): int {
    if s == [] || !AllDigits(s) then 0
    else
      var v := DecimalValue(s) % TWO_64;
      if v < TWO_63 then v else v - TWO_64
  }

  function Unknown(identity: string): Cache {
    Cache(identity, "", 0, 0, false)
  }

  function ParseFields(identity: string, line: string): Cache {
    var rest := AfterField(line);
    Cache(identity, CString(Take(FieldOf(AfterField(rest)), MARK_MAX)),
          ParseEpoch(FieldOf(line)), ParseEpoch(FieldOf(rest)), true)
  }

  /** What hm_cache_load leaves in the struct after `bytes` arrived in the buffer. */
  function Parse(identity: string, bytes: string): Cache {
    var nl := IndexOf(bytes, '\n');
    if nl == |bytes| || bytes[..nl] != MAGIC + identity then Unknown(identity)
    else
      var rest := bytes[nl + 1..];
      ParseFields(identity, rest[..IndexOf(rest, '\n')])
  }

  /** The part of a file that one load can see. */
  function Visible(file: string): string {
    Take(file, RECORD_MAX - 1)
  }

  /** Loading a record file, or its absence, for a project with `identity`. */
  function Load(identity: string, file: string): Cache {
    Parse(identity, Visible(file))
  }

  predicate TwoLines(s: string) {
    var nl := IndexOf(s, '\n');
    nl < |s| && IndexOf(s[nl + 1..], '\n') < |s| - nl - 1
  }

  // ---------- round trip ----------

  lemma {:induction false} IndexOfConcat(a: string, b: string, ch: char)
    requires ch !in a
    ensures IndexOf(a + b, ch) == |a| + IndexOf(b, ch)
  {
    var s := a + b;
    var k := |a| + IndexOf(b, ch);
    forall j | 0 <= j < k
      ensures s[j] != ch
    {
      if j < |a| {
        assert a[j] in a;
      }
    }
    IndexOfUnique(s, ch, k);
  }

  lemma FieldSplit(f: string, rest: string)
    requires '\t' !in f
    ensures FieldOf(f + "\t" + rest) == f
    ensures AfterField(f + "\t" + rest) == rest
  {
    var s := f + "\t" + rest;
    assert s == f + ("\t" + rest);
    IndexOfConcat(f, "\t" + rest, '\t');
    assert s[|f| + 1..] == rest;
  }

  lemma LastField(f: string)
    requires '\t' !in f
    ensures FieldOf(f) == f
  {
    IndexOfUnique(f, '\t', |f|);
  }

  lemma EpochRoundTrip(v: int)
    requires v < TWO_63
    ensures ParseEpoch(Decimal(NonNegative(v))) == NonNegative(v)
  {
    DecimalRoundTrip(NonNegative(v));
  }

  lemma CleanHasNo(s: string, ch: char)
    requires ch == '\t' || ch == '\n' || (ch == NUL && NUL !in s)
    ensures ch !in Clean(s)
  {
    forall i | 0 <= i < |s|
      ensures Clean(s)[i] != ch
    {
      assert s[i] in s;
    }
  }

  lemma FieldsRoundTrip(identity: string, check: int, change: int, mark: string)
    requires check < TWO_63 && change < TWO_63
    requires |mark| <= MARK_MAX && NUL !in mark
    ensures ParseFields(identity, Fields(check, change, mark))
         == Cache(identity, Clean(mark), NonNegative(check), NonNegative(change), true)
  {
    var d1, d2, m := Decimal(NonNegative(check)), Decimal(NonNegative(change)), Clean(mark);
    DecimalHasNo(NonNegative(check), '\t');
    DecimalHasNo(NonNegative(change), '\t');
    CleanHasNo(mark, '\t');
    CleanHasNo(mark, NUL);
    assert Fields(check, change, mark) == d1 + "\t" + (d2 + "\t" + m);
    FieldSplit(d1, d2 + "\t" + m);
    FieldSplit(d2, m);
    LastField(m);
    EpochRoundTrip(check);
    EpochRoundTrip(change);
    CStringWithoutNul(m);
  }

  lemma FieldsHaveNoLineFeed(check: int, change: int, mark: string)
    ensures '\n' !in Fields(check, change, mark)
  {
    DecimalHasNo(NonNegative(check), '\n');
    DecimalHasNo(NonNegative(change), '\n');
    CleanHasNo(mark, '\n');
  }

  lemma MagicHasNoLineFeed()
    ensures '\n' !in MAGIC
  {
    assert forall i :: 0 <= i < |MAGIC| ==> MAGIC[i] != '\n';
  }

  /** Splitting text at its first line feed. */
  lemma FirstLine(head: string, tail: string)
    requires '\n' !in head
    ensures var s := head + "\n" + tail;
      && IndexOf(s, '\n') == |head| < |s| && s[..|head|] == head && s[|head| + 1..] == tail
  {
    var s := head + "\n" + tail;
    assert s == head + ("\n" + tail);
    IndexOfConcat(head, "\n" + tail, '\n');
  }

  /** A record split at its two line feeds. */
  lemma PrintLines(c: Cache)
    requires '\n' !in c.identity
    ensures var s := Print(c); var nl := IndexOf(s, '\n'); var fields := Fields(c.lastCheck, c.lastChange, c.mark);
      && nl == |MAGIC + c.identity| < |s| && s[..nl] == MAGIC + c.identity
      && s[nl + 1..] == fields + "\n"
      && IndexOf(s[nl + 1..], '\n') == |fields|
  {
    var fields := Fields(c.lastCheck, c.lastChange, c.mark);
    var head := MAGIC + c.identity;
    MagicHasNoLineFeed();
    assert Print(c) == head + "\n" + (fields + "\n") by {
      assert Print(c) == head + "\n" + fields + "\n";
    }
    FirstLine(head, fields + "\n");
    FieldsHaveNoLineFeed(c.lastCheck, c.lastChange, c.mark);
    FirstLine(fields, "");
    assert fields + "\n" + "" == fields + "\n";
  }

  /** No record reaches the buffer limit, so nothing is ever cut off. */
  lemma PrintIsShort(c: Cache)
    requires InRange(c)
    ensures |Print(c)| <= 442 < RECORD_MAX - 1
  {
    assert Pow10(20) == 100_000_000_000_000_000_000 by {
      assert Pow10(5) == 100_000;
      assert Pow10(10) == 10_000_000_000;
      assert Pow10(15) == 1_000_000_000_000_000;
    }
    DecimalLength(NonNegative(c.lastCheck), 20);
    DecimalLength(NonNegative(c.lastChange), 20);
  }

  /** What a record looks like: a line with the magic and the identity, and a line with the two times
      in decimal and the mark, tabs between them; in the mark, and only there, a tab, a line feed
      and a carriage return have become spaces. */
  lemma RecordLooks(c: Cache) returns (check: string, change: string, mark: string)
    requires InRange(c)
    ensures Print(c) == "#hacman-cache 1 " + c.identity + "\n" + check + "\t" + change + "\t" + mark + "\n"
    ensures AllDigits(check) && check != "" && DecimalValue(check) == if c.lastCheck < 0 then 0 else c.lastCheck
    ensures AllDigits(change) && change != "" && DecimalValue(change) == if c.lastChange < 0 then 0 else c.lastChange
    ensures |mark| == |c.mark| && forall i :: 0 <= i < |mark| ==>
      mark[i] == if c.mark[i] == '\t' || c.mark[i] == '\n' || c.mark[i] == '\r' then ' ' else c.mark[i]
  {
    check, change, mark := Decimal(NonNegative(c.lastCheck)), Decimal(NonNegative(c.lastChange)), Clean(c.mark);
    DecimalRoundTrip(NonNegative(c.lastCheck));
    DecimalRoundTrip(NonNegative(c.lastChange));
    var head := "#hacman-cache 1 " + c.identity + "\n";
    Associative(head, check + "\t" + change + "\t" + mark, "\n");
    Associative(head, check + "\t" + change + "\t", mark);
    Associative(head, check + "\t" + change, "\t");
    Associative(head, check + "\t", change);
    Associative(head, check, "\t");
  }

  /** Loading a saved record gives back the times and the cleaned mark. */
  lemma RecordRoundTrip(c: Cache)
    requires InRange(c) && '\n' !in c.identity
    ensures Load(c.identity, Print(c))
         == Cache(c.identity, Clean(c.mark), NonNegative(c.lastCheck), NonNegative(c.lastChange), true)
  {
    PrintIsShort(c);
    assert Visible(Print(c)) == Print(c);
    PrintLines(c);
    FieldsRoundTrip(c.identity, c.lastCheck, c.lastChange, c.mark);
    var fields := Fields(c.lastCheck, c.lastChange, c.mark);
    assert (fields + "\n")[..|fields|] == fields;
  }

  /** A record of one identity is never trusted for another one. */
  lemma ForeignRecordIgnored(c: Cache, identity: string)
    requires InRange(c) && '\n' !in c.identity && identity != c.identity
    ensures Load(identity, Print(c)) == Unknown(identity)
  {
    PrintIsShort(c);
    assert Visible(Print(c)) == Print(c);
    PrintLines(c);
    var a, b := MAGIC + c.identity, MAGIC + identity;
    assert a[|MAGIC|..] == c.identity && b[|MAGIC|..] == identity;
  }

  /** Once both line feeds are present, bytes after them cannot change the parse. */
  lemma TwoLinesSuffice(identity: string, s: string, more: string)
    requires TwoLines(s)
    ensures Parse(identity, s + more) == Parse(identity, s)
  {
    var t := s + more;
    var nl := IndexOf(s, '\n');
    IndexOfUnique(t, '\n', nl);
    assert t[..nl] == s[..nl];
    var rs, rt := s[nl + 1..], t[nl + 1..];
    assert rt == rs + more;
    var n2 := IndexOf(rs, '\n');
    IndexOfUnique(rt, '\n', n2);
    assert rt[..n2] == rs[..n2];
  }

  // ---------- what a load makes of any file ----------

  /** A time as it is read from a field: 0 unless the field is a number; a number that does not fit
      wraps around into a 64-bit time. */
  predicate TimeRead(field: string, t: int) {
    if AllDigits(field) && field != "" then
      -0x8000_0000_0000_0000 <= t < 0x8000_0000_0000_0000 && (DecimalValue(field) - t) % 0x1_0000_0000_0000_0000 == 0
    else t == 0
  }

  /** The mark is as much of its field as comes before a NUL and fits 255 bytes. */
  predicate MarkRead(field: string, mark: string) {
    && mark <= field && |mark| <= 255 && '\0' !in mark
    && (mark == field || |mark| == 255 || field[|mark|] == '\0')
  }

  lemma EpochRead(field: string)
    ensures TimeRead(field, ParseEpoch(field))
  {
    if field != [] && AllDigits(field) {
      var d := DecimalValue(field);
      assert d == TWO_64 * (d / TWO_64) + d % TWO_64;
      var t := ParseEpoch(field);
      if t < 0 {
        assert d - t == TWO_64 * (d / TWO_64 + 1);
        Multiple(d / TWO_64 + 1);
      } else {
        Multiple(d / TWO_64);
      }
    }
  }

  lemma Multiple(k: int)
    ensures TWO_64 * k % TWO_64 == 0
  {
  }

  lemma FieldRead(field: string)
    ensures MarkRead(field, CString(Take(field, MARK_MAX)))
  {
  }

  /** Field `n` of a line, empty when there are not that many. */
  function NthField(line: string, n: nat): string {
    var parts := Split(line, '\t');
    if n < |parts| then parts[n] else ""
  }

  lemma {:induction false} FieldsInTurn(line: string, n: nat)
    ensures NthField(line, 0) == FieldOf(line)
    ensures NthField(line, n + 1) == NthField(AfterField(line), n)
  {
    if IndexOf(line, '\t') == |line| {
      assert Split("", '\t') == [""];
    } else {
    }
  }

  lemma ThreeFields(line: string)
    ensures NthField(line, 0) == FieldOf(line)
    ensures NthField(line, 1) == FieldOf(AfterField(line))
    ensures NthField(line, 2) == FieldOf(AfterField(AfterField(line)))
  {
    FieldsInTurn(line, 0);
    FieldsInTurn(line, 1);
    FieldsInTurn(AfterField(line), 0);
    FieldsInTurn(AfterField(AfterField(line)), 0);
  }

  /** What is read from the second line. */
  predicate LineRead(line: string, c: Cache) {
    && TimeRead(NthField(line, 0), c.lastCheck) && TimeRead(NthField(line, 1), c.lastChange)
    && MarkRead(NthField(line, 2), c.mark)
  }

  lemma ParsedLine(identity: string, line: string)
    ensures LineRead(line, ParseFields(identity, line))
  {
    ThreeFields(line);
    EpochRead(FieldOf(line));
    EpochRead(FieldOf(AfterField(line)));
    FieldRead(FieldOf(AfterField(AfterField(line))));
  }

  lemma {:induction false} FileLines(first: string, second: string, rest: string)
    requires '\n' !in first && '\n' !in second && (rest == "" || rest[0] == '\n')
    ensures var s := first + "\n" + second + rest; var nl := |first|;
      && IndexOf(s, '\n') == nl < |s| && s[..nl] == first && s[nl + 1..] == second + rest
      && IndexOf(second + rest, '\n') == |second| && (second + rest)[..|second|] == second
  {
    assert first + "\n" + second + rest == first + "\n" + (second + rest);
    FirstLine(first, second + rest);
    IndexOfUnique(second + rest, '\n', |second|);
  }

  /** What a load makes of any file whose first line is `first` and whose second, up to its line feed
      or the end of the file, is `second`. */
  lemma LoadReads(identity: string, first: string, second: string, rest: string)
    requires '\n' !in first && '\n' !in second && (rest == "" || rest[0] == '\n')
    requires |first| + 1 + |second| + |rest| <= 4095
    ensures var c := Load(identity, first + "\n" + second + rest);
      && c.identity == identity && (c.known <==> first == "#hacman-cache 1 " + identity)
      && (if c.known then LineRead(second, c) else c.mark == "" && c.lastCheck == 0 && c.lastChange == 0)
  {
    assert Visible(first + "\n" + second + rest) == first + "\n" + second + rest;
    FileLines(first, second, rest);
    ParsedLine(identity, second);
  }

  /** A file without a line feed is no record, and of a longer file only 4095 bytes count. */
  lemma LoadSees(identity: string, file: string)
    ensures '\n' !in file ==> Load(identity, file) == Cache(identity, "", 0, 0, false)
    ensures |file| > 4095 ==> Load(identity, file) == Load(identity, file[..4095])
  {
    if '\n' !in file {
      IndexOfUnique(Visible(file), '\n', |Visible(file)|);
    } else if |file| > 4095 {
      assert Visible(file[..4095]) == file[..4095];
    }
  }

  // ---------- the formatter ----------

  method AppendStr(dst: array<char>, o: nat, s: string) returns (o': nat)
    requires o < dst.Length
    modifies dst
    ensures o' == o + Min(|s|, dst.Length - 1 - o)
    ensures dst[..o'] == old(dst[..o]) + s[..o' - o]
    ensures o + |s| < dst.Length ==> dst[..o'] == old(dst[..o]) + s
  {
    o' := o;
    while o' - o < |s| && o' + 1 < dst.Length
      invariant o <= o' <= o + |s| && o' < dst.Length
      invariant dst[..o'] == old(dst[..o]) + s[..o' - o]
    {
      dst[o'] := s[o' - o];
      o' := o' + 1;
    }
  }

  method AppendClean(dst: array<char>, o: nat, s: string) returns (o': nat)
    requires o < dst.Length
    modifies dst
    ensures o' == o + Min(|s|, dst.Length - 1 - o)
    ensures dst[..o'] == old(dst[..o]) + Clean(s)[..o' - o]
    ensures o + |s| < dst.Length ==> dst[..o'] == old(dst[..o]) + Clean(s)
  {
    o' := o;
    while o' - o < |s| && o' + 1 < dst.Length
      invariant o <= o' <= o + |s| && o' < dst.Length
      invariant dst[..o'] == old(dst[..o]) + Clean(s)[..o' - o]
    {
      var ch := s[o' - o];
      if ch == '\t' || ch == '\n' || ch == '\r' {
        ch := ' ';
      }
      dst[o'] := ch;
      o' := o' + 1;
    }
  }

  function Reversed(s: string): (r: string)
    ensures |r| == |s|
  {
    if s == [] then [] else Reversed(s[1..]) + [s[0]]
  }

  lemma {:induction false} ReversedAppend(s: string, ch: char)
    ensures Reversed(s + [ch]) == [ch] + Reversed(s)
  {
    if s != [] {
      ReversedAppend(s[1..], ch);
      assert (s + [ch])[1..] == s[1..] + [ch];
    }
  }

  /** The digits still to come when `x` is what the division loop has left. */
  function Leading(x: nat): string {
    if x == 0 then "" else Decimal(x)
  }

  /** The digits of `v`, least significant first, in a scratch buffer of 24 bytes. */
  method DigitsBackwards(v: nat) returns (tmp: string)
    requires v < TWO_64
    ensures Reversed(tmp) == Decimal(v)
  {
    tmp := [DigitChar(v % 10)];
    var x: nat := v / 10;
    assert Reversed(tmp) == tmp;
    while x > 0
      invariant Decimal(v) == Leading(x) + Reversed(tmp)
    {
      ghost var before := tmp;
      var digit := DigitChar(x % 10);
      ReversedAppend(tmp, digit);
      tmp := tmp + [digit];
      assert Leading(x) + Reversed(before) == Leading(x / 10) + Reversed(tmp);
      x := x / 10;
    }
  }

  method AppendLong(dst: array<char>, o: nat, v: int) returns (o': nat)
    requires o < dst.Length
    requires -TWO_63 <= v < TWO_63
    modifies dst
    ensures o' == o + Min(|Decimal(NonNegative(v))|, dst.Length - 1 - o)
    ensures dst[..o'] == old(dst[..o]) + Decimal(NonNegative(v))[..o' - o]
    ensures o + |Decimal(NonNegative(v))| < dst.Length ==> dst[..o'] == old(dst[..o]) + Decimal(NonNegative(v))
  {
    var tmp := DigitsBackwards(NonNegative(v));
    var n := |tmp|;
    ghost var digits := Reversed(tmp);
    o' := o;
    while n > 0 && o' + 1 < dst.Length
      invariant 0 <= n <= |tmp| && o' - o == |tmp| - n && o' < dst.Length
      invariant dst[..o'] == old(dst[..o]) + digits[..o' - o]
    {
      n := n - 1;
      ReversedAt(tmp, n);
      dst[o'] := tmp[n];
      o' := o' + 1;
    }
  }

  lemma {:induction false} ReversedAt(s: string, k: nat)
    requires k < |s|
    ensures Reversed(s)[|s| - 1 - k] == s[k]
  {
    if k > 0 {
      ReversedAt(s[1..], k - 1);
    }
  }

  /** hm_cache_save up to the open: fills the shared record buffer and returns the length. */
  method FormatRecord(buf: array<char>, c: Cache) returns (o: nat)
    requires buf.Length == 4096
    requires InRange(c)
    modifies buf
    ensures o < buf.Length && buf[..o] == Print(c)
  {
    PrintIsShort(c);
    o := FormatAfter(buf, MAGIC, c);
  }

  method FormatAfter(buf: array<char>, magic: string, c: Cache) returns (o: nat)
    requires -TWO_63 <= c.lastCheck < TWO_63 && -TWO_63 <= c.lastChange < TWO_63
    requires |magic + c.identity + "\n" + Fields(c.lastCheck, c.lastChange, c.mark) + "\n"| < buf.Length
    modifies buf
    ensures o < buf.Length
    ensures buf[..o] == magic + c.identity + "\n" + Fields(c.lastCheck, c.lastChange, c.mark) + "\n"
  {
    o := AppendStr(buf, 0, magic);
    o := AppendStr(buf, o, c.identity);
    o := AppendStr(buf, o, "\n");
    assert buf[..o] == magic + c.identity + "\n";
    o := FormatFields(buf, o, c);
    o := AppendStr(buf, o, "\n");
  }

  method FormatFields(buf: array<char>, start: nat, c: Cache) returns (o: nat)
    requires -TWO_63 <= c.lastCheck < TWO_63 && -TWO_63 <= c.lastChange < TWO_63
    requires start + |Fields(c.lastCheck, c.lastChange, c.mark)| < buf.Length
    modifies buf
    ensures o == start + |Fields(c.lastCheck, c.lastChange, c.mark)|
    ensures buf[..o] == old(buf[..start]) + Fields(c.lastCheck, c.lastChange, c.mark)
  {
    ghost var was := buf[..start];
    ghost var d1, d2 := Decimal(NonNegative(c.lastCheck)), Decimal(NonNegative(c.lastChange));
    o := FormatTime(buf, start, c.lastCheck);
    o := FormatTime(buf, o, c.lastChange);
    assert buf[..o] == was + (d1 + "\t" + d2 + "\t");
    o := AppendClean(buf, o, c.mark);
  }

  method FormatTime(buf: array<char>, start: nat, t: int) returns (o: nat)
    requires -TWO_63 <= t < TWO_63 && start + |Decimal(NonNegative(t))| + 1 < buf.Length
    modifies buf
    ensures o == start + |Decimal(NonNegative(t))| + 1
    ensures buf[..o] == old(buf[..start]) + (Decimal(NonNegative(t)) + "\t")
  {
    o := AppendLong(buf, start, t);
    o := AppendStr(buf, o, "\t");
  }

  // ---------- the parser ----------

  /** next_field: the end of the field starting at `pos`, and where the next one starts. */
  method NextField(buf: array<char>, pos: nat, end: nat) returns (q: nat, next: nat)
    requires pos <= end <= buf.Length
    ensures pos <= q <= end && pos <= next <= end
    ensures buf[pos..q] == FieldOf(buf[pos..end])
    ensures buf[next..end] == AfterField(buf[pos..end])
  {
    q := pos;
    while q < end && buf[q] != '\t'
      invariant pos <= q <= end
      invariant forall j :: pos <= j < q ==> buf[j] != '\t'
    {
      q := q + 1;
    }
    next := if q < end then q + 1 else end;
    IndexOfUnique(buf[pos..end], '\t', q - pos);
  }

  /** hm_parse_ulong: wraps modulo 2^64; refuses empty text and any non-digit. */
  method ParseUlong(s: string) returns (ok: bool, v: nat)
    ensures ok <==> s != [] && AllDigits(s)
    ensures ok ==> v == DecimalValue(s) % TWO_64
  {
    v := 0;
    if s == [] {
      return false, 0;
    }
    assert s[..0] == "";
    for i := 0 to |s|
      invariant AllDigits(s[..i])
      invariant v == DecimalValue(s[..i]) % TWO_64
    {
      if s[i] < '0' || s[i] > '9' {
        assert !IsDigit(s[i]);
        return false, 0;
      }
      OneMoreDigit(s, i);
      v := (v * 10 + DigitValue(s[i])) % TWO_64;
    }
    assert s[..|s|] == s;
    ok := true;
  }

  lemma OneMoreDigit(s: string, i: nat)
    requires i < |s| && AllDigits(s[..i]) && IsDigit(s[i])
    ensures AllDigits(s[..i + 1])
    ensures (DecimalValue(s[..i]) % TWO_64 * 10 + DigitValue(s[i])) % TWO_64 == DecimalValue(s[..i + 1]) % TWO_64
  {
    var t := s[..i + 1];
    assert t[..i] == s[..i] && t[i] == s[i];
    WrapOnce(DecimalValue(s[..i]), DigitValue(s[i]));
  }

  /** Wrapping around at every step is the same as wrapping around at the end. */
  lemma WrapOnce(v: nat, d: nat)
    ensures (v % TWO_64 * 10 + d) % TWO_64 == (v * 10 + d) % TWO_64
  {
    var q, r := v / TWO_64, v % TWO_64;
    assert v == q * TWO_64 + r;
    assert v * 10 + d == (q * 10) * TWO_64 + (r * 10 + d);
    WrapMultiple(q * 10, r * 10 + d);
  }

  lemma WrapMultiple(q: nat, x: nat)
    ensures (q * TWO_64 + x) % TWO_64 == x % TWO_64
  {
    var y := q * TWO_64 + x;
    assert y == (q + x / TWO_64) * TWO_64 + x % TWO_64;
  }

  method ParseEpochOf(s: string) returns (t: int)
    ensures t == ParseEpoch(s)
  {
    var ok, v := ParseUlong(s);
    if !ok {
      return 0;
    }
    t := if v < TWO_63 then v else v - TWO_64;
  }

  lemma SplitAtHead(line: string, head: string, tail: string)
    ensures line == head + tail <==> |line| >= |head| && line[..|head|] == head && line[|head|..] == tail
  {
  }

  method ParseBuffer(buf: array<char>, total: nat, identity: string) returns (c: Cache)
    requires total <= buf.Length
    ensures c == Parse(identity, buf[..total])
  {
    c := ParseAfter(buf, total, MAGIC, identity);
  }

  method ParseAfter(buf: array<char>, total: nat, magic: string, identity: string) returns (c: Cache)
    requires total <= buf.Length
    ensures var bytes := buf[..total]; var nl := IndexOf(bytes, '\n');
      c == if nl == total || bytes[..nl] != magic + identity then Unknown(identity)
           else ParseFields(identity, bytes[nl + 1..][..IndexOf(bytes[nl + 1..], '\n')])
  {
    var nl := IndexOf(buf[..total], '\n');
    if nl == total {
      return Unknown(identity);
    }
    assert buf[..nl] == buf[..total][..nl];
    var mine := NamesIdentity(buf[..nl], magic, identity);
    if !mine {
      return Unknown(identity);
    }
    assert buf[nl + 1..total] == buf[..total][nl + 1..];
    c := ParseRest(buf, nl + 1, total, identity);
  }

  method NamesIdentity(line: string, magic: string, identity: string) returns (mine: bool)
    ensures mine <==> line == magic + identity
  {
    SplitAtHead(line, magic, identity);
    if |line| < |magic| || line[..|magic|] != magic {
      return false;
    }
    mine := line[|magic|..] == identity;
  }

  method ParseRest(buf: array<char>, p: nat, total: nat, identity: string) returns (c: Cache)
    requires p <= total <= buf.Length
    ensures c == ParseFields(identity, buf[p..total][..IndexOf(buf[p..total], '\n')])
  {
    var n := IndexOf(buf[p..total], '\n');
    c := ParsePart(buf, p, total, n, identity);
  }

  method ParsePart(buf: array<char>, p: nat, total: nat, n: nat, identity: string) returns (c: Cache)
    requires p + n <= total <= buf.Length
    ensures c == ParseFields(identity, buf[p..total][..n])
  {
    assert buf[p..p + n] == buf[p..total][..n];
    c := ParseLine(buf, p, p + n, identity);
  }

  method ParseLine(buf: array<char>, p: nat, end: nat, identity: string) returns (c: Cache)
    requires p <= end <= buf.Length
    ensures c == ParseFields(identity, buf[p..end])
  {
    var q1, p2 := NextField(buf, p, end);
    var q2, p3 := NextField(buf, p2, end);
    var q3, p4 := NextField(buf, p3, end);
    var check := ParseEpochOf(buf[p..q1]);
    var change := ParseEpochOf(buf[p2..q2]);
    c := Cache(identity, CString(Take(buf[p3..q3], MARK_MAX)), check, change, true);
  }

  /** What open and read do: there is no record, the record cannot be opened, or its bytes can
      be read, up to where a read fails if one does. */
  datatype Source = Missing | Denied | Bytes(file: string, fault: Option<nat>)

  /** Does loading fail? A read that fails is never reached when the bytes before it hold two
      line feeds or fill the buffer. */
  predicate LoadFails(src: Source) {
    match src
    case Missing => false
    case Denied => true
    case Bytes(file, fault) =>
      fault.Some? && fault.value <= |file| && fault.value + 1 < RECORD_MAX && !TwoLines(file[..fault.value])
  }

  lemma TwoLinesMeans(s: string)
    ensures TwoLines(s) <==> exists i, j :: 0 <= i < j < |s| && s[i] == s[j] == '\n'
  {
    var nl := IndexOf(s, '\n');
    if nl < |s| {
      var rest := s[nl + 1..];
      var n2 := IndexOf(rest, '\n');
      if n2 < |rest| {
        assert s[nl] == s[nl + 1 + n2] == '\n';
      } else {
        forall i, j | 0 <= i < j < |s| && s[i] == '\n' ensures s[j] != '\n' {
          assert s[j] == rest[j - nl - 1];
        }
      }
    }
  }

  /** Loading fails when the record cannot be opened, or when a read fails before two line feeds or
      4095 bytes have come. */
  lemma LoadFailsExactly(src: Source)
    ensures LoadFails(src) <==>
      || src.Denied?
      || (src.Bytes? && src.fault.Some? && src.fault.value <= |src.file| && src.fault.value < 4095
          && !(exists i, j :: 0 <= i < j < src.fault.value && src.file[i] == src.file[j] == '\n'))
  {
    if src.Bytes? && src.fault.Some? && src.fault.value <= |src.file| {
      var read := src.file[..src.fault.value];
      TwoLinesMeans(read);
      if i, j :| 0 <= i < j < |read| && read[i] == read[j] == '\n' {
        assert src.file[i] == src.file[j] == '\n';
      }
      if i, j :| 0 <= i < j < src.fault.value && src.file[i] == src.file[j] == '\n' {
        assert read[i] == read[j] == '\n';
      }
    }
  }

  lemma TwoLinesStay(s: string, more: string)
    requires TwoLines(s)
    ensures TwoLines(s + more)
  {
    var i := IndexOf(s, '\n');
    IndexOfUnique(s + more, '\n', i);
    assert (s + more)[i + 1..] == s[i + 1..] + more;
    IndexOfUnique(s[i + 1..] + more, '\n', IndexOf(s[i + 1..], '\n'));
  }

  /** Two line feeds seen are two line feeds before the failing read. */
  lemma FaultNotReached(file: string, total: nat, fault: nat)
    requires total <= fault <= |file| && TwoLines(file[..total])
    ensures TwoLines(file[..fault])
  {
    TwoLinesStay(file[..total], file[total..fault]);
    assert file[..fault] == file[..total] + file[total..fault];
  }

  /** hm_cache_load. Every read returns any positive number of the bytes that are left, so the
      result is the same for every way the kernel splits the file. A failed load leaves the
      project unknown. */
  method LoadRecord(buf: array<char>, src: Source, identity: string) returns (ok: bool, c: Cache)
    requires buf.Length == 4096
    modifies buf
    ensures ok <==> !LoadFails(src)
    ensures c == if src.Bytes? && ok then Load(identity, src.file) else Unknown(identity)
  {
    c := Unknown(identity);
    if src.Missing? {
      return true, c;
    }
    if src.Denied? {
      return false, c;
    }
    var total;
    ok, total := ReadRecord(buf, src.file, src.fault);
    if ok {
      c := ParseBuffer(buf, total, identity);
      ReadEnough(identity, src.file, total, buf[..total]);
    }
  }

  /** The read loop; on success it has read all that the parser can use. */
  method ReadRecord(buf: array<char>, file: string, fault: Option<nat>) returns (ok: bool, total: nat)
    requires buf.Length == RECORD_MAX
    modifies buf
    ensures ok <==> !LoadFails(Bytes(file, fault))
    ensures ok ==> total < buf.Length && total <= |file| && buf[..total] == file[..total]
    ensures ok ==> total == |file| || total + 1 == RECORD_MAX || TwoLines(file[..total])
  {
    total := 0;
    while true
      invariant total <= |file| && total + 1 < buf.Length
      invariant buf[..total] == file[..total] && !TwoLines(file[..total])
      invariant fault.Some? && fault.value <= |file| ==> total <= fault.value
      decreases |file| - total
    {
      var room := buf.Length - total - 1;
      if fault == Some(total) {
        return false, total;
      }
      if total == |file| {
        break; // read returned 0
      }
      var n :| 1 <= n <= room && n <= |file| - total && (fault.Some? && fault.value <= |file| ==> total + n <= fault.value);
      forall i | 0 <= i < n {
        buf[total + i] := file[total + i];
      }
      total := total + n;
      assert buf[..total] == file[..total];
      if total + 1 >= buf.Length {
        break;
      }
      if TwoLines(buf[..total]) {
        if fault.Some? && fault.value <= |file| {
          FaultNotReached(file, total, fault.value);
        }
        break;
      }
    }
    ok := true;
  }

  lemma ReadEnough(identity: string, file: string, total: nat, read: string)
    requires total <= |file| && total < RECORD_MAX && read == file[..total]
    requires total == |file| || total + 1 == RECORD_MAX || TwoLines(file[..total])
    ensures Parse(identity, read) == Load(identity, file)
  {
    var seen := Visible(file);
    if total < |seen| {
      assert seen == seen[..total] + seen[total..] && seen[..total] == read;
      TwoLinesSuffice(identity, read, seen[total..]);
    } else {
      assert seen == read;
    }
  }
}
