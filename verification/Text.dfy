/** Byte strings as the C code sees them: searching, truncation, decimal numbers. */
module Text {

  const NUL: char := '\0'

  /** 64-bit words. */
  const TWO_63: int := 0x8000_0000_0000_0000
  const TWO_64: nat := 0x1_0000_0000_0000_0000

  /** memchr and strchr: the first position of `ch`, or the length when it does not occur. */
  function IndexOf(s: string, ch: char): (i: nat)
    ensures i <= |s|
    ensures forall j :: 0 <= j < i ==> s[j] != ch
    ensures i < |s| ==> s[i] == ch
  {
    if s == [] || s[0] == ch then 0 else 1 + IndexOf(s[1..], ch)
  }

  /** Whatever position has the defining property of IndexOf is IndexOf. */
  lemma {:induction false} IndexOfUnique(s: string, ch: char, i: nat)
    requires i <= |s|
    requires forall j :: 0 <= j < i ==> s[j] != ch
    requires i < |s| ==> s[i] == ch
    ensures IndexOf(s, ch) == i
  {
  }

  function Min(a: int, b: int): int {
    if a < b then a else b
  }

  function Take(s: string, n: nat): string {
    s[..Min(n, |s|)]
  }

  /** What a buffer holding `s` followed by a NUL reads as. */
  function CString(s: string): string {
    s[..IndexOf(s, NUL)]
  }

  lemma CStringWithoutNul(s: string)
    requires NUL !in s
    ensures CString(s) == s
  {
    IndexOfUnique(s, NUL, |s|);
  }

  lemma Associative(a: string, b: string, c: string)
    ensures a + (b + c) == a + b + c
  {
  }

  // ---------- separated text ----------

  /** The pieces between the separators; there is always at least one. */
  function Split(s: string, sep: char): (parts: seq<string>)
    ensures parts != []
  {
    var i := IndexOf(s, sep);
    if i == |s| then [s] else [s[..i]] + Split(s[i + 1..], sep)
  }

  lemma {:induction false} SplitParts(s: string, sep: char)
    ensures forall k :: 0 <= k < |Split(s, sep)| ==> sep !in Split(s, sep)[k]
  {
    var i := IndexOf(s, sep);
    if i < |s| {
      SplitParts(s[i + 1..], sep);
    }
  }

  /** Split, at a separator known to be the first one. */
  lemma {:induction false} SplitAt(s: string, i: nat, sep: char)
    requires i <= |s| && (forall k :: 0 <= k < i ==> s[k] != sep) && (i < |s| ==> s[i] == sep)
    ensures Split(s, sep) == if i == |s| then [s] else [s[..i]] + Split(s[i + 1..], sep)
  {
    IndexOfUnique(s, sep, i);
  }

  function Join(parts: seq<string>, sep: char): string {
    if parts == [] then ""
    else if |parts| == 1 then parts[0]
    else parts[0] + [sep] + Join(parts[1..], sep)
  }

  lemma CutAt(s: string, i: nat)
    requires i < |s|
    ensures s == s[..i] + [s[i]] + s[i + 1..]
  {
  }

  lemma {:induction false} JoinCons(part: string, more: seq<string>, sep: char)
    requires more != []
    ensures Join([part] + more, sep) == part + [sep] + Join(more, sep)
  {
    assert ([part] + more)[1..] == more;
  }

  lemma {:induction false} JoinSplit(s: string, sep: char)
    ensures Join(Split(s, sep), sep) == s
  {
    var i := IndexOf(s, sep);
    if i < |s| {
      JoinSplit(s[i + 1..], sep);
      JoinCons(s[..i], Split(s[i + 1..], sep), sep);
      CutAt(s, i);
    }
  }

  lemma {:induction false} SplitFirst(part: string, rest: string, sep: char)
    requires sep !in part
    ensures Split(part, sep) == [part]
    ensures Split(part + [sep] + rest, sep) == [part] + Split(rest, sep)
  {
    IndexOfUnique(part, sep, |part|);
    var s := part + [sep] + rest;
    IndexOfUnique(s, sep, |part|);
    assert s[..|part|] == part && s[|part| + 1..] == rest;
  }

  lemma {:induction false} SplitJoin(parts: seq<string>, sep: char)
    requires parts != [] && forall part :: part in parts ==> sep !in part
    ensures Split(Join(parts, sep), sep) == parts
  {
    assert parts[0] in parts;
    SplitFirst(parts[0], Join(parts[1..], sep), sep);
    if |parts| > 1 {
      SplitJoin(parts[1..], sep);
    }
  }

  lemma {:induction false} SplitAppend(a: string, b: string, sep: char)
    ensures Split(a + [sep] + b, sep) == Split(a, sep) + Split(b, sep)
    decreases |a|
  {
    var i := IndexOf(a, sep);
    if i == |a| {
      SplitFirst(a, b, sep);
    } else {
      var part, rest := a[..i], a[i + 1..];
      SplitAppend(rest, b, sep);
      SplitPrepend(part, rest, b, sep);
      assert a == part + [sep] + rest;
    }
  }

  lemma {:induction false} SplitPrepend(part: string, rest: string, b: string, sep: char)
    requires sep !in part && Split(rest + [sep] + b, sep) == Split(rest, sep) + Split(b, sep)
    ensures Split(part + [sep] + rest + [sep] + b, sep) == Split(part + [sep] + rest, sep) + Split(b, sep)
  {
    SplitFirst(part, rest + [sep] + b, sep);
    SplitFirst(part, rest, sep);
    RegroupText(part, [sep], rest, b);
    RegroupParts([part], Split(rest, sep), Split(b, sep));
  }

  lemma RegroupText(part: string, sep: string, rest: string, b: string)
    ensures part + sep + rest + sep + b == part + sep + (rest + sep + b)
  {
  }

  lemma RegroupParts(a: seq<string>, b: seq<string>, c: seq<string>)
    ensures a + (b + c) == a + b + c
  {
  }

  // ---------- decimal numbers ----------

  predicate IsDigit(ch: char) {
    '0' <= ch <= '9'
  }

  function DigitValue(ch: char): (v: nat)
    requires IsDigit(ch)
    ensures v < 10
  {
    ch as int - '0' as int
  }

  function DigitChar(d: nat): (ch: char)
    requires d < 10
    ensures IsDigit(ch) && DigitValue(ch) == d
  {
    ('0' as int + d) as char
  }

  predicate AllDigits(s: string) {
    forall i :: 0 <= i < |s| ==> IsDigit(s[i])
  }

  function Decimal(n: nat): (s: string)
    ensures s != [] && AllDigits(s)
  {
    if n < 10 then [DigitChar(n)] else Decimal(n / 10) + [DigitChar(n % 10)]
  }

  function DecimalValue(s: string): nat
    requires AllDigits(s)
  {
    if s == [] then 0
    else DecimalValue(s[..|s| - 1]) * 10 + DigitValue(s[|s| - 1])
  }

  lemma {:induction false} DecimalRoundTrip(n: nat)
    ensures DecimalValue(Decimal(n)) == n
  {
    if n >= 10 {
      DecimalRoundTrip(n / 10);
      var s := Decimal(n);
      assert s[..|s| - 1] == Decimal(n / 10);
    }
  }

  function Pow10(k: nat): (p: nat)
    ensures p >= 1
  {
    if k == 0 then 1 else 10 * Pow10(k - 1)
  }

  lemma {:induction false} DecimalLength(n: nat, k: nat)
    requires k >= 1 && n < Pow10(k)
    ensures |Decimal(n)| <= k
  {
    if n >= 10 {
      assert Pow10(k) == 10 * Pow10(k - 1);
      assert k > 1;
      DecimalLength(n / 10, k - 1);
    }
  }

  lemma {:induction false} DecimalHasNo(n: nat, ch: char)
    requires !IsDigit(ch)
    ensures ch !in Decimal(n)
  {
    assert forall i :: 0 <= i < |Decimal(n)| ==> IsDigit(Decimal(n)[i]);
  }
}
