/** parse_env_words of src/main.c: splits the HACMAN variable into words inside one buffer, which
    the splitter reads and overwrites at the same time. */
module EnvWords {
  import opened Text
  import opened Wrappers

  const OPTIONS_MAX := 4096
  const ARG_MAX := 64

  datatype WordError = TooLong | TooManyWords | IncompleteEscape | UnterminatedQuote

  predicate IsSpace(ch: char) {
    ch == ' ' || ch == '\t' || ch == '\n' || ch == '\r' || ch == 12 as char || ch == 11 as char
  }

  predicate IsQuote(ch: char) {
    ch == '\'' || ch == '"'
  }

  // ---------- the tokenizer ----------

  function SkipSpaces(s: string): (r: string)
    ensures |r| <= |s|
    ensures r != [] ==> !IsSpace(r[0])
  {
    if s != [] && IsSpace(s[0]) then SkipSpaces(s[1..]) else s
  }

  type Scan = Result<(string, string), WordError>

  function Prefixed(w: string, scan: Scan): Scan {
    match scan
    case Failure(_) => scan
    case Success((word, rest)) => Success((w + word, rest))
  }

  /** The word at the start of `s` and the text after it; `quote` is the open quote, or NUL. */
  function Word(s: string, quote: char): (scan: Scan)
    ensures scan.Success? ==> |scan.value.1| <= |s|
    ensures scan.Success? && s != [] && !IsSpace(s[0]) ==> |scan.value.1| < |s|
    decreases |s|
  {
    if s == [] then
      if quote == NUL then Success(("", s)) else Failure(UnterminatedQuote)
    else if quote == NUL && IsSpace(s[0]) then Success(("", s))
    else if s[0] == '\\' then
      if |s| == 1 then Failure(IncompleteEscape) else Prefixed([s[1]], Word(s[2..], quote))
    else if IsQuote(s[0]) && quote == NUL then Word(s[1..], s[0])
    else if IsQuote(s[0]) && quote == s[0] then Word(s[1..], NUL)
    else Prefixed([s[0]], Word(s[1..], quote))
  }

  type WordList = Result<seq<string>, WordError>

  function After(words: seq<string>, split: WordList): WordList {
    match split
    case Failure(_) => split
    case Success(more) => Success(words + more)
  }

  /** The words of `s`, at most `room` of them. */
  function Words(s: string, room: nat): WordList
    decreases |s|
  {
    var t := SkipSpaces(s);
    if t == [] then Success([])
    else if room == 0 then Failure(TooManyWords)
    else
      match Word(t, NUL)
      case Failure(e) => Failure(e)
      case Success((word, rest)) => After([word], Words(rest, room - 1))
  }

  function WordsOf(value: string): WordList {
    if |value| > OPTIONS_MAX then Failure(TooLong) else Words(value, ARG_MAX)
  }

  // ---------- splitting is the inverse of quoting ----------

  /** A piece of a word as it may be written: a byte as it is, an escaped byte, or a quotation
      whose bytes are in turn written as they are or escaped. */
  datatype Unit = Raw(ch: char) | Escaped(ch: char)
  datatype Piece = Bare(u: Unit) | Quoted(quote: char, inner: seq<Unit>)

  /** `quote` is the quote the unit is written in, or NUL outside quotes. */
  predicate GoodUnit(u: Unit, quote: char) {
    match u
    case Raw(ch) => ch != '\\' && if quote == NUL then !IsSpace(ch) && !IsQuote(ch) else ch != quote
    case Escaped(_) => true
  }

  predicate GoodPiece(p: Piece) {
    match p
    case Bare(u) => GoodUnit(u, NUL)
    case Quoted(q, inner) => IsQuote(q) && forall u :: u in inner ==> GoodUnit(u, q)
  }

  function UnitText(u: Unit): string {
    if u.Raw? then [u.ch] else ['\\', u.ch]
  }

  function UnitsText(us: seq<Unit>): string {
    if us == [] then "" else UnitText(us[0]) + UnitsText(us[1..])
  }

  function UnitsValue(us: seq<Unit>): string {
    if us == [] then "" else [us[0].ch] + UnitsValue(us[1..])
  }

  function PieceText(p: Piece): string {
    match p
    case Bare(u) => UnitText(u)
    case Quoted(q, inner) => [q] + UnitsText(inner) + [q]
  }

  function PieceValue(p: Piece): string {
    match p
    case Bare(u) => [u.ch]
    case Quoted(_, inner) => UnitsValue(inner)
  }

  function PiecesText(ps: seq<Piece>): string {
    if ps == [] then "" else PieceText(ps[0]) + PiecesText(ps[1..])
  }

  function PiecesValue(ps: seq<Piece>): string {
    if ps == [] then "" else PieceValue(ps[0]) + PiecesValue(ps[1..])
  }

  /** A word as written: the space before it, and its pieces. */
  datatype Item = Item(gap: string, pieces: seq<Piece>)

  predicate GoodPieces(ps: seq<Piece>) {
    forall p :: p in ps ==> GoodPiece(p)
  }

  predicate AllSpace(s: string) {
    forall ch :: ch in s ==> IsSpace(ch)
  }

  /** A rendering: every word has at least one piece, and words after the first have a gap. */
  predicate GoodItem(item: Item, first: bool) {
    AllSpace(item.gap) && (first || item.gap != "") && item.pieces != [] && GoodPieces(item.pieces)
  }

  predicate GoodItems(items: seq<Item>, first: bool) {
    items == [] || (GoodItem(items[0], first) && GoodItems(items[1..], false))
  }

  function Rendered(items: seq<Item>): string {
    if items == [] then "" else items[0].gap + PiecesText(items[0].pieces) + Rendered(items[1..])
  }

  function Values(items: seq<Item>): (ws: seq<string>)
    ensures |ws| == |items|
  {
    if items == [] then [] else [PiecesValue(items[0].pieces)] + Values(items[1..])
  }

  lemma {:induction false} ScanUnits(us: seq<Unit>, q: char, s: string)
    requires IsQuote(q) && forall u :: u in us ==> GoodUnit(u, q)
    ensures Word(UnitsText(us) + s, q) == Prefixed(UnitsValue(us), Word(s, q))
  {
    if us == [] {
      assert UnitsText(us) + s == s;
      PrefixNothing(Word(s, q));
    } else {
      ScanUnits(us[1..], q, s);
      assert us[0] in us;
      var t := UnitsText(us[1..]) + s;
      assert UnitsText(us) + s == UnitText(us[0]) + t;
      ScanUnit(us[0], q, t);
      PrefixTwice([us[0].ch], UnitsValue(us[1..]), Word(s, q));
    }
  }

  lemma {:induction false} ScanUnit(u: Unit, q: char, t: string)
    requires GoodUnit(u, q) && (q == NUL || IsQuote(q))
    ensures Word(UnitText(u) + t, q) == Prefixed([u.ch], Word(t, q))
  {
    var s := UnitText(u) + t;
    if u.Raw? {
      assert s[1..] == t;
    } else {
      assert s[2..] == t;
    }
  }

  lemma {:induction false} QuoteToggles(q: char, t: string)
    requires IsQuote(q)
    ensures Word([q] + t, NUL) == Word(t, q) && Word([q] + t, q) == Word(t, NUL)
  {
    assert ([q] + t)[1..] == t;
  }

  lemma PrefixNothing(scan: Scan)
    ensures Prefixed("", scan) == scan
  {
    if scan.Success? {
      assert "" + scan.value.0 == scan.value.0;
    }
  }

  lemma PrefixTwice(a: string, b: string, scan: Scan)
    ensures Prefixed(a, Prefixed(b, scan)) == Prefixed(a + b, scan)
  {
    if scan.Success? {
      assert a + (b + scan.value.0) == a + b + scan.value.0;
    }
  }

  lemma {:induction false} ScanPiece(p: Piece, s: string)
    requires GoodPiece(p)
    ensures Word(PieceText(p) + s, NUL) == Prefixed(PieceValue(p), Word(s, NUL))
  {
    match p
    case Bare(u) =>
      ScanUnit(u, NUL, s);
    case Quoted(q, inner) =>
      assert PieceText(p) + s == [q] + (UnitsText(inner) + ([q] + s));
      QuoteToggles(q, UnitsText(inner) + ([q] + s));
      ScanUnits(inner, q, [q] + s);
      QuoteToggles(q, s);
  }

  lemma {:induction false} ScanPieces(ps: seq<Piece>, s: string)
    requires GoodPieces(ps)
    ensures Word(PiecesText(ps) + s, NUL) == Prefixed(PiecesValue(ps), Word(s, NUL))
  {
    if ps == [] {
      assert PiecesText(ps) + s == s;
      PrefixNothing(Word(s, NUL));
    } else {
      ScanPieces(ps[1..], s);
      assert ps[0] in ps;
      assert PiecesText(ps) + s == PieceText(ps[0]) + (PiecesText(ps[1..]) + s);
      ScanPiece(ps[0], PiecesText(ps[1..]) + s);
      PrefixTwice(PieceValue(ps[0]), PiecesValue(ps[1..]), Word(s, NUL));
    }
  }

  lemma {:induction false} SkipGap(gap: string, s: string)
    requires AllSpace(gap)
    ensures SkipSpaces(gap + s) == SkipSpaces(s)
  {
    if gap == "" {
      assert gap + s == s;
    } else {
      assert gap[0] in gap;
      SkipGap(gap[1..], s);
      assert (gap + s)[1..] == gap[1..] + s;
    }
  }

  lemma {:induction false} PiecesStart(ps: seq<Piece>)
    requires GoodPieces(ps) && ps != []
    ensures PiecesText(ps) != [] && !IsSpace(PiecesText(ps)[0])
  {
    assert ps[0] in ps;
  }

  /** What follows a rendered word starts with space, or is the end. */
  lemma {:induction false} RestStarts(items: seq<Item>, tail: string)
    requires GoodItems(items, false) && AllSpace(tail)
    ensures var s := Rendered(items) + tail; s == [] || IsSpace(s[0])
  {
    if items != [] {
      assert items[0].gap[0] in items[0].gap;
    } else if tail != [] {
      assert tail[0] in tail;
      assert Rendered(items) + tail == tail;
    }
  }

  lemma {:induction false} OnlyTail(tail: string)
    requires AllSpace(tail)
    ensures "" + tail == tail && SkipSpaces(tail) == []
  {
    SkipGap(tail, "");
    assert tail + "" == tail;
  }

  lemma {:induction false} RenderingSplitsBack(items: seq<Item>, first: bool, tail: string, room: nat)
    requires GoodItems(items, first) && AllSpace(tail) && |items| <= room
    ensures Words(Rendered(items) + tail, room) == Success(Values(items))
    decreases |items|
  {
    if items == [] {
      OnlyTail(tail);
    } else {
      var rest := Rendered(items[1..]) + tail;
      Associative(items[0].gap + PiecesText(items[0].pieces), Rendered(items[1..]), tail);
      RestStarts(items[1..], tail);
      RenderingSplitsBack(items[1..], false, tail, room - 1);
      FirstItem(items[0], first, rest, room);
    }
  }

  lemma {:induction false} FirstItem(item: Item, first: bool, rest: string, room: nat)
    requires GoodItem(item, first) && (rest == [] || IsSpace(rest[0])) && room > 0
    ensures Words(item.gap + PiecesText(item.pieces) + rest, room)
      == After([PiecesValue(item.pieces)], Words(rest, room - 1))
  {
    var text := PiecesText(item.pieces);
    var s := item.gap + text + rest;
    assert s == item.gap + (text + rest);
    SkipGap(item.gap, text + rest);
    PiecesStart(item.pieces);
    assert (text + rest)[0] == text[0];
    assert SkipSpaces(s) == text + rest;
    ScanPieces(item.pieces, rest);
    assert PiecesValue(item.pieces) + "" == PiecesValue(item.pieces);
    assert Word(text + rest, NUL) == Success((PiecesValue(item.pieces), rest));
  }

  /** Splitting any escaped and quoted rendering of a list of words gives the list back: empty
      words, spaces, quotes and backslashes included. */
  lemma {:induction false} SplitInvertsQuoting(items: seq<Item>, tail: string)
    requires GoodItems(items, true) && AllSpace(tail)
    requires |items| <= 64 && |Rendered(items) + tail| <= 4096
    ensures WordsOf(Rendered(items) + tail) == Success(Values(items))
  {
    RenderingSplitsBack(items, true, tail, ARG_MAX);
  }

  // ---------- limits, separators and quotes ----------

  lemma {:induction false} TooManyItems(items: seq<Item>, first: bool, tail: string, room: nat)
    requires GoodItems(items, first) && AllSpace(tail) && |items| > room
    ensures Words(Rendered(items) + tail, room) == Failure(TooManyWords)
    decreases |items|
  {
    var rest := Rendered(items[1..]) + tail;
    Associative(items[0].gap + PiecesText(items[0].pieces), Rendered(items[1..]), tail);
    RestStarts(items[1..], tail);
    if room == 0 {
      NothingFits(items[0], rest);
    } else {
      TooManyItems(items[1..], false, tail, room - 1);
      FirstItem(items[0], first, rest, room);
    }
  }

  lemma {:induction false} NothingFits(item: Item, rest: string)
    requires AllSpace(item.gap) && item.pieces != [] && GoodPieces(item.pieces)
    ensures Words(item.gap + PiecesText(item.pieces) + rest, 0) == Failure(TooManyWords)
  {
    var text := PiecesText(item.pieces);
    assert item.gap + text + rest == item.gap + (text + rest);
    SkipGap(item.gap, text + rest);
    PiecesStart(item.pieces);
    assert (text + rest)[0] == text[0];
  }

  lemma {:induction false} NeverTooLong(s: string, quote: char)
    ensures Word(s, quote) != Failure(TooLong)
    decreases |s|
  {
    if s != [] {
      if s[0] == '\\' && |s| > 1 {
        NeverTooLong(s[2..], quote);
      }
      NeverTooLong(s[1..], quote);
      NeverTooLong(s[1..], NUL);
      NeverTooLong(s[1..], s[0]);
    }
  }

  lemma {:induction false} WordsNeverTooLong(s: string, room: nat)
    ensures Words(s, room) != Failure(TooLong)
    decreases |s|
  {
    var t := SkipSpaces(s);
    if t != [] && room > 0 {
      NeverTooLong(t, NUL);
      if Word(t, NUL).Success? {
        WordsNeverTooLong(Word(t, NUL).value.1, room - 1);
      }
    }
  }

  /** The limits: exactly a text of more than 4096 bytes is too long, and one that renders more
      than 64 words has too many. */
  lemma {:induction false} LimitsAreExact(value: string, items: seq<Item>, tail: string)
    ensures WordsOf(value) == Failure(TooLong) <==> |value| > 4096
    ensures GoodItems(items, true) && AllSpace(tail) && value == Rendered(items) + tail && |value| <= 4096 && |items| > 64
      ==> WordsOf(value) == Failure(TooManyWords)
  {
    WordsNeverTooLong(value, 64);
    if GoodItems(items, true) && AllSpace(tail) && |items| > 64 {
      TooManyItems(items, true, tail, 64);
    }
  }

  /** No space, quote, backslash or NUL. */
  predicate Ordinary(s: string) {
    forall ch :: ch in s ==>
      ch != ' ' && !(9 <= ch as int <= 13) && ch != '\'' && ch != '"' && ch != '\\' && ch != NUL
  }

  function Bares(s: string): (ps: seq<Piece>)
    ensures |ps| == |s|
  {
    if s == "" then [] else [Bare(Raw(s[0]))] + Bares(s[1..])
  }

  lemma {:induction false} BaresAreGood(s: string)
    requires forall ch :: ch in s ==> GoodUnit(Raw(ch), NUL)
    ensures GoodPieces(Bares(s)) && PiecesText(Bares(s)) == s && PiecesValue(Bares(s)) == s
  {
    if s != "" {
      assert s[0] in s;
      BaresAreGood(s[1..]);
      assert [s[0]] + s[1..] == s;
    }
  }

  /** What separates words: a space, a tab, a line feed, a vertical tab, a form feed or a carriage
      return, and nothing else. */
  lemma SeparatesWords(u: string, ch: char, v: string)
    requires Ordinary(u) && Ordinary(v) && u != "" && v != "" && |u| + 1 + |v| <= 4096
    requires ch != '\'' && ch != '"' && ch != '\\' && ch != NUL
    ensures WordsOf(u + [ch] + v) ==
      if ch == ' ' || 9 <= ch as int <= 13 then Success([u, v]) else Success([u + [ch] + v])
  {
    if ch == ' ' || 9 <= ch as int <= 13 {
      BaresAreGood(u);
      BaresAreGood(v);
      SpacesBetween(ch);
      TwoItems(Bares(u), [ch], Bares(v));
      assert WordsOf(u + [ch] + v) == Success([u, v]);
    } else {
      var whole := u + [ch] + v;
      assert forall x :: x in whole ==> x in u || x == ch || x in v;
      BaresAreGood(whole);
      OneItem(Bares(whole));
    }
  }

  lemma {:induction false} OneItem(ps: seq<Piece>)
    requires GoodPieces(ps) && ps != [] && |PiecesText(ps)| <= 4096
    ensures WordsOf(PiecesText(ps)) == Success([PiecesValue(ps)])
  {
    ItemCons(Item("", ps), [], true);
    var items := [Item("", ps)] + [];
    assert Rendered(items) == "" + PiecesText(ps) + "" == PiecesText(ps);
    assert Rendered(items) + "" == PiecesText(ps);
    SplitInvertsQuoting(items, "");
    assert Values(items) == [PiecesValue(ps)] + [] == [PiecesValue(ps)];
    assert WordsOf(Rendered(items) + "") == Success(Values(items));
  }

  lemma SpacesBetween(ch: char)
    requires ch == ' ' || 9 <= ch as int <= 13
    ensures AllSpace([ch])
  {
    assert '\t' as int == 9 && '\n' as int == 10 && '\r' as int == 13;
    assert ch == ' ' || ch == '\t' || ch == '\n' || ch == 11 as char || ch == 12 as char || ch == '\r';
    assert IsSpace(ch);
    forall x | x in [ch]
      ensures IsSpace(x)
    {
      assert x == ch;
    }
  }

  lemma {:induction false} TwoItems(ps: seq<Piece>, gap: string, qs: seq<Piece>)
    requires GoodPieces(ps) && GoodPieces(qs) && ps != [] && qs != [] && gap != "" && AllSpace(gap)
    requires |PiecesText(ps)| + |gap| + |PiecesText(qs)| <= 4096
    ensures WordsOf(PiecesText(ps) + gap + PiecesText(qs)) == Success([PiecesValue(ps), PiecesValue(qs)])
  {
    var rest, text := gap + PiecesText(qs), PiecesText(ps) + gap + PiecesText(qs);
    assert "" + PiecesText(ps) + rest == text;
    assert Words(text, 64) == After([PiecesValue(ps)], Words(rest, 63)) by {
      assert gap[0] in gap && rest[0] == gap[0];
      FirstItem(Item("", ps), true, rest, 64);
    }
    assert Words(rest, 63) == Success([PiecesValue(qs)]) by {
      LastItem(gap, qs, 63);
    }
    BothWords(text, rest, PiecesValue(ps), PiecesValue(qs));
  }

  lemma {:induction false} BothWords(text: string, rest: string, a: string, b: string)
    requires |text| <= 4096 && Words(text, 64) == After([a], Words(rest, 63)) && Words(rest, 63) == Success([b])
    ensures WordsOf(text) == Success([a, b])
  {
    assert [a] + [b] == [a, b];
  }

  lemma {:induction false} LastItem(gap: string, ps: seq<Piece>, room: nat)
    requires GoodPieces(ps) && ps != [] && gap != "" && AllSpace(gap) && room > 0
    ensures Words(gap + PiecesText(ps), room) == Success([PiecesValue(ps)])
  {
    FirstItem(Item(gap, ps), false, "", room);
    assert gap + PiecesText(ps) + "" == gap + PiecesText(ps);
    assert [PiecesValue(ps)] + [] == [PiecesValue(ps)];
  }

  /** Both kinds of quotes hold a word together, whatever else is between them; a backslash takes
      away the meaning of any byte. */
  lemma QuotesHold(q: char, inner: string, ch: char)
    requires (q == '\'' || q == '"') && q !in inner && '\\' !in inner && |inner| <= 4094
    ensures WordsOf([q] + inner + [q]) == Success([inner])
    ensures WordsOf(['\\', ch]) == Success([[ch]])
  {
    var us := Raws(inner);
    RawsAreGood(inner, q);
    var ps := [Quoted(q, us)];
    assert ps[1..] == [] && PiecesText(ps) == [q] + inner + [q] && PiecesValue(ps) == inner;
    OneItem(ps);
    var escaped := [Bare(Escaped(ch))];
    assert escaped[1..] == [] && PiecesText(escaped) == ['\\', ch] && PiecesValue(escaped) == [ch];
    OneItem(escaped);
  }

  function Raws(s: string): seq<Unit> {
    if s == "" then [] else [Raw(s[0])] + Raws(s[1..])
  }

  lemma {:induction false} RawsAreGood(s: string, q: char)
    requires q !in s && '\\' !in s && q != NUL
    ensures UnitsText(Raws(s)) == s && UnitsValue(Raws(s)) == s
    ensures forall u :: u in Raws(s) ==> GoodUnit(u, q)
  {
    if s != "" {
      assert s[0] in s;
      RawsAreGood(s[1..], q);
      assert [s[0]] + s[1..] == s;
    }
  }

  /** The unit at the start of a text. */
  function UnitAt(s: string): Unit
    requires s != [] && s != "\\"
  {
    if s[0] == '\\' then Escaped(s[1]) else Raw(s[0])
  }

  lemma {:induction false} FirstUnit(s: string, q: char)
    requires s != [] && s != "\\" && (q == NUL || IsQuote(q))
    requires s[0] != '\\' ==> if q == NUL then !IsSpace(s[0]) && !IsQuote(s[0]) else s[0] != q
    ensures var u := UnitAt(s); var t := s[|UnitText(u)|..];
      GoodUnit(u, q) && s == UnitText(u) + t && Word(s, q) == Prefixed([u.ch], Word(t, q))
  {
    var u := UnitAt(s);
    var t := s[|UnitText(u)|..];
    assert s == UnitText(u) + t;
    ScanUnit(u, q, t);
  }

  /** The quoted part of a word: the bytes up to the closing quote and the text after it. */
  lemma {:induction false} OpenQuote(s: string, q: char) returns (us: seq<Unit>, rest: string)
    requires IsQuote(q) && Word(s, q).Success?
    ensures forall u :: u in us ==> GoodUnit(u, q)
    ensures |rest| < |s| && s == UnitsText(us) + [q] + rest
    ensures Word(s, q) == Prefixed(UnitsValue(us), Word(rest, NUL))
    decreases |s|
  {
    if s[0] == q {
      us, rest := [], s[1..];
      assert s == [q] + rest;
      QuoteToggles(q, rest);
      PrefixNothing(Word(rest, NUL));
    } else {
      var u := UnitAt(s);
      FirstUnit(s, q);
      var more;
      more, rest := OpenQuote(s[|UnitText(u)|..], q);
      us := [u] + more;
      QuotedCons(u, more, q, rest);
      PrefixTwice([u.ch], UnitsValue(more), Word(rest, NUL));
    }
  }

  lemma {:induction false} QuotedCons(u: Unit, more: seq<Unit>, q: char, rest: string)
    ensures UnitsText([u] + more) + [q] + rest == UnitText(u) + (UnitsText(more) + [q] + rest)
    ensures UnitsValue([u] + more) == [u.ch] + UnitsValue(more)
  {
    UnitCons(u, more);
  }

  lemma {:induction false} UnitCons(u: Unit, more: seq<Unit>)
    ensures UnitsText([u] + more) == UnitText(u) + UnitsText(more)
    ensures UnitsValue([u] + more) == [u.ch] + UnitsValue(more)
  {
    assert ([u] + more)[1..] == more;
  }

  /** The piece at the start of a text that scans. */
  lemma FirstPiece(s: string) returns (p: Piece, next: string)
    requires Word(s, NUL).Success? && s != [] && !IsSpace(s[0])
    ensures GoodPiece(p) && |next| < |s| && s == PieceText(p) + next
    ensures Word(s, NUL) == Prefixed(PieceValue(p), Word(next, NUL))
  {
    if IsQuote(s[0]) {
      var us;
      assert s == [s[0]] + s[1..];
      QuoteToggles(s[0], s[1..]);
      us, next := OpenQuote(s[1..], s[0]);
      p := Quoted(s[0], us);
    } else {
      FirstUnit(s, NUL);
      p := Bare(UnitAt(s));
      next := s[|UnitText(p.u)|..];
    }
  }

  lemma {:induction false} PiecesOf(s: string) returns (ps: seq<Piece>, rest: string)
    requires Word(s, NUL).Success?
    ensures Word(s, NUL).value == (PiecesValue(ps), rest)
    ensures GoodPieces(ps) && s == PiecesText(ps) + rest && (rest == [] || IsSpace(rest[0]))
    decreases |s|
  {
    if s == [] || IsSpace(s[0]) {
      ps, rest := [], s;
      assert s == "" + s;
    } else {
      var p, next := FirstPiece(s);
      var more;
      more, rest := PiecesOf(next);
      ps := [p] + more;
      PiecesCons(p, more);
      Associative(PieceText(p), PiecesText(more), rest);
    }
  }

  lemma {:induction false} PiecesCons(p: Piece, more: seq<Piece>)
    ensures PiecesText([p] + more) == PieceText(p) + PiecesText(more)
    ensures PiecesValue([p] + more) == PieceValue(p) + PiecesValue(more)
  {
    assert ([p] + more)[1..] == more;
  }

  lemma {:induction false} GapOf(s: string) returns (gap: string)
    ensures AllSpace(gap) && s == gap + SkipSpaces(s)
  {
    if s != [] && IsSpace(s[0]) {
      var more := GapOf(s[1..]);
      gap := [s[0]] + more;
    } else {
      gap := "";
      assert s == "" + s;
    }
  }

  lemma {:induction false} ItemsOf(s: string, room: nat, first: bool) returns (items: seq<Item>, tail: string)
    requires Words(s, room).Success?
    requires first || s == [] || IsSpace(s[0])
    ensures GoodItems(items, first) && AllSpace(tail) && s == Rendered(items) + tail
    ensures Words(s, room).value == Values(items) && |items| <= room
    decreases |s|
  {
    var t := SkipSpaces(s);
    if t == [] {
      items, tail := [], s;
      OnlySpace(s);
    } else {
      var item, rest := FirstItemOf(s, room, first);
      var more;
      more, tail := ItemsOf(rest, room - 1, false);
      items := [item] + more;
      ItemCons(item, more, first);
      Associative(item.gap + PiecesText(item.pieces), Rendered(more), tail);
    }
  }

  lemma FirstItemOf(s: string, room: nat, first: bool) returns (item: Item, rest: string)
    requires Words(s, room).Success? && SkipSpaces(s) != []
    requires first || IsSpace(s[0])
    ensures GoodItem(item, first) && s == item.gap + PiecesText(item.pieces) + rest
    ensures room > 0 && |rest| < |s| && (rest == [] || IsSpace(rest[0])) && Words(rest, room - 1).Success?
    ensures Words(s, room).value == [PiecesValue(item.pieces)] + Words(rest, room - 1).value
  {
    var t := SkipSpaces(s);
    var gap := GapOf(s);
    var ps;
    ps, rest := PiecesOf(t);
    item := Item(gap, ps);
    FirstWord(s, t, PiecesValue(ps), rest, room);
    GapOrFirst(s, gap, t);
    assert ps == [] ==> t == "" + rest;
    assert s == gap + PiecesText(ps) + rest;
  }

  lemma {:induction false} OnlySpace(s: string)
    requires SkipSpaces(s) == []
    ensures AllSpace(s) && s == "" + s
  {
    var gap := GapOf(s);
    assert gap + [] == gap;
  }

  lemma GapOrFirst(s: string, gap: string, t: string)
    requires s == gap + t && t != [] && !IsSpace(t[0])
    ensures IsSpace(s[0]) ==> gap != ""
  {
  }

  lemma {:induction false} ItemCons(item: Item, more: seq<Item>, first: bool)
    requires GoodItem(item, first) && GoodItems(more, false)
    ensures GoodItems([item] + more, first)
    ensures Rendered([item] + more) == item.gap + PiecesText(item.pieces) + Rendered(more)
    ensures Values([item] + more) == [PiecesValue(item.pieces)] + Values(more)
  {
    assert ([item] + more)[1..] == more;
  }

  lemma FirstWord(s: string, t: string, word: string, rest: string, room: nat)
    requires t == SkipSpaces(s) && t != [] && Word(t, NUL) == Success((word, rest))
    requires Words(s, room).Success?
    ensures room > 0 && |rest| < |s| && Words(rest, room - 1).Success?
    ensures Words(s, room).value == [word] + Words(rest, room - 1).value
  {
  }

  /** And only renderings split: whatever text is accepted is a rendering of its words. */
  lemma OnlyRenderingsSplit(value: string)
    requires WordsOf(value).Success?
    ensures exists items, tail ::
      && GoodItems(items, true) && AllSpace(tail) && |items| <= 64 && |value| <= 4096
      && value == Rendered(items) + tail && WordsOf(value) == Success(Values(items))
  {
    var items, tail := ItemsOf(value, ARG_MAX, true);
  }

  // ---------- the splitter ----------

  /** `b` holds the C string `w` at `off`. */
  predicate HoldsWord(b: string, off: nat, w: string) {
    off + |w| < |b| && b[off..off + |w|] == w && b[off + |w|] == NUL && NUL !in w
  }

  lemma HeldWordReadsBack(b: string, off: nat, w: string)
    requires HoldsWord(b, off, w)
    ensures CString(b[off..]) == w
  {
    assert forall k :: 0 <= k < |w| ==> b[off..][k] == w[k] && w[k] in w;
    IndexOfUnique(b[off..], NUL, |w|);
  }

  /** The words are held at the offsets `at`, below `limit`. */
  ghost predicate Holds(b: string, at: seq<nat>, ws: seq<string>, limit: nat) {
    && |ws| <= |at| && limit <= |b|
    && forall k :: 0 <= k < |ws| ==> at[k] + |ws[k]| < limit && HoldsWord(b, at[k], ws[k])
  }

  /** What `buf` still holds of the text from `read` on, with its terminator. */
  ghost predicate Unread(b: string, text: string, read: nat) {
    && NUL !in text && read <= |text| < |b| && b[|text|] == NUL
    && forall k :: read <= k < |text| ==> b[k] == text[k]
  }

  /** One turn of the word loop, as a step of the tokenizer. */
  ghost predicate StepsTo(text: string, read: nat, quote: char, more: string, read': nat, quote': char) {
    && read < read' <= |text| && |more| <= read' - read && NUL !in more && (quote' == NUL || IsQuote(quote'))
    && Word(text[read..], quote) == Prefixed(more, Word(text[read'..], quote'))
  }

  lemma PlainStep(text: string, read: nat, quote: char)
    requires NUL !in text && read < |text| && (quote == NUL || IsQuote(quote))
    requires GoodUnit(Raw(text[read]), quote)
    ensures StepsTo(text, read, quote, [text[read]], read + 1, quote)
  {
    assert text[read..] == [text[read]] + text[read + 1..];
    ScanUnit(Raw(text[read]), quote, text[read + 1..]);
    assert text[read] in text;
  }

  lemma EscapeStep(text: string, read: nat, quote: char)
    requires NUL !in text && read + 1 < |text| && (quote == NUL || IsQuote(quote)) && text[read] == '\\'
    ensures StepsTo(text, read, quote, [text[read + 1]], read + 2, quote)
  {
    assert text[read..] == ['\\', text[read + 1]] + text[read + 2..];
    ScanUnit(Escaped(text[read + 1]), quote, text[read + 2..]);
    assert text[read + 1] in text;
  }

  lemma QuoteStep(text: string, read: nat, quote: char)
    requires NUL !in text && read < |text| && IsQuote(text[read]) && (quote == NUL || quote == text[read])
    ensures StepsTo(text, read, quote, "", read + 1, if quote == NUL then text[read] else NUL)
  {
    assert text[read..] == [text[read]] + text[read + 1..];
    QuoteToggles(text[read], text[read + 1..]);
    PrefixNothing(Word(text[read + 1..], if quote == NUL then text[read] else NUL));
  }

  /** The word from `from` on starts with `w` and goes on at `read`. */
  ghost predicate Scanning(text: string, from: nat, w: string, read: nat, quote: char) {
    && from <= read <= |text| && NUL !in w && (quote == NUL || IsQuote(quote))
    && Word(text[from..], NUL) == Prefixed(w, Word(text[read..], quote))
  }

  lemma ScanGoesOn(text: string, from: nat, w: string, read: nat, quote: char, more: string, read': nat, quote': char)
    requires Scanning(text, from, w, read, quote) && StepsTo(text, read, quote, more, read', quote')
    ensures Scanning(text, from, w + more, read', quote')
  {
    PrefixTwice(w, more, Word(text[read'..], quote'));
  }

  lemma {:induction false} ScanFails(text: string, from: nat, w: string, read: nat, quote: char, e: WordError)
    requires Scanning(text, from, w, read, quote) && Word(text[read..], quote) == Failure(e)
    ensures Word(text[from..], NUL) == Failure(e)
  {
  }

  lemma ScanEnds(text: string, from: nat, w: string, read: nat, quote: char)
    requires Scanning(text, from, w, read, quote)
    requires read == |text| || (quote == NUL && IsSpace(text[read]))
    ensures Word(text[from..], NUL) == if quote == NUL then Success((w, text[read..])) else Failure(UnterminatedQuote)
  {
    assert w + "" == w;
    assert read < |text| ==> text[read..][0] == text[read];
  }

  lemma {:induction false} DanglingEscape(text: string, read: nat, quote: char)
    requires read + 1 == |text| && text[read] == '\\'
    ensures Word(text[read..], quote) == Failure(IncompleteEscape)
  {
  }

  /** The statics env_options_buf and env_options_argv; an argument is its offset in the buffer. */
  class EnvOptions {
    const buf: array<char>
    const argv: array<nat>

    constructor ()
      ensures Sized() && fresh(buf) && fresh(argv)
    {
      buf := new char[OPTIONS_MAX + 1];
      argv := new nat[ARG_MAX];
    }

    predicate Sized() {
      buf.Length == OPTIONS_MAX + 1 && argv.Length == ARG_MAX
    }

    /** One turn of the word loop: the byte at `read`, or the byte it escapes, goes to `write`. */
    method Step(ghost text: string, read: nat, write: nat, quote: char)
      returns (e: Option<WordError>, read': nat, write': nat, quote': char, ghost more: string)
      requires Unread(buf[..], text, read) && write <= read < |text| && (quote == NUL || IsQuote(quote))
      requires quote != NUL || !IsSpace(buf[read])
      modifies buf
      ensures e.Some? ==> Word(text[read..], quote) == Failure(e.value)
      ensures e.None? ==> StepsTo(text, read, quote, more, read', quote') && write' == write + |more| <= read'
      ensures e.None? ==> buf[..write'] == old(buf[..write]) + more && Unread(buf[..], text, read')
    {
      assert buf[read] == buf[..][read] && text[read] in text;
      if buf[read] == '\\' {
        assert buf[read + 1] == buf[..][read + 1];
        assert read + 1 < |text| ==> text[read + 1] in text;
        if buf[read + 1] == NUL {
          DanglingEscape(text, read, quote);
          return Some(IncompleteEscape), read, write, quote, "";
        }
        EscapeStep(text, read, quote);
        more := [buf[read + 1]];
        Put(text, read + 1, write);
        return None, read + 2, write + 1, quote, more;
      }
      if buf[read] == '\'' || buf[read] == '"' {
        if quote == NUL || quote == buf[read] {
          QuoteStep(text, read, quote);
          more := "";
          assert buf[..write] == buf[..write] + more;
          return None, read + 1, write, if quote == NUL then buf[read] else NUL, more;
        }
      }
      PlainStep(text, read, quote);
      more := [buf[read]];
      Put(text, read, write);
      return None, read + 1, write + 1, quote, more;
    }

    /** *write++ = *read++ */
    method Put(ghost text: string, read: nat, write: nat)
      requires Unread(buf[..], text, read) && write <= read < |text|
      modifies buf
      ensures Unread(buf[..], text, read + 1)
      ensures buf[..write + 1] == old(buf[..write]) + [old(buf[read])]
    {
      buf[write] := buf[read];
    }

    /** The word loop: from `read` to the end of the word, with its bytes written from `write`. */
    method ReadWord(ghost text: string, from: nat, write0: nat)
      returns (e: Option<WordError>, read: nat, write: nat, ghost w: string)
      requires Unread(buf[..], text, from) && write0 <= from
      modifies buf
      ensures e.Some? ==> Word(text[from..], NUL) == Failure(e.value)
      ensures e.None? ==> from <= read <= |text| && Word(text[from..], NUL) == Success((w, text[read..])) && NUL !in w
      ensures e.None? ==> write == write0 + |w| <= read && (read == |text| || IsSpace(text[read]))
      ensures e.None? ==> buf[..write] == old(buf[..write0]) + w && Unread(buf[..], text, read)
    {
      var quote := NUL;
      e, read, write, w := None, from, write0, "";
      PrefixNothing(Word(text[from..], NUL));
      assert Scanning(text, from, w, read, quote);
      while buf[read] != NUL && (quote != NUL || !IsSpace(buf[read]))
        invariant e == None && write == write0 + |w| <= read && Scanning(text, from, w, read, quote)
        invariant Unread(buf[..], text, read) && buf[..write] == old(buf[..write0]) + w
        decreases |text| - read
      {
        ghost var was, open, more := read, quote, "";
        AtTheEnd(text, read, buf[..]);
        assert buf[read] == buf[..][read];
        e, read, write, quote, more := Step(text, read, write, quote);
        if e.Some? {
          ScanFails(text, from, w, was, open, e.value);
          return;
        }
        ScanGoesOn(text, from, w, was, open, more, read, quote);
        w := w + more;
      }
      AtTheEnd(text, read, buf[..]);
      assert buf[read] == buf[..][read];
      ScanEnds(text, from, w, read, quote);
      if quote != NUL {
        e := Some(UnterminatedQuote);
      }
    }

    method SkipSpace(ghost text: string, from: nat) returns (read: nat)
      requires Unread(buf[..], text, from)
      ensures from <= read <= |text| && text[read..] == SkipSpaces(text[from..])
    {
      read := from;
      while IsSpace(buf[read])
        invariant from <= read <= |text| && SkipSpaces(text[read..]) == SkipSpaces(text[from..])
        decreases |text| - read
      {
        assert buf[read] == buf[..][read];
        AtTheEnd(text, read, buf[..]);
        assert text[read..][1..] == text[read + 1..];
        read := read + 1;
      }
      assert buf[read] == buf[..][read];
      AtTheEnd(text, read, buf[..]);
    }

    /** parse_env_words: on success the number of words, which `argv` then locates. */
    method Parse(value: string) returns (r: Result<nat, WordError>)
      requires Sized() && NUL !in value
      modifies buf, argv
      ensures match WordsOf(value)
        case Failure(e) => r == Failure(e)
        case Success(ws) => r == Success(|ws|) && Holds(buf[..], argv[..], ws, buf.Length)
    {
      if |value| > OPTIONS_MAX {
        return Failure(TooLong);
      }
      CopyIn(value);
      var read, write, argc := 0, 0, 0;
      ghost var ws: seq<string> := [];
      assert value[0..] == value;
      AfterNothing(Words(value, ARG_MAX));
      while buf[read] != NUL
        invariant Splitting(value, ws, read, write) && |ws| == argc
        invariant Unread(buf[..], value, read) && Holds(buf[..], argv[..], ws, write)
        decreases |value| - read
      {
        AtTheEnd(value, read, buf[..]);
        ghost var w;
        ghost var was := read;
        read := SkipSpace(value, read);
        SpacesSkipped(value, ws, was, read, write);
        assert buf[read] == buf[..][read];
        AtTheEnd(value, read, buf[..]);
        if buf[read] == NUL {
          break;
        }
        if argc == ARG_MAX {
          return Failure(TooManyWords);
        }
        var e;
        e, read, write, w := NextWord(value, ws, read, write, argc);
        if e.Some? {
          return Failure(e.value);
        }
        ws := ws + [w];
        argc := argc + 1;
      }
      assert buf[read] == buf[..][read];
      AtTheEnd(value, read, buf[..]);
      AllSplit(value, ws, read, write);
      r := Success(argc);
    }

    method CopyIn(value: string)
      requires Sized() && NUL !in value && |value| <= OPTIONS_MAX
      modifies buf
      ensures Unread(buf[..], value, 0)
    {
      forall i | 0 <= i < |value| {
        buf[i] := value[i];
      }
      buf[|value|] := NUL;
    }

    /** The rest of the main loop's body: one word, the space after it, its terminator. */
    method NextWord(ghost text: string, ghost ws: seq<string>, from: nat, write0: nat, argc: nat)
      returns (e: Option<WordError>, read: nat, write: nat, ghost w: string)
      requires Sized() && Unread(buf[..], text, from) && Holds(buf[..], argv[..], ws, write0)
      requires Splitting(text, ws, from, write0) && argc == |ws| < ARG_MAX
      requires from < |text| && !IsSpace(text[from])
      modifies buf, argv
      ensures e.Some? ==> Words(text, ARG_MAX) == Failure(e.value)
      ensures e.None? ==> read > from && Splitting(text, ws + [w], read, write) && Unread(buf[..], text, read)
      ensures e.None? ==> Holds(buf[..], argv[..], ws + [w], write)
    {
      argv[argc] := write0;
      ghost var was := buf[..];
      e, read, write, w := ReadWord(text, from, write0);
      if e.Some? {
        WordFails(text, ws, from, write0, e.value);
        return;
      }
      ghost var stop := read;
      read := SkipSpace(text, read);
      WordSplit(text, ws, from, write0, w, stop, read);
      Terminate(text, read, write);
      Held(was, buf[..], argv[..], ws, w, write0);
      write := write + 1;
    }

    /** *write++ = NUL: either before the unread text, or over the terminator that ends it. */
    method Terminate(ghost text: string, read: nat, write: nat)
      requires Sized() && Unread(buf[..], text, read) && |text| <= OPTIONS_MAX
      requires write < read || write <= read == |text|
      modifies buf
      ensures buf[..write + 1] == old(buf[..write]) + [NUL] && Unread(buf[..], text, read)
    {
      buf[write] := NUL;
    }
  }

  /** The state of the main loop: the words so far, and the rest of the text. The next byte is
      written at or before the next byte to be read, until only the terminator is left. */
  ghost predicate Splitting(text: string, ws: seq<string>, read: nat, write: nat) {
    && |ws| <= ARG_MAX && read <= |text| <= OPTIONS_MAX && (write <= read || (read == |text| && write == read + 1))
    && Words(text, ARG_MAX) == After(ws, Words(text[read..], ARG_MAX - |ws|))
  }

  lemma AtTheEnd(text: string, read: nat, b: string)
    requires Unread(b, text, read)
    ensures b[read] == NUL <==> read == |text|
    ensures read < |text| ==> b[read] == text[read] == text[read..][0]
  {
    assert read < |text| ==> text[read] in text;
  }

  lemma AfterNothing(split: WordList)
    ensures After([], split) == split
  {
    if split.Success? {
      assert [] + split.value == split.value;
    }
  }

  lemma {:induction false} SkippedOnce(s: string)
    ensures SkipSpaces(SkipSpaces(s)) == SkipSpaces(s)
  {
  }

  lemma {:induction false} SpacesSkipped(text: string, ws: seq<string>, read: nat, read': nat, write: nat)
    requires Splitting(text, ws, read, write) && read < |text|
    requires read <= read' <= |text| && text[read'..] == SkipSpaces(text[read..])
    ensures Splitting(text, ws, read', write)
    ensures read' < |text| ==> !IsSpace(text[read'])
    ensures read' < |text| && |ws| == ARG_MAX ==> Words(text, ARG_MAX) == Failure(TooManyWords)
  {
    SkippedOnce(text[read..]);
    assert read' < |text| ==> text[read'..][0] == text[read'];
  }

  lemma {:induction false} WordFails(text: string, ws: seq<string>, from: nat, write: nat, e: WordError)
    requires Splitting(text, ws, from, write) && |ws| < ARG_MAX && from < |text| && !IsSpace(text[from])
    requires Word(text[from..], NUL) == Failure(e)
    ensures Words(text, ARG_MAX) == Failure(e)
  {
    assert SkipSpaces(text[from..]) == text[from..];
  }

  lemma WordSplit(text: string, ws: seq<string>, from: nat, write: nat, w: string, stop: nat, read: nat)
    requires Splitting(text, ws, from, write) && |ws| < ARG_MAX && from < |text| && !IsSpace(text[from])
    requires from <= stop <= read <= |text| && Word(text[from..], NUL) == Success((w, text[stop..]))
    requires write + |w| <= stop && (stop == |text| || IsSpace(text[stop])) && text[read..] == SkipSpaces(text[stop..])
    ensures read > from && (write + |w| < read || read == |text|)
    ensures Splitting(text, ws + [w], read, write + |w| + 1)
  {
    var rest := text[stop..];
    assert SkipSpaces(text[from..]) == text[from..];
    SkippedOnce(rest);
    var room := ARG_MAX - |ws|;
    assert Words(text[from..], room) == After([w], Words(rest, room - 1));
    assert Words(rest, room - 1) == Words(text[read..], room - 1);
    AfterTwice(ws, [w], Words(rest, room - 1));
    if stop < |text| {
      assert IsSpace(rest[0]) && SkipSpaces(rest) == SkipSpaces(rest[1..]);
    }
  }

  lemma AfterTwice(a: seq<string>, b: seq<string>, split: WordList)
    ensures After(a, After(b, split)) == After(a + b, split)
  {
    if split.Success? {
      assert a + (b + split.value) == a + b + split.value;
    }
  }

  lemma {:induction false} AllSplit(text: string, ws: seq<string>, read: nat, write: nat)
    requires Splitting(text, ws, read, write) && read == |text|
    ensures Words(text, ARG_MAX) == Success(ws)
  {
    assert SkipSpaces(text[read..]) == [];
    assert ws + [] == ws;
  }

  lemma StillHolds(was: string, b: string, off: nat, x: string, write: nat, w: string)
    requires HoldsWord(was, off, x) && off + |x| < write && write + |w| < |b| == |was|
    requires b[..write + |w| + 1] == was[..write] + w + [NUL]
    ensures HoldsWord(b, off, x)
  {
    var front := b[..write + |w| + 1];
    assert forall k :: 0 <= k < write ==> b[k] == front[k] == was[k];
    assert b[off..off + |x|] == was[off..off + |x|];
  }

  lemma Held(was: string, b: string, at: seq<nat>, ws: seq<string>, w: string, write: nat)
    requires Holds(was, at, ws, write) && |b| == |was| && |ws| < |at| && at[|ws|] == write
    requires write + |w| < |b| && b[..write + |w| + 1] == was[..write] + w + [NUL] && NUL !in w
    ensures Holds(b, at, ws + [w], write + |w| + 1)
  {
    var more := ws + [w];
    var limit := write + |w| + 1;
    forall k | 0 <= k < |ws|
      ensures HoldsWord(b, at[k], more[k])
    {
      StillHolds(was, b, at[k], ws[k], write, w);
    }
    assert b[write..write + |w|] == b[..limit][write..write + |w|] == w;
    assert b[write + |w|] == b[..limit][write + |w|];
  }
}
