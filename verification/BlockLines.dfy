/** The text of a literal block: the region src/config.c remembers while the parser reports the
    block's lines, the iterator that walks it again, and what src/plan.c and src/install.c make
    of the lines it yields. */
module BlockLines {
  import opened Text
  import opened Wrappers

  /** A line of a block as it stands in the file: `pad` spaces, then the text. */
  datatype Line = Line(pad: nat, text: string)

  function Spaces(n: nat): (s: string)
    ensures |s| == n && forall i :: 0 <= i < n ==> s[i] == ' '
  {
    if n == 0 then "" else [' '] + Spaces(n - 1)
  }

  function Raw(l: Line): string {
    Spaces(l.pad) + l.text
  }

  /** The lines of a block indented by `k`: a blank line may be short of spaces. */
  predicate Indented(ls: seq<Line>, k: nat) {
    forall i :: 0 <= i < |ls| ==>
      '\n' !in ls[i].text && if ls[i].text == "" then ls[i].pad <= k else ls[i].pad == k
  }

  /** The lines from `i` up to `j` are blank. */
  predicate Blank(ls: seq<Line>, i: nat, j: nat) {
    forall k :: i <= k < j && k < |ls| ==> ls[k].text == ""
  }

  /** The lines stand in the buffer from offset `at` on, one per line of the file. */
  predicate Lies(buf: string, at: nat, ls: seq<Line>)
    decreases |ls|
  {
    ls == [] ||
    (&& at + |Raw(ls[0])| <= |buf| && buf[at..at + |Raw(ls[0])|] == Raw(ls[0])
     && (|ls| > 1 ==> at + |Raw(ls[0])| < |buf| && buf[at + |Raw(ls[0])|] == '\n' && Lies(buf, Below(at, ls[0]), ls[1..])))
  }

  /** Where the line after `l` starts. */
  function Below(at: nat, l: Line): nat {
    at + |Raw(l)| + 1
  }

  function LineAt(at: nat, ls: seq<Line>, i: nat): nat
    requires i < |ls|
    decreases i
  {
    if i == 0 then at else LineAt(Below(at, ls[0]), ls[1..], i - 1)
  }

  function EndOf(at: nat, ls: seq<Line>, i: nat): nat
    requires i < |ls|
  {
    LineAt(at, ls, i) + |Raw(ls[i])|
  }

  function Texts(ls: seq<Line>): seq<string> {
    if ls == [] then [] else [ls[0].text] + Texts(ls[1..])
  }

  // ---------- remembering the region ----------

  /** The value of a line event: where it starts, without the indentation, and its length. */
  datatype Event = Event(at: nat, len: nat)

  function Events(at: nat, ls: seq<Line>): seq<Event>
    decreases |ls|
  {
    if ls == [] then []
    else [Event(at + ls[0].pad, |ls[0].text|)] + Events(Below(at, ls[0]), ls[1..])
  }

  datatype Region = Region(start: Option<nat>, end: nat, indent: nat)

  function LineStart(buf: string, at: nat): (start: nat)
    requires at <= |buf|
    ensures start <= at
    ensures start == 0 || buf[start - 1] == '\n'
    ensures forall k :: start <= k < at ==> buf[k] != '\n'
  {
    if at == 0 || buf[at - 1] == '\n' then at else LineStart(buf, at - 1)
  }

  function Remember(buf: string, r: Region, ev: Event): Region {
    if ev.len == 0 || ev.at > |buf| then r
    else if r.start.Some? then r.(end := ev.at + ev.len)
    else
      var start := LineStart(buf, ev.at);
      Region(Some(start), ev.at + ev.len, ev.at - start)
  }

  function RememberAll(buf: string, r: Region, evs: seq<Event>): Region
    decreases |evs|
  {
    if evs == [] then r else RememberAll(buf, Remember(buf, r, evs[0]), evs[1..])
  }

  /** hm_cfg, as far as blocks go. */
  class Config {
    const buf: string
    var region: Region

    constructor (buf: string)
      ensures this.buf == buf && region == Region(None, 0, 0)
    {
      this.buf, region := buf, Region(None, 0, 0);
    }

    /** block_line */
    method BlockLine(ev: Event)
      requires ev.len > 0 ==> ev.at + ev.len <= |buf|
      modifies this
      ensures region == Remember(buf, old(region), ev)
    {
      if ev.len == 0 {
        return;
      }
      if region.start == None {
        var start := ev.at;
        while start > 0 && buf[start - 1] != '\n'
          invariant 0 <= start <= ev.at && LineStart(buf, start) == LineStart(buf, ev.at)
        {
          start := start - 1;
        }
        region := Region(Some(start), region.end, ev.at - start);
      }
      region := region.(end := ev.at + ev.len);
    }
  }

  lemma {:induction false} LineStartUnique(buf: string, at: nat, start: nat)
    requires start <= at <= |buf| && (start == 0 || buf[start - 1] == '\n')
    requires forall k :: start <= k < at ==> buf[k] != '\n'
    ensures LineStart(buf, at) == start
  {
    if start < at {
      LineStartUnique(buf, at - 1, start);
    }
  }

  predicate AtLineStart(buf: string, at: nat) {
    at <= |buf| && (at == 0 || buf[at - 1] == '\n')
  }

  lemma {:induction false} FirstLineStart(buf: string, at: nat, l: Line)
    requires AtLineStart(buf, at) && at + |Raw(l)| <= |buf| && buf[at..at + |Raw(l)|] == Raw(l)
    ensures LineStart(buf, at + l.pad) == at
  {
    assert forall k :: at <= k < at + l.pad ==> buf[k] == buf[at..at + |Raw(l)|][k - at] == ' ';
    LineStartUnique(buf, at + l.pad, at);
  }

  /** Once a region has been started, the last line with text ends it. */
  lemma {:induction false} LaterLines(buf: string, at: nat, ls: seq<Line>, r: Region, b: nat)
    requires Lies(buf, at, ls) && r.start.Some?
    requires b < |ls| && ls[b].text != "" && Blank(ls, b + 1, |ls|)
    ensures RememberAll(buf, r, Events(at, ls)) == r.(end := EndOf(at, ls, b))
    decreases |ls|
  {
    var next := Remember(buf, r, Events(at, ls)[0]);
    assert Events(at, ls)[1..] == Events(Below(at, ls[0]), ls[1..]);
    if b == 0 {
      BlankLines(buf, Below(at, ls[0]), ls[1..], next);
    } else {
      LaterLines(buf, Below(at, ls[0]), ls[1..], next, b - 1);
    }
  }

  lemma {:induction false} BlankLines(buf: string, at: nat, ls: seq<Line>, r: Region)
    requires Blank(ls, 0, |ls|)
    ensures RememberAll(buf, r, Events(at, ls)) == r
    decreases |ls|
  {
    if ls != [] {
      assert Events(at, ls)[1..] == Events(Below(at, ls[0]), ls[1..]);
      BlankLines(buf, Below(at, ls[0]), ls[1..], r);
    }
  }

  lemma {:induction false} LeadingBlanks(buf: string, at: nat, ls: seq<Line>, r: Region, a: nat)
    requires a < |ls| && Blank(ls, 0, a)
    ensures RememberAll(buf, r, Events(at, ls)) == RememberAll(buf, r, Events(LineAt(at, ls, a), ls[a..]))
    decreases a
  {
    if a == 0 {
      assert ls[0..] == ls;
    } else {
      assert Events(at, ls)[1..] == Events(Below(at, ls[0]), ls[1..]);
      LeadingBlanks(buf, Below(at, ls[0]), ls[1..], r, a - 1);
      assert ls[1..][a - 1..] == ls[a..];
    }
  }

  lemma {:induction false} TailLies(buf: string, at: nat, ls: seq<Line>, k: nat)
    requires Lies(buf, at, ls) && Indented(ls, k) && |ls| > 1
    ensures var rest := Below(at, ls[0]);
      Lies(buf, rest, ls[1..]) && Indented(ls[1..], k) && AtLineStart(buf, rest)
  {
  }

  lemma FirstLineRemembered(buf: string, at: nat, l: Line, k: nat, e: nat, i: nat)
    requires AtLineStart(buf, at) && at + |Raw(l)| <= |buf| && buf[at..at + |Raw(l)|] == Raw(l)
    requires l.text != "" && l.pad == k
    ensures Remember(buf, Region(None, e, i), Event(at + l.pad, |l.text|)) == Region(Some(at), at + |Raw(l)|, k)
  {
    FirstLineStart(buf, at, l);
  }

  lemma FirstEvent(buf: string, at: nat, ls: seq<Line>, r: Region)
    requires ls != []
    ensures RememberAll(buf, r, Events(at, ls)) ==
      RememberAll(buf, Remember(buf, r, Event(at + ls[0].pad, |ls[0].text|)), Events(Below(at, ls[0]), ls[1..]))
  {
    assert Events(at, ls)[1..] == Events(Below(at, ls[0]), ls[1..]);
  }

  /** A block that starts with text: its region ends with its last line with text, and the
      indentation is the block's. */
  lemma {:induction false} StartedBlock(buf: string, at: nat, ls: seq<Line>, k: nat, e: nat, i: nat, b: nat)
    requires Lies(buf, at, ls) && Indented(ls, k) && AtLineStart(buf, at)
    requires b < |ls| && ls[0].text != "" && ls[b].text != "" && Blank(ls, b + 1, |ls|)
    ensures RememberAll(buf, Region(None, e, i), Events(at, ls)) == Region(Some(at), EndOf(at, ls, b), k)
  {
    FirstEvent(buf, at, ls, Region(None, e, i));
    FirstLineRemembered(buf, at, ls[0], k, e, i);
    var r := Region(Some(at), at + |Raw(ls[0])|, k);
    if b == 0 {
      BlankLines(buf, Below(at, ls[0]), ls[1..], r);
    } else {
      TailLies(buf, at, ls, k);
      LaterLines(buf, Below(at, ls[0]), ls[1..], r, b - 1);
    }
  }

  // ---------- walking the region ----------

  /** At most `k` leading spaces removed. */
  function Strip(s: string, k: nat): string {
    if k == 0 || s == "" || s[0] != ' ' then s else Strip(s[1..], k - 1)
  }

  /** The next line of a region that ends at `end`, and where the one after it starts. */
  function NextAt(buf: string, cur: nat, end: nat, indent: nat): (string, nat)
    requires cur < end <= |buf|
  {
    var n := IndexOf(buf[cur..end], '\n');
    (Strip(buf[cur..cur + n], indent), if cur + n < end then cur + n + 1 else end)
  }

  function LinesFrom(buf: string, cur: nat, end: nat, indent: nat): seq<string>
    requires end <= |buf|
    decreases end - cur
  {
    if cur >= end then []
    else
      var (line, next) := NextAt(buf, cur, end, indent);
      [line] + LinesFrom(buf, next, end, indent)
  }

  /** What walking a region from its start yields; a block without text has no region. */
  function RegionLines(buf: string, r: Region): seq<string>
    requires r.end <= |buf|
  {
    if r.start.Some? then LinesFrom(buf, r.start.value, r.end, r.indent) else []
  }

  /** hm_file_next_line */
  method NextLine(buf: string, r: Region, cursor: nat) returns (more: bool, line: string, next: nat)
    requires r.start.Some? && r.start.value <= cursor && r.end <= |buf|
    ensures more <==> cursor < r.end
    ensures more ==> (line, next) == NextAt(buf, cursor, r.end, r.indent)
  {
    line, next := "", cursor;
    if r.start.value == r.end || cursor >= r.end {
      return false, line, next;
    }
    var n := IndexOf(buf[cursor..r.end], '\n');
    var eol := cursor + n;
    var strip := 0;
    while strip < r.indent && cursor + strip < eol && buf[cursor + strip] == ' '
      invariant 0 <= strip <= r.indent && cursor + strip <= eol
      invariant Strip(buf[cursor..eol], r.indent) == Strip(buf[cursor + strip..eol], r.indent - strip)
    {
      assert buf[cursor + strip..eol][1..] == buf[cursor + strip + 1..eol];
      strip := strip + 1;
    }
    line := buf[cursor + strip..eol];
    next := if eol < r.end then eol + 1 else r.end;
    more := true;
  }

  lemma {:induction false} StripIndentation(pad: nat, text: string, k: nat)
    requires if text == "" then pad <= k else pad == k
    ensures Strip(Spaces(pad) + text, k) == text
  {
    if pad > 0 {
      assert (Spaces(pad) + text)[1..] == Spaces(pad - 1) + text;
      StripIndentation(pad - 1, text, k - 1);
    } else {
      assert Spaces(pad) + text == text;
    }
  }

  /** One line of a block, read within a region that ends with it or goes on after it. */
  lemma {:induction false} LineRead(buf: string, at: nat, ls: seq<Line>, end: nat, k: nat)
    requires Lies(buf, at, ls) && Indented(ls, k) && ls != [] && at < end <= |buf|
    requires end == at + |Raw(ls[0])| || (|ls| > 1 && end >= Below(at, ls[0]))
    ensures NextAt(buf, at, end, k).0 == ls[0].text
    ensures NextAt(buf, at, end, k).1 == if end == at + |Raw(ls[0])| then end else Below(at, ls[0])
  {
    var raw := Raw(ls[0]);
    RawHasNoLineFeed(ls[0]);
    FirstLineFeed(buf, at, end, raw);
    StripIndentation(ls[0].pad, ls[0].text, k);
  }

  lemma RawHasNoLineFeed(l: Line)
    requires '\n' !in l.text
    ensures '\n' !in Raw(l)
  {
  }

  lemma FirstLineFeed(buf: string, at: nat, end: nat, raw: string)
    requires at + |raw| <= end <= |buf| && buf[at..at + |raw|] == raw && '\n' !in raw
    requires at + |raw| < end ==> buf[at + |raw|] == '\n'
    ensures IndexOf(buf[at..end], '\n') == |raw|
  {
    var s := buf[at..end];
    assert forall i :: 0 <= i < |raw| ==> s[i] == buf[at..at + |raw|][i] == raw[i];
    IndexOfUnique(s, '\n', |raw|);
  }

  lemma {:induction false} EndInside(buf: string, at: nat, ls: seq<Line>, b: nat)
    requires Lies(buf, at, ls) && b < |ls|
    ensures at + |Raw(ls[0])| <= EndOf(at, ls, b) <= |buf| && (b > 0 ==> Below(at, ls[0]) <= EndOf(at, ls, b))
    decreases b
  {
    if b > 0 {
      EndInside(buf, Below(at, ls[0]), ls[1..], b - 1);
    }
  }

  lemma {:induction false} LinesOfBlock(buf: string, at: nat, ls: seq<Line>, k: nat, b: nat, end: nat)
    requires Lies(buf, at, ls) && Indented(ls, k) && b < |ls| && ls[b].text != ""
    requires end == EndOf(at, ls, b) <= |buf|
    ensures LinesFrom(buf, at, end, k) == Texts(ls[..b + 1])
    decreases b
  {
    if b == 0 {
      LastLineYielded(buf, at, ls, k);
      TextsCons(ls, 1);
      assert Texts(ls[1..][..0]) == [];
    } else {
      TailLies(buf, at, ls, k);
      EndInside(buf, at, ls, b);
      LinesOfBlock(buf, Below(at, ls[0]), ls[1..], k, b - 1, end);
      FirstLineYielded(buf, at, ls, end, k);
      TextsCons(ls, b + 1);
    }
  }

  lemma {:induction false} LastLineYielded(buf: string, at: nat, ls: seq<Line>, k: nat)
    requires Lies(buf, at, ls) && Indented(ls, k) && ls != [] && ls[0].text != ""
    ensures LinesFrom(buf, at, at + |Raw(ls[0])|, k) == [ls[0].text]
  {
    LineRead(buf, at, ls, at + |Raw(ls[0])|, k);
  }

  lemma TextsCons(ls: seq<Line>, n: nat)
    requires 0 < n <= |ls|
    ensures Texts(ls[..n]) == [ls[0].text] + Texts(ls[1..][..n - 1])
  {
    assert ls[..n][1..] == ls[1..][..n - 1];
  }

  lemma {:induction false} FirstLineYielded(buf: string, at: nat, ls: seq<Line>, end: nat, k: nat)
    requires Lies(buf, at, ls) && Indented(ls, k) && |ls| > 1 && Below(at, ls[0]) <= end <= |buf|
    ensures LinesFrom(buf, at, end, k) == [ls[0].text] + LinesFrom(buf, Below(at, ls[0]), end, k)
  {
    LineRead(buf, at, ls, end, k);
  }

  lemma {:induction false} LiesFrom(buf: string, at: nat, ls: seq<Line>, k: nat, a: nat)
    requires Lies(buf, at, ls) && Indented(ls, k) && AtLineStart(buf, at) && a < |ls|
    ensures Lies(buf, LineAt(at, ls, a), ls[a..]) && Indented(ls[a..], k) && AtLineStart(buf, LineAt(at, ls, a))
    decreases a
  {
    if a == 0 {
      assert ls[0..] == ls;
    } else {
      TailLies(buf, at, ls, k);
      LiesFrom(buf, Below(at, ls[0]), ls[1..], k, a - 1);
      assert ls[1..][a - 1..] == ls[a..];
    }
  }

  /** The round trip: the region remembered from a block's events, walked with the indentation
      remembered with it, yields the block's lines from its first to its last line with text. */
  lemma {:induction false} DeindentRoundTrip(buf: string, at: nat, ls: seq<Line>, k: nat, a: nat, b: nat)
    requires Lies(buf, at, ls) && Indented(ls, k) && AtLineStart(buf, at)
    requires a <= b < |ls| && ls[a].text != "" && ls[b].text != "" && Blank(ls, 0, a) && Blank(ls, b + 1, |ls|)
    ensures var r := RememberAll(buf, Region(None, 0, 0), Events(at, ls));
      r.end <= |buf| && RegionLines(buf, r) == Texts(ls[a..b + 1])
  {
    LeadingBlanks(buf, at, ls, Region(None, 0, 0), a);
    LiesFrom(buf, at, ls, k, a);
    StartedRoundTrip(buf, LineAt(at, ls, a), ls[a..], k, b - a);
    assert ls[a..][..b - a + 1] == ls[a..b + 1];
  }

  lemma {:induction false} StartedRoundTrip(buf: string, at: nat, ls: seq<Line>, k: nat, b: nat)
    requires Lies(buf, at, ls) && Indented(ls, k) && AtLineStart(buf, at)
    requires b < |ls| && ls[0].text != "" && ls[b].text != "" && Blank(ls, b + 1, |ls|)
    ensures var r := RememberAll(buf, Region(None, 0, 0), Events(at, ls));
      r.end <= |buf| && RegionLines(buf, r) == Texts(ls[..b + 1])
  {
    StartedBlock(buf, at, ls, k, 0, 0, b);
    EndInside(buf, at, ls, b);
    LinesOfBlock(buf, at, ls, k, b, EndOf(at, ls, b));
  }
}
