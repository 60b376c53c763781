/** expand_template of src/config.c: replaces {{NAME}} references by environment values. */
module Template {
  import opened Text
  import opened Wrappers

  /** The size of the buffer for a name, with its terminator. */
  const NAME_CAP := 64

  datatype TemplateError = Unterminated | Unset | TooLong | NotAbsolute

  /** The HOME found at startup and the other variables; "" stands for an unset one. */
  datatype Env = Env(home: string, vars: map<string, string>)

  function Lookup(env: Env, name: string): string {
    var key := CString(name);
    if key == "HOME" then env.home else if key in env.vars then CString(env.vars[key]) else ""
  }

  // ---------- specification ----------

  type Expansion = Result<string, TemplateError>

  function Prefixed(x: string, e: Expansion): Expansion {
    if e.Success? then Success(x + e.value) else e
  }

  predicate OpensReference(tpl: string) {
    |tpl| >= 2 && tpl[0] == '{' && tpl[1] == '{'
  }

  /** The length of the name when `tpl` starts with a closed reference whose name fits. */
  function NameLength(tpl: string): Option<nat>
    requires OpensReference(tpl)
    ensures NameLength(tpl).Some? ==> NameLength(tpl).value + 4 <= |tpl|
  {
    var n := IndexOf(tpl[2..], '}');
    if n < NAME_CAP && n + 4 <= |tpl| && tpl[n + 3] == '}' then Some(n) else None
  }

  function Expand(tpl: string, env: Env): Expansion
    decreases |tpl|
  {
    if tpl == "" then Success("")
    else if !OpensReference(tpl) then Prefixed([tpl[0]], Expand(tpl[1..], env))
    else
      match NameLength(tpl)
      case None => Failure(Unterminated)
      case Some(n) =>
        var value := Lookup(env, tpl[2..2 + n]);
        if value == "" then Failure(Unset) else Prefixed(value, Expand(tpl[n + 4..], env))
  }

  function Expanded(tpl: string, env: Env, cap: nat, requireAbsolute: bool): Expansion {
    match Expand(tpl, env)
    case Failure(e) => Failure(e)
    case Success(x) =>
      if |x| >= cap then Failure(TooLong)
      else if requireAbsolute && (x == "" || x[0] != '/') then Failure(NotAbsolute)
      else Success(x)
  }

  // ---------- which templates expand, and to what ----------

  datatype Part = Literal(ch: char) | Reference(name: string)

  function PartText(p: Part): string {
    match p
    case Literal(ch) => [ch]
    case Reference(name) => "{{" + name + "}}"
  }

  function PartsText(ps: seq<Part>): string {
    if ps == [] then "" else PartText(ps[0]) + PartsText(ps[1..])
  }

  /** The template with each reference replaced once: what a value contains is not looked at. */
  function PartsValue(ps: seq<Part>, env: Env): string {
    if ps == [] then ""
    else (match ps[0] case Literal(ch) => [ch] case Reference(name) => Lookup(env, name)) + PartsValue(ps[1..], env)
  }

  /** A brace is literal unless another one follows; a reference names a set, non-empty variable. */
  predicate GoodParts(ps: seq<Part>, env: Env) {
    ps == [] ||
    (&& GoodParts(ps[1..], env)
     && match ps[0]
        case Literal(ch) => !OpensReference(PartsText(ps))
        case Reference(name) => |name| < NAME_CAP && '}' !in name && Lookup(env, name) != "")
  }

  lemma ReferenceLength(name: string, rest: string)
    requires '}' !in name && |name| < NAME_CAP
    ensures var tpl := "{{" + name + "}}" + rest;
      && OpensReference(tpl) && NameLength(tpl) == Some(|name|)
      && tpl[2..2 + |name|] == name && tpl[|name| + 4..] == rest
  {
    var tpl := "{{" + name + "}}" + rest;
    assert tpl[2..] == name + "}}" + rest;
    assert forall k :: 0 <= k < |name| ==> tpl[2..][k] == name[k] && name[k] in name;
    IndexOfUnique(tpl[2..], '}', |name|);
  }

  // ---------- what a reference stands for ----------

  /** The bytes of `s` up to its NUL, if it has one. */
  predicate BytesOf(s: string, v: string) {
    NUL !in v && v <= s && (v == s || s[|v|] == NUL)
  }

  /** A reference to HOME gives the home directory found at startup, one to another set variable
      the bytes of its value, and one to a variable that is unset or empty is an error; whatever
      follows expands as it would alone, and the value is not looked at again. */
  lemma {:induction false} ReferenceExpands(name: string, rest: string, env: Env, v: string)
    requires NUL !in name && '}' !in name && |name| <= 63
    requires name != "HOME" && name in env.vars ==> BytesOf(env.vars[name], v)
    ensures var e, after := Expand("{{" + name + "}}" + rest, env), Expand(rest, env);
      if name == "HOME" then
        if env.home == "" then e == Failure(Unset)
        else if after.Success? then e == Success(env.home + after.value)
        else e == after
      else if name !in env.vars || v == "" then e == Failure(Unset)
      else if after.Success? then e == Success(v + after.value)
      else e == after
  {
    ReferenceLength(name, rest);
    ReferenceValue(name, env, v);
    var tpl := "{{" + name + "}}" + rest;
    assert tpl != "" && tpl[2..2 + |name|] == name && tpl[|name| + 4..] == rest;
    assert Expand(tpl, env) ==
      if Lookup(env, name) == "" then Failure(Unset) else Prefixed(Lookup(env, name), Expand(rest, env));
  }

  lemma ReferenceValue(name: string, env: Env, v: string)
    requires NUL !in name
    requires name != "HOME" && name in env.vars ==> BytesOf(env.vars[name], v)
    ensures Lookup(env, name) == if name == "HOME" then env.home else if name in env.vars then v else ""
  {
    IndexOfUnique(name, NUL, |name|);
    assert CString(name) == name;
    if name != "HOME" && name in env.vars {
      var bytes := env.vars[name];
      IndexOfUnique(bytes, NUL, |v|);
      assert bytes[..|v|] == v;
    }
  }

  /** A reference that is not closed by two braces within 63 bytes is an error. */
  lemma {:induction false} UnclosedFails(after: string, env: Env)
    requires forall n :: 0 <= n <= 63 && n + 1 < |after| && '}' !in after[..n] ==> !(after[n] == '}' && after[n + 1] == '}')
    ensures Expand("{{" + after, env) == Failure(Unterminated)
  {
    var tpl := "{{" + after;
    assert tpl[2..] == after;
    var n := IndexOf(after, '}');
    assert forall k :: 0 <= k < n ==> after[k] != '}';
    assert n < |after| ==> '}' !in after[..n];
  }

  /** A text without two opening braces in a row is its own expansion. */
  lemma {:induction false} PlainTextExpands(tpl: string, env: Env)
    requires forall i :: 0 <= i < |tpl| - 1 ==> !(tpl[i] == '{' && tpl[i + 1] == '{')
    ensures Expand(tpl, env) == Success(tpl)
    decreases |tpl|
  {
    if tpl != "" {
      assert forall i :: 0 <= i < |tpl[1..]| ==> tpl[1..][i] == tpl[i + 1];
      PlainTextExpands(tpl[1..], env);
      assert [tpl[0]] + tpl[1..] == tpl;
    }
  }

  /** Some reference in the template may be to `name`: it occurs after two opening braces, and ends
      there. */
  predicate Mentions(tpl: string, name: string) {
    exists i :: 0 <= i < |tpl| && MentionsAt(tpl, name, i)
  }

  predicate MentionsAt(tpl: string, name: string, i: nat) {
    && i + 2 + |name| < |tpl| && tpl[i] == '{' && tpl[i + 1] == '{'
    && tpl[i + 2..i + 2 + |name|] == name && (tpl[i + 2 + |name|] == '}' || tpl[i + 2 + |name|] == NUL)
  }

  lemma MentionedLater(tpl: string, name: string, k: nat)
    requires k <= |tpl| && !Mentions(tpl, name)
    ensures !Mentions(tpl[k..], name)
  {
    forall i | 0 <= i < |tpl[k..]|
      ensures !MentionsAt(tpl[k..], name, i)
    {
      assert !MentionsAt(tpl, name, k + i);
      if k + i + 2 + |name| < |tpl| {
        assert tpl[k..][i + 2..i + 2 + |name|] == tpl[k + i + 2..k + i + 2 + |name|];
      }
    }
  }

  /** Two environments that agree but for the variable `name`. */
  ghost predicate AgreeBut(env: Env, other: Env, name: string) {
    && (name != "HOME" ==> env.home == other.home)
    && forall key :: key != name ==> (key in env.vars <==> key in other.vars) && (key in env.vars ==> env.vars[key] == other.vars[key])
  }

  /** A variable that no reference names does not matter. */
  lemma {:induction false} OthersDoNotMatter(tpl: string, env: Env, other: Env, name: string)
    requires AgreeBut(env, other, name) && !Mentions(tpl, name)
    ensures Expand(tpl, env) == Expand(tpl, other)
    decreases |tpl|
  {
    if tpl == "" {
    } else if !OpensReference(tpl) {
      MentionedLater(tpl, name, 1);
      OthersDoNotMatter(tpl[1..], env, other, name);
    } else if NameLength(tpl).Some? {
      var n := NameLength(tpl).value;
      MentionedLater(tpl, name, n + 4);
      OthersDoNotMatter(tpl[n + 4..], env, other, name);
      NotNamed(tpl, name, n);
      assert CString(tpl[2..2 + n]) != name;
    }
  }

  lemma NotNamed(tpl: string, name: string, n: nat)
    requires OpensReference(tpl) && NameLength(tpl) == Some(n) && !Mentions(tpl, name)
    ensures CString(tpl[2..2 + n]) != name
  {
    var k := IndexOf(tpl[2..2 + n], NUL);
    assert !MentionsAt(tpl, name, 0);
    assert CString(tpl[2..2 + n]) == tpl[2..2 + k];
    assert tpl[2 + n] == tpl[2..][n];
    assert k < n ==> tpl[2 + k] == NUL;
  }

  lemma {:induction false} PartsExpand(ps: seq<Part>, env: Env)
    requires GoodParts(ps, env)
    ensures Expand(PartsText(ps), env) == Success(PartsValue(ps, env))
  {
    if ps != [] {
      var rest := PartsText(ps[1..]);
      PartsExpand(ps[1..], env);
      match ps[0]
      case Literal(ch) =>
        assert PartsText(ps)[1..] == rest;
      case Reference(name) =>
        ReferenceLength(name, rest);
    }
  }

  /** The literal or reference at the start of a template that expands. */
  lemma FirstPart(tpl: string, env: Env) returns (p: Part, rest: string)
    requires Expand(tpl, env).Success? && tpl != ""
    ensures |rest| < |tpl| && tpl == PartText(p) + rest && Expand(rest, env).Success?
    ensures p.Literal? ==> !OpensReference(tpl)
    ensures p.Reference? ==> |p.name| < NAME_CAP && '}' !in p.name && Lookup(env, p.name) != ""
  {
    if !OpensReference(tpl) {
      p, rest := Literal(tpl[0]), tpl[1..];
    } else {
      var n := NameLength(tpl).value;
      var name := tpl[2..2 + n];
      assert forall k :: 0 <= k < n ==> name[k] == tpl[2..][k];
      assert tpl[2 + n] == tpl[2..][n];
      p, rest := Reference(name), tpl[n + 4..];
      assert tpl == "{{" + name + "}}" + rest;
    }
  }

  lemma {:induction false} PartsOf(tpl: string, env: Env) returns (ps: seq<Part>)
    requires Expand(tpl, env).Success?
    ensures GoodParts(ps, env) && PartsText(ps) == tpl
    decreases |tpl|
  {
    if tpl == "" {
      ps := [];
    } else {
      var p, rest := FirstPart(tpl, env);
      var more := PartsOf(rest, env);
      ps := [p] + more;
      assert ps[1..] == more;
    }
  }

  /** A template expands exactly when it is a list of literals and closed references, each at
      most 63 bytes long and to a non-empty variable, whose expansion fits and is absolute when
      that is required; the result is then that expansion, whole and not scanned again. */
  lemma {:induction false} ExpandsExactly(tpl: string, env: Env, cap: nat, requireAbsolute: bool, x: string)
    ensures Expanded(tpl, env, cap, requireAbsolute) == Success(x) <==>
      && (exists ps :: GoodParts(ps, env) && PartsText(ps) == tpl && PartsValue(ps, env) == x)
      && |x| < cap && (requireAbsolute ==> x != "" && x[0] == '/')
  {
    if Expand(tpl, env).Success? {
      var ps := PartsOf(tpl, env);
      PartsExpand(ps, env);
      assert GoodParts(ps, env) && PartsText(ps) == tpl && PartsValue(ps, env) == Expand(tpl, env).value;
    }
    forall ps | GoodParts(ps, env) && PartsText(ps) == tpl
      ensures Expand(tpl, env) == Success(PartsValue(ps, env))
    {
      PartsExpand(ps, env);
    }
  }

  // ---------- the program ----------

  /** What has been written of `x` so far: as much of it as fits, and whether some did not. */
  ghost predicate Emitted(b: string, o: nat, tooLong: bool, x: string) {
    && o < |b| && o == Min(|x|, |b| - 1) && b[..o] == x[..o]
    && (tooLong <==> |x| >= |b|)
  }

  method Put(out: array<char>, o: nat, tooLong: bool, ch: char, ghost x: string) returns (o': nat, tooLong': bool)
    requires Emitted(out[..], o, tooLong, x)
    modifies out
    ensures Emitted(out[..], o', tooLong', x + [ch])
  {
    if o + 1 < out.Length {
      out[o] := ch;
      assert out[..][..o] == x[..o];
      o', tooLong' := o + 1, tooLong;
    } else {
      assert (x + [ch])[..o] == x[..o];
      o', tooLong' := o, true;
    }
  }

  method PutValue(out: array<char>, o: nat, tooLong: bool, value: string, ghost x: string)
    returns (o': nat, tooLong': bool)
    requires Emitted(out[..], o, tooLong, x)
    modifies out
    ensures Emitted(out[..], o', tooLong', x + value)
  {
    o', tooLong' := o, tooLong;
    var i := 0;
    assert x + value[..0] == x;
    while i < |value|
      invariant 0 <= i <= |value| && Emitted(out[..], o', tooLong', x + value[..i])
    {
      o', tooLong' := Put(out, o', tooLong', value[i], x + value[..i]);
      assert x + value[..i] + [value[i]] == x + value[..i + 1];
      i := i + 1;
    }
    assert value[..i] == value;
  }

  /** Copies a name up to its brace; `at` is the position after the opening braces. */
  method ReadName(tpl: string, at: nat) returns (name: string, i: nat)
    requires at <= |tpl|
    ensures at <= i <= |tpl| && i - at < NAME_CAP && name == tpl[at..i] && '}' !in name
    ensures i - at == NAME_CAP - 1 || i == |tpl| || tpl[i] == '}'
  {
    var buf := new char[NAME_CAP];
    var n := 0;
    i := at;
    while i < |tpl| && tpl[i] != '}' && n + 1 < NAME_CAP
      invariant at <= i <= |tpl| && n == i - at < NAME_CAP && buf[..n] == tpl[at..i] && '}' !in tpl[at..i]
    {
      assert tpl[at..i + 1] == tpl[at..i] + [tpl[i]];
      ghost var was := buf[..n];
      buf[n] := tpl[i];
      assert buf[..n + 1] == was + [tpl[i]];
      i, n := i + 1, n + 1;
    }
    name := buf[..n];
  }

  lemma NameRead(tpl: string, at: nat, i: nat)
    requires at + 2 <= i <= |tpl| && OpensReference(tpl[at..]) && '}' !in tpl[at + 2..i] && i - at - 2 < NAME_CAP
    requires i - at - 2 == NAME_CAP - 1 || i == |tpl| || tpl[i] == '}'
    ensures NameLength(tpl[at..]) ==
      if i + 1 < |tpl| && tpl[i] == '}' && tpl[i + 1] == '}' then Some(i - at - 2) else None
    ensures tpl[at..][2..2 + i - at - 2] == tpl[at + 2..i]
    ensures i + 2 <= |tpl| ==> tpl[at..][i - at - 2 + 4..] == tpl[i + 2..]
  {
    var s := tpl[at..][2..];
    var n := i - at - 2;
    assert forall k :: 0 <= k < n ==> s[k] == tpl[at + 2..i][k];
    if i == |tpl| || tpl[i] == '}' {
      IndexOfUnique(s, '}', n);
    } else {
      assert s[n] == tpl[i];
      assert IndexOf(s, '}') > n;
    }
  }

  /** The template up to `i` expands to `x`. */
  ghost predicate Expanding(tpl: string, env: Env, i: nat, x: string) {
    i <= |tpl| && Expand(tpl, env) == Prefixed(x, Expand(tpl[i..], env))
  }

  lemma PrefixedTwice(a: string, b: string, e: Expansion)
    ensures Prefixed(a, Prefixed(b, e)) == Prefixed(a + b, e)
  {
    if e.Success? {
      assert a + (b + e.value) == a + b + e.value;
    }
  }

  lemma LiteralStep(tpl: string, env: Env, i: nat, x: string)
    requires Expanding(tpl, env, i, x) && i < |tpl| && !OpensReference(tpl[i..])
    ensures Expanding(tpl, env, i + 1, x + [tpl[i]])
  {
    assert tpl[i..][1..] == tpl[i + 1..];
    PrefixedTwice(x, [tpl[i]], Expand(tpl[i + 1..], env));
  }

  lemma {:induction false} ReferenceStep(tpl: string, env: Env, i: nat, x: string, end: nat)
    requires Expanding(tpl, env, i, x) && i + 2 <= end <= |tpl| && OpensReference(tpl[i..])
    requires '}' !in tpl[i + 2..end] && end - i - 2 < NAME_CAP
    requires end - i - 2 == NAME_CAP - 1 || end == |tpl| || tpl[end] == '}'
    ensures var value := Lookup(env, tpl[i + 2..end]);
      if !(end + 1 < |tpl| && tpl[end] == '}' && tpl[end + 1] == '}') then Expand(tpl, env) == Failure(Unterminated)
      else if value == "" then Expand(tpl, env) == Failure(Unset)
      else Expanding(tpl, env, end + 2, x + value)
  {
    NameRead(tpl, i, end);
    var value := Lookup(env, tpl[i + 2..end]);
    if end + 1 < |tpl| && tpl[end] == '}' && tpl[end + 1] == '}' && value != "" {
      PrefixedTwice(x, value, Expand(tpl[end + 2..], env));
    }
  }

  /** The branch for a reference at `i`. */
  method PutReference(tpl: string, env: Env, i: nat, out: array<char>, o: nat, tooLong: bool, ghost x: string)
    returns (e: Option<TemplateError>, i': nat, o': nat, tooLong': bool, ghost more: string)
    requires Expanding(tpl, env, i, x) && Emitted(out[..], o, tooLong, x) && OpensReference(tpl[i..])
    modifies out
    ensures e.Some? ==> Expand(tpl, env) == Failure(e.value)
    ensures e.None? ==> i' > i && Expanding(tpl, env, i', x + more) && Emitted(out[..], o', tooLong', x + more)
  {
    var name, end := ReadName(tpl, i + 2);
    ReferenceStep(tpl, env, i, x, end);
    i', o', tooLong', more := i, o, tooLong, "";
    if end + 1 >= |tpl| || tpl[end] != '}' || tpl[end + 1] != '}' {
      return Some(Unterminated), i', o', tooLong', more;
    }
    var value := Lookup(env, name);
    if value == "" {
      return Some(Unset), i', o', tooLong', more;
    }
    o', tooLong' := PutValue(out, o, tooLong, value, x);
    e, i', more := None, end + 2, value;
  }

  lemma {:induction false} Finished(tpl: string, env: Env, i: nat, x: string)
    requires Expanding(tpl, env, i, x) && i == |tpl|
    ensures Expand(tpl, env) == Success(x)
  {
    assert tpl[i..] == "" && x + "" == x;
  }

  /** expand_template: on success `out` holds the expansion as a C string. */
  method ExpandTemplate(tpl: string, env: Env, out: array<char>, requireAbsolute: bool) returns (e: Option<TemplateError>)
    requires out.Length > 0
    modifies out
    ensures match Expanded(tpl, env, out.Length, requireAbsolute)
      case Failure(err) => e == Some(err)
      case Success(x) => e == None && out[..|x|] == x && out[|x|] == NUL
  {
    var i, o, tooLong := 0, 0, false;
    ghost var x := "";
    assert tpl[0..] == tpl;
    assert Expand(tpl, env).Success? ==> "" + Expand(tpl, env).value == Expand(tpl, env).value;
    while i < |tpl|
      invariant 0 <= i && 0 <= o && Expanding(tpl, env, i, x) && Emitted(out[..], o, tooLong, x)
    {
      if i + 1 < |tpl| && tpl[i] == '{' && tpl[i + 1] == '{' {
        assert OpensReference(tpl[i..]);
        ghost var more;
        e, i, o, tooLong, more := PutReference(tpl, env, i, out, o, tooLong, x);
        if e.Some? {
          return;
        }
        x := x + more;
      } else {
        LiteralStep(tpl, env, i, x);
        o, tooLong := Put(out, o, tooLong, tpl[i], x);
        i, x := i + 1, x + [tpl[i]];
      }
    }
    Finished(tpl, env, i, x);
    assert out[..][..o] == x[..o];
    out[o] := NUL;
    if tooLong {
      return Some(TooLong);
    }
    if requireAbsolute && out[0] != '/' {
      return Some(NotAbsolute);
    }
    e := None;
  }
}
