/** Paths relative to a project's work directory: valid_relative_path of src/config.c and
    resolve_cached_bin of src/main.c. */
module RelativePath {
  import opened Text

  const PATH_MAX := 1023

  predicate Proper(part: string) {
    part != "" && part != "." && part != ".."
  }

  predicate AllProper(parts: seq<string>) {
    forall part :: part in parts ==> Proper(part)
  }

  /** A bounded list of proper components with slashes between them. */
  predicate Safe(path: string, max: nat) {
    |path| <= max && AllProper(Split(path, '/'))
  }

  /** The safe paths are exactly those that join some components which are neither empty, nor
      "." nor "..", and contain no slash. */
  lemma SafeMeansJoined(path: string, max: nat)
    ensures Safe(path, max) <==>
      (&& |path| <= max
       && exists parts: seq<string> ::
            parts != [] && AllProper(parts) && (forall part :: part in parts ==> '/' !in part) && path == Join(parts, '/'))
  {
    JoinSplit(path, '/');
    SplitParts(path, '/');
    forall parts: seq<string> |
      parts != [] && (forall part :: part in parts ==> '/' !in part) && path == Join(parts, '/')
      ensures Split(path, '/') == parts
    {
      SplitJoin(parts, '/');
    }
  }

  /** The components from `start` on are proper; there are none past the end of the path. */
  predicate ProperFrom(path: string, start: nat) {
    start <= |path| ==> AllProper(Split(path[start..], '/'))
  }

  /** valid_relative_path */
  method ValidRelativePath(path: string, max: nat) returns (valid: bool)
    ensures valid == Safe(path, max)
  {
    if |path| == 0 || |path| > max || path[0] == '/' || path[|path| - 1] == '/' {
      if |path| <= max {
        EdgeSlash(path);
      }
      return false;
    }
    assert path[0..] == path;
    valid := AllComponentsProper(path);
  }

  /** The loop of valid_relative_path. */
  method AllComponentsProper(path: string) returns (valid: bool)
    ensures valid == ProperFrom(path, 0)
  {
    var start, i := 0, 0;
    while i <= |path|
      invariant 0 <= start <= i <= |path| + 1 && (i == |path| + 1 ==> start == i)
      invariant Slashless(path, start, i)
      invariant ProperFrom(path, start) == ProperFrom(path, 0)
    {
      if i == |path| || path[i] == '/' {
        var n := i - start;
        NextComponent(path, start, i);
        if n == 0 || (n == 1 && path[start] == '.') || (n == 2 && path[start] == '.' && path[start + 1] == '.') {
          return false;
        }
        start := i + 1;
      }
      i := i + 1;
    }
    valid := true;
  }

  predicate Slashless(path: string, start: nat, i: nat) {
    forall k :: start <= k < i && k < |path| ==> path[k] != '/'
  }

  lemma NextComponent(path: string, start: nat, i: nat)
    requires start <= i <= |path| && Slashless(path, start, i) && (i == |path| || path[i] == '/')
    ensures var n := i - start;
      ProperFrom(path, start) <==>
        && !(n == 0 || (n == 1 && path[start] == '.') || (n == 2 && path[start] == '.' && path[start + 1] == '.'))
        && ProperFrom(path, i + 1)
  {
    ProperByBytes(path, start, i);
    HeadComponent(path[start..], i - start);
    assert path[start..][..i - start] == path[start..i];
    assert i < |path| ==> path[start..][i - start + 1..] == path[i + 1..];
  }

  lemma {:induction false} HeadComponent(s: string, n: nat)
    requires n <= |s| && '/' !in s[..n] && (n == |s| || s[n] == '/')
    ensures AllProper(Split(s, '/')) <==> Proper(s[..n]) && (n < |s| ==> AllProper(Split(s[n + 1..], '/')))
  {
    assert forall k :: 0 <= k < n ==> s[..n][k] == s[k];
    SplitAt(s, n, '/');
    if n == |s| {
      assert s[..n] == s;
      OneProper(s);
    } else {
      FirstProper(s[..n], Split(s[n + 1..], '/'));
    }
  }

  lemma OneProper(part: string)
    ensures AllProper([part]) <==> Proper(part)
  {
    assert part in [part];
  }

  lemma FirstProper(part: string, more: seq<string>)
    ensures AllProper([part] + more) <==> Proper(part) && AllProper(more)
  {
    var all := [part] + more;
    assert all[0] == part && all[1..] == more;
    if AllProper(all) {
      assert part in all;
      forall x | x in more
        ensures Proper(x)
      {
        assert x in all;
      }
    }
  }

  lemma ProperByBytes(path: string, start: nat, i: nat)
    requires start <= i <= |path|
    ensures var n := i - start;
      Proper(path[start..i]) <==>
        !(n == 0 || (n == 1 && path[start] == '.') || (n == 2 && path[start] == '.' && path[start + 1] == '.'))
  {
    var part := path[start..i];
    assert i - start == 1 ==> part[0] == path[start];
    assert i - start == 2 ==> part[0] == path[start] && part[1] == path[start + 1];
  }

  /** An empty path and one that starts or ends with a slash have an empty component. */
  lemma {:induction false} EdgeSlash(path: string)
    requires |path| == 0 || path[0] == '/' || path[|path| - 1] == '/'
    ensures !AllProper(Split(path, '/'))
  {
    if |path| == 0 || path[0] == '/' {
      FirstSlash(path);
    } else {
      LastSlash(path);
    }
  }

  lemma {:induction false} FirstSlash(path: string)
    requires |path| == 0 || path[0] == '/'
    ensures !AllProper(Split(path, '/'))
  {
    SplitAt(path, 0, '/');
    assert Split(path, '/')[0] == "" && Split(path, '/')[0] in Split(path, '/');
  }

  lemma {:induction false} LastSlash(path: string)
    requires |path| > 0 && path[|path| - 1] == '/'
    ensures !AllProper(Split(path, '/'))
  {
    var front := path[..|path| - 1];
    SplitAppend(front, "", '/');
    assert front + ['/'] + "" == path;
    SplitAt("", 0, '/');
    var all := Split(path, '/');
    assert all[|all| - 1] == "" && all[|all| - 1] in all;
  }

  // ---------- walking a path ----------

  /** The directory reached from `at` by walking components: the stack of names below the root. */
  function Walk(at: seq<string>, parts: seq<string>): seq<string>
    decreases |parts|
  {
    if parts == [] then at
    else
      var part := parts[0];
      var next := if part == "" || part == "." then at
                  else if part == ".." then if at == [] then at else at[..|at| - 1]
                  else at + [part];
      Walk(next, parts[1..])
  }

  lemma {:induction false} WalkAppend(at: seq<string>, a: seq<string>, b: seq<string>)
    ensures Walk(at, a + b) == Walk(Walk(at, a), b)
    decreases |a|
  {
    if a == [] {
      assert a + b == b;
    } else {
      assert (a + b)[1..] == a[1..] + b;
      WalkAppend(Walk(at, [a[0]]), a[1..], b);
      assert Walk(at, a) == Walk(Walk(at, [a[0]]), a[1..]);
    }
  }

  /** What `.`, an empty component and `..` mean to a walk, in the middle of any path. */
  lemma {:induction false} DotsMeanNothing(at: seq<string>, a: seq<string>, x: string, b: seq<string>)
    requires Proper(x)
    ensures Walk(at, a + ["."] + b) == Walk(at, a + b) && Walk(at, a + [""] + b) == Walk(at, a + b)
    ensures Walk(at, a + [x, ".."] + b) == Walk(at, a + b)
    ensures Walk([], [".."] + b) == Walk([], b)
    ensures Walk(at, [x]) == at + [x]
  {
    WalkAppend(at, a, b);
    WalkAppend(at, a + ["."], b);
    WalkAppend(at, a, ["."]);
    WalkAppend(at, a + [""], b);
    WalkAppend(at, a, [""]);
    WalkAppend(at, a + [x, ".."], b);
    WalkAppend(at, a, [x, ".."]);
    WalkAppend(Walk(at, a), [x], [".."]);
    assert [x] + [".."] == [x, ".."];
    assert (Walk(at, a) + [x])[..|Walk(at, a)|] == Walk(at, a);
    WalkAppend([], [".."], b);
  }

  lemma {:induction false} ProperWalkDescends(at: seq<string>, parts: seq<string>)
    requires AllProper(parts)
    ensures Walk(at, parts) == at + parts
    decreases |parts|
  {
    if parts != [] {
      assert parts[0] in parts;
      ProperWalkDescends(at + [parts[0]], parts[1..]);
    }
  }

  /** A safe path below a work directory stays below it after every component: the walk of
      workdir/path passes through the directory and from there only goes down. */
  lemma {:induction false} NeverLeavesWorkdir(workdir: string, path: string, max: nat, k: nat)
    requires Safe(path, max) && k <= |Split(path, '/')|
    ensures var whole := Split(workdir + "/" + path, '/'); var base := |Split(workdir, '/')|;
      && base + k <= |whole| && |whole| == base + |Split(path, '/')|
      && Walk([], whole[..base + k]) == Walk([], Split(workdir, '/')) + Split(path, '/')[..k]
  {
    var down := Split(path, '/');
    SplitAppend(workdir, path, '/');
    var above := Split(workdir, '/');
    assert (above + down)[..|above| + k] == above + down[..k];
    WalkAppend([], above, down[..k]);
    ProperWalkDescends(Walk([], above), down[..k]);
  }

  // ---------- the in-place resolution ----------

  predicate HoldsPath(b: string, path: string) {
    NUL !in path && |path| < |b| && b[..|path|] == path && b[|path|] == NUL
  }

  /** memmove of the first `n` bytes up by `by`, which overlap their destination. */
  method ShiftUp(a: array<char>, n: nat, gap: nat)
    requires n + gap <= a.Length
    modifies a
    ensures a[gap..gap + n] == old(a[..n])
    ensures a[gap + n..] == old(a[gap + n..])
  {
    var i := n;
    while i > 0
      invariant 0 <= i <= n
      invariant forall k :: 0 <= k < i ==> a[k] == old(a[k])
      invariant forall k :: i <= k < n ==> a[gap + k] == old(a[k])
      invariant forall k :: gap + n <= k < a.Length ==> a[k] == old(a[k])
    {
      i := i - 1;
      a[gap + i] := a[i];
    }
  }

  method CopyTo(a: array<char>, s: string)
    requires |s| <= a.Length
    modifies a
    ensures a[..] == s + old(a[|s|..])
  {
    forall i | 0 <= i < |s| {
      a[i] := s[i];
    }
  }

  /** resolve_cached_bin: a relative bin-path becomes workdir/bin-path in its own buffer. */
  method ResolveCachedBin(bin: array<char>, workdir: string, ghost path: string) returns (ok: bool)
    requires bin.Length == 1024 && HoldsPath(bin[..], path) && NUL !in workdir
    modifies bin
    ensures path == "" || path[0] == '/' ==> ok && bin[..] == old(bin[..])
    ensures path != "" && path[0] != '/' ==> (ok <==> |workdir| + 1 + |path| <= 1023)
    ensures ok && path != "" && path[0] != '/' ==> HoldsPath(bin[..], workdir + "/" + path)
    ensures !ok ==> bin[..] == old(bin[..])
  {
    FirstByte(bin[..], path);
    if bin[0] == NUL || bin[0] == '/' {
      return true;
    }
    var n := Length(bin, path);
    if |workdir| + 1 + n > PATH_MAX {
      return false;
    }
    PutBefore(bin, workdir, n, path);
    ok := true;
  }

  method PutBefore(bin: array<char>, workdir: string, n: nat, ghost path: string)
    requires HoldsPath(bin[..], path) && n == |path| && NUL !in workdir && |workdir| + n + 2 <= bin.Length
    modifies bin
    ensures HoldsPath(bin[..], workdir + "/" + path)
  {
    var base := |workdir|;
    ShiftUp(bin, n + 1, base + 1);
    ghost var moved := bin[..];
    CopyTo(bin, workdir);
    ghost var copied := bin[..];
    bin[base] := '/';
    assert bin[..] == copied[base := '/'];
    Slashed(workdir, moved[base..]);
    Placed(bin[..], moved, workdir, path);
  }

  lemma Slashed(workdir: string, rest: string)
    requires rest != ""
    ensures (workdir + rest)[|workdir| := '/'] == workdir + ['/'] + rest[1..]
  {
  }

  lemma Placed(b: string, moved: string, workdir: string, path: string)
    requires NUL !in workdir && NUL !in path && |workdir| + |path| + 2 <= |moved|
    requires b == workdir + ['/'] + moved[|workdir| + 1..]
    requires moved[|workdir| + 1..|workdir| + 2 + |path|] == path + [NUL]
    ensures HoldsPath(b, workdir + "/" + path)
  {
    var at := |workdir| + 1;
    var tail := moved[at..];
    assert tail[..|path| + 1] == moved[at..at + |path| + 1];
    assert b[..at] == workdir + ['/'] && b[at..] == tail;
    assert b[at..at + |path|] == tail[..|path|] == (path + [NUL])[..|path|] == path;
    assert b[at + |path|] == tail[|path|] == tail[..|path| + 1][|path|];
  }

  lemma FirstByte(b: string, path: string)
    requires HoldsPath(b, path)
    ensures b[0] == NUL <==> path == ""
    ensures path != "" ==> b[0] == path[0]
  {
    NulAtEnd(b, path, 0);
    assert path != "" ==> b[0] == b[..|path|][0];
  }

  lemma NulAtEnd(b: string, path: string, n: nat)
    requires HoldsPath(b, path) && n <= |path|
    ensures b[n] == NUL <==> n == |path|
  {
    assert n < |path| ==> b[n] == b[..|path|][n] && path[n] in path;
  }

  /** strlen */
  method Length(a: array<char>, ghost path: string) returns (n: nat)
    requires HoldsPath(a[..], path)
    ensures n == |path|
  {
    n := 0;
    NulAtEnd(a[..], path, 0);
    while a[n] != NUL
      invariant 0 <= n <= |path| && (a[n] == NUL <==> n == |path|)
      decreases |path| - n
    {
      n := n + 1;
      NulAtEnd(a[..], path, n);
    }
  }
}
