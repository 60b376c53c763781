/** join_path of examples/last-file-c.siml: joins two paths and normalises the result lexically,
    in place, with a stack of the offsets at which its components start. */
module JoinPath {
  import opened Text
  import opened Wrappers
  import RelativePath

  const BUFFER_SIZE := 8192
  const STARTS := BUFFER_SIZE / 2

  // ---------- the normal form ----------

  /** What one component does to the stack of components kept so far. */
  function Step(absolute: bool, stack: seq<string>, part: string): seq<string> {
    if part == "" || part == "." then stack
    else if part == ".." && stack != [] && stack[|stack| - 1] != ".." then stack[..|stack| - 1]
    else if part == ".." && absolute then stack
    else stack + [part]
  }

  function Steps(absolute: bool, stack: seq<string>, parts: seq<string>): seq<string>
    decreases |parts|
  {
    if parts == [] then stack else Steps(absolute, Step(absolute, stack, parts[0]), parts[1..])
  }

  function Root(absolute: bool): string {
    if absolute then "/" else ""
  }

  /** The text up to where a component pushed on `stack` would start. */
  function Lead(absolute: bool, stack: seq<string>): string
    decreases |stack|, 1
  {
    if stack == [] then Root(absolute) else Render(absolute, stack) + "/"
  }

  function Render(absolute: bool, stack: seq<string>): string
    decreases |stack|, 0
  {
    if stack == [] then Root(absolute) else Lead(absolute, stack[..|stack| - 1]) + stack[|stack| - 1]
  }

  /** The path shown for a stack: the empty relative path is ".". */
  function Shown(absolute: bool, stack: seq<string>): string {
    if Render(absolute, stack) == "" then "." else Render(absolute, stack)
  }

  /** No empty or "." component, and ".." only as a leading run of a relative path. */
  predicate Normal(absolute: bool, stack: seq<string>) {
    forall i :: 0 <= i < |stack| ==>
      && stack[i] != "" && stack[i] != "." && '/' !in stack[i]
      && (stack[i] == ".." ==> !absolute && forall j :: 0 <= j < i ==> stack[j] == "..")
  }

  predicate Parts(parts: seq<string>) {
    forall i :: 0 <= i < |parts| ==> '/' !in parts[i]
  }

  lemma StepStaysNormal(absolute: bool, stack: seq<string>, part: string)
    requires Normal(absolute, stack) && '/' !in part
    ensures Normal(absolute, Step(absolute, stack, part))
  {
  }

  lemma {:induction false} StepsAreNormal(absolute: bool, stack: seq<string>, parts: seq<string>)
    requires Normal(absolute, stack) && Parts(parts)
    ensures Normal(absolute, Steps(absolute, stack, parts))
    decreases |parts|
  {
    if parts != [] {
      StepStaysNormal(absolute, stack, parts[0]);
      StepsAreNormal(absolute, Step(absolute, stack, parts[0]), parts[1..]);
    }
  }

  /** A normal stack is its own normal form. */
  lemma {:induction false} NormalIsFixed(absolute: bool, stack: seq<string>, k: nat)
    requires Normal(absolute, stack) && k <= |stack|
    ensures Steps(absolute, stack[..k], stack[k..]) == stack
    decreases |stack| - k
  {
    if k == |stack| {
      assert stack[..k] == stack;
    } else {
      assert stack[..k] + [stack[k]] == stack[..k + 1];
      assert Step(absolute, stack[..k], stack[k]) == stack[..k + 1];
      assert stack[k..][1..] == stack[k + 1..];
      NormalIsFixed(absolute, stack, k + 1);
    }
  }

  lemma {:induction false} RenderIsJoin(absolute: bool, stack: seq<string>)
    ensures Render(absolute, stack) == Root(absolute) + Join(stack, '/')
    decreases |stack|
  {
    if stack != [] {
      var less, last := stack[..|stack| - 1], stack[|stack| - 1];
      RenderIsJoin(absolute, less);
      JoinSnoc(less, last);
      assert less + [last] == stack;
      if less == [] {
      } else {
        Regroup(Root(absolute), Join(less, '/'), "/", last);
      }
    }
  }

  lemma Regroup(a: string, b: string, c: string, d: string)
    ensures a + b + c + d == a + (b + c + d)
  {
  }

  lemma {:induction false} JoinSnoc(parts: seq<string>, part: string)
    ensures Join(parts + [part], '/') == if parts == [] then part else Join(parts, '/') + "/" + part
  {
    if parts != [] {
      JoinSnoc(parts[1..], part);
      assert (parts + [part])[1..] == parts[1..] + [part];
    }
  }

  // ---------- normalising keeps the meaning ----------

  lemma {:induction false} WalkStep(absolute: bool, at: seq<string>, stack: seq<string>, part: string)
    requires Normal(absolute, stack) && '/' !in part && (absolute ==> at == [])
    ensures RelativePath.Walk(at, Step(absolute, stack, part)) == RelativePath.Walk(RelativePath.Walk(at, stack), [part])
  {
    var n := |stack| - 1;
    if part == ".." && stack != [] && stack[n] != ".." {
      RelativePath.WalkAppend(at, stack[..n], [stack[n]]);
      assert stack[..n] + [stack[n]] == stack;
      assert RelativePath.Walk(at, stack) == RelativePath.Walk(at, stack[..n]) + [stack[n]];
    } else if part == ".." && absolute {
      assert stack == [];
    } else {
      RelativePath.WalkAppend(at, stack, [part]);
    }
  }

  /** From any directory, or from the root for an absolute path, a path and its normal form lead
      to the same directory, symbolic links aside. */
  lemma {:induction false} NormalFormLeadsToTheSame(absolute: bool, at: seq<string>, stack: seq<string>, parts: seq<string>)
    requires Normal(absolute, stack) && Parts(parts) && (absolute ==> at == [])
    ensures RelativePath.Walk(at, Steps(absolute, stack, parts))
      == RelativePath.Walk(RelativePath.Walk(at, stack), parts)
    decreases |parts|
  {
    if parts != [] {
      var next := Step(absolute, stack, parts[0]);
      StepStaysNormal(absolute, stack, parts[0]);
      WalkStep(absolute, at, stack, parts[0]);
      NormalFormLeadsToTheSame(absolute, at, next, parts[1..]);
      RelativePath.WalkAppend(RelativePath.Walk(at, stack), [parts[0]], parts[1..]);
      assert [parts[0]] + parts[1..] == parts;
    }
  }

  // ---------- within a capacity ----------

  /** The path so far leaves room for a terminator; an empty one has not been written yet. */
  predicate Room(absolute: bool, stack: seq<string>, capacity: nat) {
    Render(absolute, stack) == "" || |Render(absolute, stack)| < capacity
  }

  /** The steps, as long as every path on the way has room. */
  function Bounded(absolute: bool, stack: seq<string>, parts: seq<string>, capacity: nat): Option<seq<string>>
    decreases |parts|
  {
    if parts == [] then Some(stack)
    else
      var next := Step(absolute, stack, parts[0]);
      if Room(absolute, next, capacity) then Bounded(absolute, next, parts[1..], capacity) else None
  }

  predicate AllHaveRoom(absolute: bool, stack: seq<string>, parts: seq<string>, capacity: nat) {
    forall k :: 0 < k <= |parts| ==> Room(absolute, Steps(absolute, stack, parts[..k]), capacity)
  }

  lemma {:induction false} BoundedExactly(absolute: bool, stack: seq<string>, parts: seq<string>, capacity: nat)
    ensures Bounded(absolute, stack, parts, capacity) ==
      if AllHaveRoom(absolute, stack, parts, capacity) then Some(Steps(absolute, stack, parts)) else None
    decreases |parts|
  {
    if parts != [] {
      var next := Step(absolute, stack, parts[0]);
      BoundedExactly(absolute, next, parts[1..], capacity);
      RoomAfterFirst(absolute, stack, parts, capacity);
    }
  }

  lemma RoomAfterFirst(absolute: bool, stack: seq<string>, parts: seq<string>, capacity: nat)
    requires parts != []
    ensures var next := Step(absolute, stack, parts[0]);
      AllHaveRoom(absolute, stack, parts, capacity) <==>
        Room(absolute, next, capacity) && AllHaveRoom(absolute, next, parts[1..], capacity)
  {
    var next := Step(absolute, stack, parts[0]);
    forall k | 0 < k <= |parts|
      ensures Steps(absolute, stack, parts[..k]) == Steps(absolute, next, parts[1..][..k - 1])
    {
      assert parts[..k][1..] == parts[1..][..k - 1];
    }
    assert Steps(absolute, stack, parts[..1]) == next;
    if AllHaveRoom(absolute, stack, parts, capacity) {
      forall k | 0 < k <= |parts[1..]|
        ensures Room(absolute, Steps(absolute, next, parts[1..][..k]), capacity)
      {
        assert Room(absolute, Steps(absolute, stack, parts[..k + 1]), capacity);
      }
    }
  }

  function Input(left: string, right: string): string {
    left + "/" + right
  }

  /** The result for a buffer of `capacity` bytes: the path shown for the normal form. */
  function Joined(left: string, right: string, capacity: nat): Option<string> {
    var input := Input(left, right);
    var absolute := input[0] == '/';
    if |input| >= BUFFER_SIZE then None
    else
      match Bounded(absolute, [], Split(input, '/'), capacity)
      case None => None
      case Some(stack) =>
        if |Shown(absolute, stack)| < capacity then Some(Shown(absolute, stack)) else None
  }

  /** join_path succeeds exactly when the input fits its buffer and every path on the way to the
      normal form, and the path shown for it, fit the caller's; the result is that path. */
  lemma JoinsExactly(left: string, right: string, capacity: nat)
    ensures var input := Input(left, right); var absolute := input[0] == '/';
      var parts := Split(input, '/'); var stack := Steps(absolute, [], parts);
      && Normal(absolute, stack)
      && Joined(left, right, capacity) ==
         if |input| < 8192 && AllHaveRoom(absolute, [], parts, capacity) && |Shown(absolute, stack)| < capacity
         then Some(Shown(absolute, stack)) else None
  {
    var input := Input(left, right);
    var absolute := input[0] == '/';
    var parts := Split(input, '/');
    SplitParts(input, '/');
    StepsAreNormal(absolute, [], parts);
    BoundedExactly(absolute, [], parts, capacity);
  }

  // ---------- the result is its own normal form ----------

  lemma {:induction false} ShorterHasRoom(absolute: bool, stack: seq<string>, k: nat, capacity: nat)
    requires k <= |stack| && (stack == [] || |Render(absolute, stack)| < capacity)
    requires stack == [] ==> Room(absolute, stack, capacity)
    ensures Room(absolute, stack[..k], capacity)
    decreases |stack|
  {
    if k == |stack| {
      assert stack[..k] == stack;
    } else {
      var less := stack[..|stack| - 1];
      assert stack[..k] == less[..k];
      ShorterHasRoom(absolute, less, k, capacity);
    }
  }

  lemma {:induction false} NormalIsBounded(absolute: bool, stack: seq<string>, k: nat, capacity: nat)
    requires Normal(absolute, stack) && k <= |stack|
    requires stack == [] || |Render(absolute, stack)| < capacity
    ensures Bounded(absolute, stack[..k], stack[k..] + [""], capacity) ==
      if Room(absolute, stack, capacity) then Some(stack) else None
    decreases |stack| - k
  {
    var parts := stack[k..] + [""];
    if k == |stack| {
      assert stack[..k] == stack && parts == [""];
    } else {
      assert stack[..k] + [stack[k]] == stack[..k + 1];
      assert parts[1..] == stack[k + 1..] + [""];
      ShorterHasRoom(absolute, stack, k + 1, capacity);
      NormalIsBounded(absolute, stack, k + 1, capacity);
    }
  }

  /** The components of a shown path followed by a slash. */
  lemma ShownSplits(absolute: bool, stack: seq<string>)
    requires Normal(absolute, stack)
    ensures var p := Shown(absolute, stack);
      && (p[0] == '/' <==> absolute)
      && Split(p + "/", '/') ==
         (if absolute then [""] else []) + (if stack != [] then stack else if absolute then [""] else ["."]) + [""]
  {
    var p := Shown(absolute, stack);
    RenderIsJoin(absolute, stack);
    SplitAppend(p, "", '/');
    assert Split("", '/') == [""];
    assert p + ['/'] + "" == p + "/";
    if stack == [] {
      assert Split("", '/') == [""] && Root(absolute) + "" == Root(absolute);
      assert "" + ['/'] + "" == "/";
      SplitFirst("", "", '/');
      SplitFirst(".", "", '/');
    } else {
      SplitJoin(stack, '/');
      JoinStarts(stack);
      if absolute {
        assert p == "" + ['/'] + Join(stack, '/');
        SplitFirst("", Join(stack, '/'), '/');
      } else {
        assert p == Join(stack, '/');
        assert [] + stack == stack;
      }
    }
  }

  lemma {:induction false} JoinStarts(stack: seq<string>)
    requires stack != [] && stack[0] != "" && '/' !in stack[0]
    ensures Join(stack, '/') != "" && Join(stack, '/')[0] == stack[0][0] != '/'
  {
  }

  /** Joining the result with nothing gives the result again. */
  lemma JoinIsIdempotent(left: string, right: string, capacity: nat)
    requires Joined(left, right, capacity).Some?
    requires |Joined(left, right, capacity).value| + 1 < 8192
    ensures Joined(Joined(left, right, capacity).value, "", capacity) == Joined(left, right, capacity)
  {
    JoinsExactly(left, right, capacity);
    var absolute := Input(left, right)[0] == '/';
    var stack := Steps(absolute, [], Split(Input(left, right), '/'));
    var p := Shown(absolute, stack);
    ShownSplits(absolute, stack);
    assert Input(p, "") == p + "/";
    ShownIsBounded(absolute, stack, capacity);
  }

  lemma {:induction false} ShownIsBounded(absolute: bool, stack: seq<string>, capacity: nat)
    requires Normal(absolute, stack) && |Shown(absolute, stack)| < capacity
    ensures Bounded(absolute, [], Split(Shown(absolute, stack) + "/", '/'), capacity) == Some(stack)
  {
    ShownSplits(absolute, stack);
    var inner := if stack != [] then stack else if absolute then [""] else ["."];
    if stack == [] {
      SkipPart(absolute, [], inner[0], [""], capacity);
      SkipPart(absolute, [], "", [], capacity);
      assert inner == [inner[0]] && [""] + [] == [""];
    } else {
      NormalIsBounded(absolute, stack, 0, capacity);
      ShorterHasRoom(absolute, stack, 0, capacity);
      assert stack[..0] == [] && stack[0..] == stack;
    }
    if absolute {
      SkipPart(absolute, [], "", inner + [""], capacity);
      assert [""] + inner + [""] == [""] + (inner + [""]);
    } else {
      assert [] + inner == inner;
    }
  }

  lemma {:induction false} SkipPart(absolute: bool, stack: seq<string>, part: string, rest: seq<string>, capacity: nat)
    requires part == "" || part == "."
    ensures Bounded(absolute, stack, [part] + rest, capacity) ==
      if Room(absolute, stack, capacity) then Bounded(absolute, stack, rest, capacity) else None
  {
    assert ([part] + rest)[1..] == rest;
  }

  // ---------- the program ----------

  /** The offset at which each component of the stack starts. */
  function Starts(absolute: bool, stack: seq<string>): (at: seq<nat>)
    ensures |at| == |stack|
  {
    if stack == [] then []
    else Starts(absolute, stack[..|stack| - 1]) + [|Lead(absolute, stack[..|stack| - 1])|]
  }

  /** The component `part` stands at `at`: after a slash or at the start of the path, and up to a
      slash or the end. */
  predicate Marks(path: string, at: nat, part: string) {
    && at + |part| <= |path| && path[at..at + |part|] == part && (at == 0 || path[at - 1] == '/')
    && (at + |part| == |path| || path[at + |part|] == '/')
  }

  /** Every recorded offset marks its component in the path. */
  lemma {:induction false} StartsMarkComponents(absolute: bool, stack: seq<string>, i: nat)
    requires i < |stack|
    ensures Marks(Render(absolute, stack), Starts(absolute, stack)[i], stack[i])
    decreases |stack|
  {
    var less, last := stack[..|stack| - 1], stack[|stack| - 1];
    var at := Starts(absolute, stack)[i];
    if i < |stack| - 1 {
      StartsMarkComponents(absolute, less, i);
      MarkStays(Render(absolute, less), at, stack[i], last);
    } else {
      MarkLast(Lead(absolute, less), last);
    }
  }

  lemma MarkStays(path: string, at: nat, part: string, last: string)
    requires Marks(path, at, part)
    ensures Marks(path + "/" + last, at, part)
  {
    var more := path + "/" + last;
    assert more[..|path|] == path;
    assert more[at..at + |part|] == path[at..at + |part|];
  }

  lemma MarkLast(lead: string, last: string)
    requires lead == "" || lead[|lead| - 1] == '/'
    ensures Marks(lead + last, |lead|, last)
  {
  }

  /** The buffer holds the path of the stack, and the offsets those of its components. */
  ghost predicate Laid(out: string, starts: seq<nat>, written: nat, components: nat, absolute: bool, stack: seq<string>) {
    && Normal(absolute, stack)
    && written <= |out| && out[..written] == Render(absolute, stack)
    && components == |stack| <= |starts| && starts[..components] == Starts(absolute, stack)
  }

  /** Where the last component lies, as the code finds it. */
  lemma {:induction false} LastComponent(out: string, starts: seq<nat>, written: nat, absolute: bool, stack: seq<string>)
    requires Laid(out, starts, written, |stack|, absolute, stack) && stack != []
    ensures var at := starts[|stack| - 1];
      && at == |Lead(absolute, stack[..|stack| - 1])| && written == at + |stack[|stack| - 1]|
      && out[at..written] == stack[|stack| - 1]
  {
    var n := |stack| - 1;
    assert starts[n] == starts[..n + 1][n];
    var at := starts[n];
    assert out[at..written] == out[..written][at..];
  }

  /** The last component is "..", by its two bytes. */
  method TopIsUp(out: array<char>, starts: array<nat>, written: nat, components: nat, absolute: bool, ghost stack: seq<string>)
    returns (up: bool)
    requires Laid(out[..], starts[..], written, components, absolute, stack) && components > 0
    ensures up <==> stack[|stack| - 1] == ".."
  {
    LastComponent(out[..], starts[..], written, absolute, stack);
    var at := starts[components - 1];
    assert out[..][at..written] == stack[|stack| - 1];
    assert written - at == 2 ==> out[..][at..written] == [out[at], out[at + 1]];
    up := written - at == 2 && out[at] == '.' && out[at + 1] == '.';
  }

  lemma Popped(out: string, starts: seq<nat>, written: nat, absolute: bool, stack: seq<string>)
    requires Laid(out, starts, written, |stack|, absolute, stack) && stack != []
    ensures var at := starts[|stack| - 1]; var less := stack[..|stack| - 1];
      && at <= written && (at > 1 && out[at - 1] == '/' <==> less != [])
      && Laid(out, starts, if less != [] then at - 1 else at, |less|, absolute, less)
  {
    LastComponent(out, starts, written, absolute, stack);
    var n := |stack| - 1;
    var at, less := starts[n], stack[..n];
    assert out[..at] == out[..written][..at] == Lead(absolute, less);
    assert starts[..n] == starts[..n + 1][..n] == Starts(absolute, less);
    if less != [] {
      NormalIsWritten(absolute, less);
      assert out[..at - 1] == out[..at][..at - 1] == Render(absolute, less);
      assert out[at - 1] == out[..at][at - 1];
    }
  }

  /** A path with components is not empty and does not end with a slash. */
  lemma {:induction false} NormalIsWritten(absolute: bool, stack: seq<string>)
    requires Normal(absolute, stack) && stack != []
    ensures var path := Render(absolute, stack); path != "" && path[|path| - 1] != '/'
  {
    var last := stack[|stack| - 1];
    assert last[|last| - 1] in last;
  }

  /** ".." takes the last component back, and the slash before it unless that is the root. */
  method Pop(out: array<char>, starts: array<nat>, written: nat, components: nat, absolute: bool, ghost stack: seq<string>)
    returns (written': nat, components': nat)
    requires Laid(out[..], starts[..], written, components, absolute, stack) && components > 0
    ensures Laid(out[..], starts[..], written', components', absolute, stack[..|stack| - 1])
  {
    Popped(out[..], starts[..], written, absolute, stack);
    components' := components - 1;
    written' := starts[components'];
    if written' > 1 && out[written' - 1] == '/' {
      written' := written' - 1;
    }
  }

  lemma {:induction false} Pushed(was: string, out: string, old_starts: seq<nat>, starts: seq<nat>, written: nat, at: nat,
               absolute: bool, stack: seq<string>, part: string)
    requires Laid(was, old_starts, written, |stack|, absolute, stack) && Normal(absolute, stack + [part])
    requires at == |Lead(absolute, stack)| && |out| == |was| && at + |part| <= |out|
    requires out[..at] == Lead(absolute, stack) && out[at..at + |part|] == part
    requires |stack| < |starts| && starts[..|stack|] == old_starts[..|stack|] && starts[|stack|] == at
    ensures Laid(out, starts, at + |part|, |stack| + 1, absolute, stack + [part])
  {
    var more := stack + [part];
    assert more[..|stack|] == stack;
    assert out[..at + |part|] == out[..at] + out[at..at + |part|];
    assert starts[..|stack| + 1] == starts[..|stack|] + [at];
  }

  /** Writes the slash that a further component needs, if it fits. */
  method Separate(out: array<char>, written: nat, absolute: bool, ghost stack: seq<string>) returns (ok: bool, at: nat)
    requires Normal(absolute, stack) && written <= out.Length && out[..written] == Render(absolute, stack)
    modifies out
    ensures at <= out.Length && (ok ==> out[..at] == Lead(absolute, stack))
    ensures !ok ==> |Lead(absolute, stack)| >= out.Length
  {
    at := written;
    if stack != [] {
      NormalIsWritten(absolute, stack);
    }
    assert written > 0 ==> out[written - 1] == out[..written][written - 1];
    if written > 0 && out[written - 1] != '/' {
      if written + 1 >= out.Length {
        return false, at;
      }
      out[at] := '/';
      at := at + 1;
    }
    ok := true;
  }

  /** Appends a component; fails when the path would not leave room for a terminator. */
  method Push(out: array<char>, starts: array<nat>, written: nat, components: nat, absolute: bool, part: string,
              ghost stack: seq<string>)
    returns (ok: bool, written': nat)
    requires Laid(out[..], starts[..], written, components, absolute, stack) && components < starts.Length
    requires Normal(absolute, stack + [part])
    modifies out, starts
    ensures ok <==> Room(absolute, stack + [part], out.Length)
    ensures ok ==> Laid(out[..], starts[..], written', components + 1, absolute, stack + [part])
  {
    ghost var was, wasStarts := out[..], starts[..];
    assert (stack + [part])[..|stack|] == stack;
    assert Render(absolute, stack + [part]) == Lead(absolute, stack) + part;
    assert out[..written] == out[..][..written];
    assert (stack + [part])[|stack|] == part;
    var at;
    ok, at := Separate(out, written, absolute, stack);
    written' := written;
    if !ok || at + |part| >= out.Length || components >= starts.Length {
      return false, written;
    }
    starts[components] := at;
    forall i | 0 <= i < |part| {
      out[at + i] := part[i];
    }
    assert out[..][..at] == Lead(absolute, stack) && out[..][at..at + |part|] == part;
    assert starts[..][..|stack|] == wasStarts[..|stack|];
    Pushed(was, out[..], wasStarts, starts[..], written, at, absolute, stack, part);
    written' := at + |part|;
  }

  /** The body of the main loop for one component. */
  method TakeComponent(out: array<char>, starts: array<nat>, written: nat, components: nat, absolute: bool, part: string,
                       ghost stack: seq<string>)
    returns (ok: bool, written': nat, components': nat)
    requires Laid(out[..], starts[..], written, components, absolute, stack) && '/' !in part
    requires Room(absolute, stack, out.Length) && components < starts.Length
    modifies out, starts
    ensures ok <==> Room(absolute, Step(absolute, stack, part), out.Length)
    ensures ok ==> Laid(out[..], starts[..], written', components', absolute, Step(absolute, stack, part))
  {
    if part == "" || part == "." {
      return true, written, components;
    }
    StepStaysNormal(absolute, stack, part);
    if part == ".." && components > 0 {
      var up := TopIsUp(out, starts, written, components, absolute, stack);
      if !up {
        written', components' := Pop(out, starts, written, components, absolute, stack);
        PopKeepsRoom(absolute, stack, out.Length);
        return true, written', components';
      }
    }
    if part == ".." && absolute {
      return true, written, components;
    }
    ok, written' := Push(out, starts, written, components, absolute, part, stack);
    components' := components + 1;
  }

  lemma PopKeepsRoom(absolute: bool, stack: seq<string>, capacity: nat)
    requires Normal(absolute, stack) && stack != [] && Room(absolute, stack, capacity)
    ensures Room(absolute, stack[..|stack| - 1], capacity)
  {
    var less, last := stack[..|stack| - 1], stack[|stack| - 1];
    assert Render(absolute, stack) == Lead(absolute, less) + last;
    assert |Render(absolute, less)| <= |Lead(absolute, less)|;
  }

  // The components as the loop meets them: a run of slashes, then the bytes up to the next one.

  lemma {:induction false} SlashSkipped(absolute: bool, stack: seq<string>, input: string, read: nat, capacity: nat)
    requires read < |input| && input[read] == '/' && Room(absolute, stack, capacity)
    ensures Bounded(absolute, stack, Split(input[read..], '/'), capacity)
      == Bounded(absolute, stack, Split(input[read + 1..], '/'), capacity)
  {
    assert input[read..] == "" + ['/'] + input[read + 1..];
    SplitFirst("", input[read + 1..], '/');
    SkipPart(absolute, stack, "", Split(input[read + 1..], '/'), capacity);
  }

  lemma {:induction false} ComponentTaken(absolute: bool, stack: seq<string>, input: string, start: nat, read: nat, capacity: nat)
    requires start <= read <= |input| && '/' !in input[start..read] && (read == |input| || input[read] == '/')
    ensures var next := Step(absolute, stack, input[start..read]);
      Bounded(absolute, stack, Split(input[start..], '/'), capacity) ==
      if Room(absolute, next, capacity) then Bounded(absolute, next, Split(input[read..], '/'), capacity) else None
  {
    var part := input[start..read];
    var next := Step(absolute, stack, part);
    SplitFirst(part, "", '/');
    if read == |input| {
      assert input[start..] == part && input[read..] == "";
      SplitFirst("", "", '/');
      assert [part][1..] == [] && [""][1..] == [];
    } else {
      var rest := input[read + 1..];
      assert input[start..] == part + ['/'] + rest;
      SplitFirst(part, rest, '/');
      assert ([part] + Split(rest, '/'))[1..] == Split(rest, '/');
      if Room(absolute, next, capacity) {
        SlashSkipped(absolute, next, input, read, capacity);
      }
    }
  }

  /** The two inner loops: past the slashes, then to the end of the component. */
  method NextComponent(input: string, from: nat) returns (start: nat, read: nat)
    requires from < |input|
    ensures from <= start <= read <= |input| && '/' !in input[start..read] && (read == |input| || input[read] == '/')
    ensures forall k :: from <= k < start ==> input[k] == '/'
    ensures start < |input| ==> start < read
    ensures input[from] == '/' ==> from < start
  {
    read := from;
    while read < |input| && input[read] == '/'
      invariant from <= read <= |input|
      invariant forall k :: from <= k < read ==> input[k] == '/'
    {
      read := read + 1;
    }
    start := read;
    while read < |input| && input[read] != '/'
      invariant start <= read <= |input| && '/' !in input[start..read]
    {
      read := read + 1;
    }
  }

  lemma {:induction false} SlashesSkipped(absolute: bool, stack: seq<string>, input: string, from: nat, start: nat, capacity: nat)
    requires from <= start <= |input| && (forall k :: from <= k < start ==> input[k] == '/')
    requires Room(absolute, stack, capacity)
    ensures Bounded(absolute, stack, Split(input[from..], '/'), capacity)
      == Bounded(absolute, stack, Split(input[start..], '/'), capacity)
    decreases start - from
  {
    if from < start {
      SlashSkipped(absolute, stack, input, from, capacity);
      SlashesSkipped(absolute, stack, input, from + 1, start, capacity);
    }
  }

  /** The state of the main loop: the rest of the input, taken from here, gives the result. At
      most one component has been kept for every two bytes read, so the offsets never run out. */
  ghost predicate Taking(input: string, absolute: bool, stack: seq<string>, read: nat, capacity: nat, total: Option<seq<string>>) {
    && read <= |input| && (if read == 0 then stack == [] else read == |input| || input[read] == '/')
    && 2 * |stack| <= read + 1 && Room(absolute, stack, capacity)
    && total == Bounded(absolute, stack, Split(input[read..], '/'), capacity)
  }

  lemma {:induction false} TakingStarts(input: string, absolute: bool, capacity: nat)
    requires input != "" && absolute == (input[0] == '/')
    ensures var total := Bounded(absolute, [], Split(input, '/'), capacity);
      if absolute && capacity < 2 then total == None else Taking(input, absolute, [], 0, capacity, total)
  {
    assert input[0..] == input;
    if absolute {
      ComponentTaken(absolute, [], input, 0, 0, capacity);
    }
  }

  lemma TakingGoesOn(input: string, absolute: bool, stack: seq<string>, from: nat, start: nat, read: nat,
                     capacity: nat, total: Option<seq<string>>)
    requires Taking(input, absolute, stack, from, capacity, total) && from < |input| && (input[from] == '/' ==> from < start)
    requires start <= read <= |input| && '/' !in input[start..read] && (read == |input| || input[read] == '/')
    requires start < |input| ==> start < read
    requires forall k :: from <= k < start ==> input[k] == '/'
    ensures var next := Step(absolute, stack, input[start..read]);
      if Room(absolute, next, capacity) then Taking(input, absolute, next, read, capacity, total)
      else total == None
  {
    var next := Step(absolute, stack, input[start..read]);
    RestGoesOn(input, absolute, stack, from, start, read, capacity);
    StepAddsOne(absolute, stack, input[start..read]);
    if start == read {
      assert input[start..read] == "";
    }
    assert 2 * |next| <= read + 1;
  }

  lemma {:induction false} RestGoesOn(input: string, absolute: bool, stack: seq<string>, from: nat, start: nat, read: nat, capacity: nat)
    requires from <= start <= read <= |input| && (forall k :: from <= k < start ==> input[k] == '/')
    requires '/' !in input[start..read] && (read == |input| || input[read] == '/') && Room(absolute, stack, capacity)
    ensures var next := Step(absolute, stack, input[start..read]);
      Bounded(absolute, stack, Split(input[from..], '/'), capacity) ==
      if Room(absolute, next, capacity) then Bounded(absolute, next, Split(input[read..], '/'), capacity) else None
  {
    SlashesSkipped(absolute, stack, input, from, start, capacity);
    ComponentTaken(absolute, stack, input, start, read, capacity);
  }

  lemma StepAddsOne(absolute: bool, stack: seq<string>, part: string)
    ensures |Step(absolute, stack, part)| <= |stack| + 1
    ensures part == "" ==> Step(absolute, stack, part) == stack
  {
  }

  /** join_path */
  method Combine(out: array<char>, left: string, right: string) returns (ok: bool)
    modifies out
    ensures ok <==> Joined(left, right, out.Length).Some?
    ensures ok ==> var path := Joined(left, right, out.Length).value;
      |path| < out.Length && out[..|path|] == path && out[|path|] == NUL
  {
    var input := left + "/" + right;
    if |input| >= BUFFER_SIZE {
      return false;
    }
    var starts := new nat[STARTS];
    var read, written, components := 0, 0, 0;
    var absolute := input[0] == '/';
    ghost var total := Bounded(absolute, [], Split(input, '/'), out.Length);
    TakingStarts(input, absolute, out.Length);
    if absolute {
      if out.Length < 2 {
        return false;
      }
      out[0] := '/';
      written := 1;
    }
    ghost var stack: seq<string> := [];
    while read < |input|
      invariant Taking(input, absolute, stack, read, out.Length, total)
      invariant Laid(out[..], starts[..], written, components, absolute, stack)
    {
      ok, read, written, components, stack := Turn(out, starts, input, absolute, read, written, components, stack, total);
      if !ok {
        return;
      }
    }
    AllTaken(input, absolute, stack, read, out.Length, total);
    ok := Close(out, written, absolute, stack);
  }

  lemma AllTaken(input: string, absolute: bool, stack: seq<string>, read: nat, capacity: nat, total: Option<seq<string>>)
    requires Taking(input, absolute, stack, read, capacity, total) && read == |input|
    ensures total == Some(stack)
  {
    assert input[read..] == "";
    SplitFirst("", "", '/');
    assert [""][1..] == [];
  }

  /** One turn of the main loop. */
  method Turn(out: array<char>, starts: array<nat>, input: string, absolute: bool, from: nat, written: nat, components: nat,
              ghost stack: seq<string>, ghost total: Option<seq<string>>)
    returns (ok: bool, read: nat, written': nat, components': nat, ghost next: seq<string>)
    requires Taking(input, absolute, stack, from, out.Length, total) && from < |input| < BUFFER_SIZE
    requires Laid(out[..], starts[..], written, components, absolute, stack) && starts.Length == STARTS
    modifies out, starts
    ensures !ok ==> total == None
    ensures ok ==> read > from && Taking(input, absolute, next, read, out.Length, total)
    ensures ok ==> Laid(out[..], starts[..], written', components', absolute, next)
  {
    var start;
    start, read := NextComponent(input, from);
    var part := input[start..read];
    next := Step(absolute, stack, part);
    TakingGoesOn(input, absolute, stack, from, start, read, out.Length, total);
    ok, written', components' := TakeComponent(out, starts, written, components, absolute, part, stack);
  }

  /** The path of nothing is "."; then the terminator. */
  method Close(out: array<char>, written: nat, absolute: bool, ghost stack: seq<string>) returns (ok: bool)
    requires written <= out.Length && out[..written] == Render(absolute, stack) && Room(absolute, stack, out.Length)
    modifies out
    ensures ok <==> |Shown(absolute, stack)| < out.Length
    ensures ok ==> var path := Shown(absolute, stack); out[..|path|] == path && out[|path|] == NUL
  {
    var end := written;
    if end == 0 {
      if out.Length < 2 {
        return false;
      }
      out[0] := '.';
      end := 1;
    }
    assert out[..end] == Shown(absolute, stack);
    out[end] := NUL;
    ok := true;
  }
}
