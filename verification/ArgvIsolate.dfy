/** Moving incremental state to a sibling path without changing any other argument. */
module ArgvIsolate {
  import opened Text
  import opened ArgvItems
  import opened ArgvRewrite
  import opened UnixPath

  const SUFFIX := ".kache-preserved"

  /** The sibling path that keeps an incremental directory apart, when the path has a final component. */
  function IsolatedPath(path: string): (r: Option<string>) {
    match FileName(path)
    case None => None
    case Some(name) => Some(WithFileName(path, name + SUFFIX))
  }

  /** The mapping keeps the directory and extends the name, so distinct siblings stay distinct. */
  lemma {:induction false} IsolatedPathIsSibling(path: string)
    requires FileName(path).Some?
    ensures var isolated := IsolatedPath(path).value;
            && Parent(isolated) == Parent(path)
            && FileName(isolated) == Some(FileName(path).value + ".kache-preserved")
  {
    WithFileNameParts(path, FileName(path).value + SUFFIX);
  }

  lemma IsolationIsInjective(a: string, b: string)
    requires IsolatedPath(a).Some? && IsolatedPath(a) == IsolatedPath(b)
    ensures FileName(a) == FileName(b) && Parent(a) == Parent(b)
  {
    IsolatedPathIsSibling(a);
    IsolatedPathIsSibling(b);
    var x, y := FileName(a).value, FileName(b).value;
    assert x == (x + SUFFIX)[..|x|] && y == (y + SUFFIX)[..|y|];
  }

  /** A joined option with its path replaced, or nothing when the path has no final component. */
  function Rejoined(head: string, path: string): (r: Option<string>) {
    match IsolatedPath(path)
    case None => None
    case Some(isolated) => Some(head + isolated)
  }

  /** The rewritten form of what the isolator recognises at the front of `args`. */
  function IsolatedFront(args: seq<string>): (r: Option<seq<string>>) {
    if args == [] then None
    else if StartsWith(args[0], "-Cincremental=") then
      (match Rejoined("-Cincremental=", args[0][14..]) case None => None case Some(t) => Some([t]))
    else if CodegenFlag(args[0]) && |args| > 1 && IncrementalValue(args[1]) then
      (match Rejoined("incremental=", args[1][12..]) case None => None case Some(t) => Some([args[0], t]))
    else if StartsWith(args[0], "--codegen=incremental=") then
      (match Rejoined("--codegen=incremental=", args[0][22..]) case None => None case Some(t) => Some([t]))
    else Some([args[0]])
  }

  /** How many tokens the isolator reads at the front of `args`. */
  function Width(args: seq<string>): (n: nat) {
    if Dropped(args) == 0 then 1 else Dropped(args)
  }

  function Prepend(front: Option<seq<string>>, rest: Option<seq<string>>): (r: Option<seq<string>>) {
    if front.Some? && rest.Some? then Some(front.value + rest.value) else None
  }

  /** Replace the front of `args`, `width(args)` tokens at a time, failing if any replacement fails. */
  function Replace(args: seq<string>, width: seq<string> -> nat, front: seq<string> -> Option<seq<string>>)
    : (r: Option<seq<string>>)
  {
    if args == [] then Some([])
    else if 0 < width(args) <= |args| then Prepend(front(args), Replace(args[width(args)..], width, front))
    else None
  }

  lemma ReplaceStep(done: seq<string>, args: seq<string>, i: nat, width: seq<string> -> nat,
                    front: seq<string> -> Option<seq<string>>)
    requires i < |args| && 0 < width(args[i..]) <= |args| - i
    ensures front(args[i..]).None? ==> Replace(args[i..], width, front) == None
    ensures front(args[i..]).Some? ==>
              Prepend(Some(done), Replace(args[i..], width, front))
              == Prepend(Some(done + front(args[i..]).value), Replace(args[i + width(args[i..])..], width, front))
  {
    var n := width(args[i..]);
    assert args[i..][n..] == args[i + n..];
    var rest := Replace(args[i + n..], width, front);
    if front(args[i..]).Some? && rest.Some? {
      assert done + (front(args[i..]).value + rest.value) == done + front(args[i..]).value + rest.value;
    }
  }

  function Isolate(args: seq<string>): (r: Option<seq<string>>) {
    Replace(args, Width, IsolatedFront)
  }

  /** The isolator's loop over a peekable argument iterator. */
  method IsolateIncrementalFlags(args: seq<string>) returns (r: Option<seq<string>>)
    ensures r == Isolate(args)
  {
    var rewritten, i := [], 0;
    assert args[0..] == args;
    PrependNothing(Isolate(args));
    while i < |args|
      invariant i <= |args|
      invariant Prepend(Some(rewritten), Replace(args[i..], Width, IsolatedFront)) == Isolate(args)
    {
      TokenKinds(args[i]);
      ReplaceStep(rewritten, args, i, Width, IsolatedFront);
      var argument := args[i];
      if StartsWith(argument, "-Cincremental=") {
        var path := IsolatedPath(argument[14..]);
        if path.None? {
          return None;
        }
        rewritten := rewritten + ["-Cincremental=" + path.value];
        i := i + 1;
        continue;
      }
      if CodegenFlag(argument) && i + 1 < |args| && IncrementalValue(args[i + 1]) {
        var path := IsolatedPath(args[i + 1][12..]);
        if path.None? {
          return None;
        }
        rewritten := rewritten + [argument, "incremental=" + path.value];
        i := i + 2;
        continue;
      }
      if StartsWith(argument, "--codegen=incremental=") {
        var path := IsolatedPath(argument[22..]);
        if path.None? {
          return None;
        }
        rewritten := rewritten + ["--codegen=incremental=" + path.value];
        i := i + 1;
        continue;
      }
      rewritten := rewritten + [argument];
      i := i + 1;
    }
    assert args[i..] == [] && rewritten + [] == rewritten;
    return Some(rewritten);
  }

  lemma PrependNothing(rest: Option<seq<string>>)
    ensures Prepend(Some([]), rest) == rest
  {
    if rest.Some? {
      assert [] + rest.value == rest.value;
    }
  }

  /** What the isolator puts at the front is read by the stripper like what was there. */
  lemma FrontKinds(args: seq<string>)
    requires args != [] && IsolatedFront(args).Some?
    ensures var front := IsolatedFront(args).value;
            && |front| == Width(args)
            && (IncrementalValue(front[0]) <==> IncrementalValue(args[0]))
            && (Dropped(args) == 0 ==> front == [args[0]])
            && (Dropped(args) == 1 ==> JoinedIncremental(front[0]))
            && (Dropped(args) == 2 ==> front[0] == args[0] && IncrementalValue(front[1]))
  {
    TokenKinds(args[0]);
    TokenKinds(IsolatedFront(args).value[0]);
  }

  /** Isolation keeps argv's length, and the stripper cannot tell the isolated argv from the original. */
  lemma {:induction false} StripOfIsolated(args: seq<string>)
    requires Isolate(args).Some?
    ensures var isolated := Isolate(args).value;
            && |isolated| == |args|
            && (args != [] ==> (IncrementalValue(isolated[0]) <==> IncrementalValue(args[0])))
            && Strip(isolated) == Strip(args)
            && Dropped(isolated) == Dropped(args)
  {
    if args != [] {
      var n := Width(args);
      var front, rest := IsolatedFront(args).value, Isolate(args[n..]).value;
      var isolated := front + rest;
      FrontKinds(args);
      StripOfIsolated(args[n..]);
      TokenKinds(args[0]);
      SweepStep(args, 0, Dropped);
      SweepStep(isolated, 0, Dropped);
      assert args[0..] == args && isolated[0..] == isolated;
      assert isolated[n..] == rest;
      assert Dropped(isolated) == Dropped(args);
    }
  }

  /** The incremental paths the isolator recognises, in order. */
  function RecognisedPaths(args: seq<string>): (paths: seq<string>) {
    if args == [] then []
    else if StartsWith(args[0], "-Cincremental=") then [args[0][14..]] + RecognisedPaths(args[1..])
    else if StartsWith(args[0], "--codegen=incremental=") then [args[0][22..]] + RecognisedPaths(args[1..])
    else if CodegenFlag(args[0]) && |args| > 1 && IncrementalValue(args[1]) then
      [args[1][12..]] + RecognisedPaths(args[2..])
    else RecognisedPaths(args[1..])
  }

  /** Isolation fails exactly when some recognised path has no final component. */
  lemma {:induction false} IsolationFails(args: seq<string>)
    ensures Isolate(args) == None <==> exists path :: path in RecognisedPaths(args) && FileName(path) == None
  {
    if args != [] {
      IsolationFails(args[Width(args)..]);
      TokenKinds(args[0]);
      var paths, rest := RecognisedPaths(args), RecognisedPaths(args[Width(args)..]);
      assert Dropped(args) == 0 ==> paths == rest;
      assert Dropped(args) != 0 ==> paths == [paths[0]] + rest;
      assert IsolatedFront(args) == None <==> Dropped(args) != 0 && FileName(paths[0]) == None;
    }
  }
}
