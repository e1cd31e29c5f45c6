/** Rustc response files: expanding `@path` tokens, and writing a list back so that it expands to itself. */
module ResponseFile {
  import opened Text
  import opened Seqs
  import opened ArgvItems

  // ---- The file format ----

  /** `str::lines`: a line feed ends each line and takes one carriage return before it along. */
  function Lines(contents: string): (r: seq<string>)
    decreases |contents|
  {
    if contents == "" then []
    else
      SplitOnceParts(contents, '\n');
      match SplitOnce(contents, '\n')
      case None => [contents]
      case Some((line, rest)) => [WithoutReturn(line)] + Lines(rest)
  }

  function WithoutReturn(line: string): (r: string) {
    if line != "" && line[|line| - 1] == '\r' then line[..|line| - 1] else line
  }

  /**
   A line feed ends a line, with the one carriage return before it if there is one; a last line without a line feed is
   kept whole.
   */
  lemma LinesAre(line: string, rest: string)
    requires '\n' !in line
    ensures Lines(line) == if line == "" then [] else [line]
    ensures !EndsWith(line, "\r") ==> Lines(line + "\n" + rest) == [line] + Lines(rest)
    ensures Lines(line + "\r\n" + rest) == [line] + Lines(rest)
  {
    SplitOnceParts(line, '\n');
    LineThen(line, rest);
    LineThen(line + "\r", rest);
    ReturnDropped(line);
    assert line + "\r" + "\n" == line + "\r\n";
  }

  lemma LineThen(line: string, rest: string)
    requires '\n' !in line
    ensures Lines(line + "\n" + rest) == [WithoutReturn(line)] + Lines(rest)
  {
    SplitOnceOf(line, '\n', rest);
  }

  lemma ReturnDropped(line: string)
    ensures WithoutReturn(line + "\r") == line
    ensures !EndsWith(line, "\r") ==> WithoutReturn(line) == line
  {
    SnocInit(line, '\r');
    if line != "" && line[|line| - 1] == '\r' {
      assert line[|line| - 1..] == "\r";
    }
  }

  function Written(args: seq<string>): (r: string) {
    if args == [] then "" else args[0] + "\n" + Written(args[1..])
  }

  predicate OneLine(arg: string) {
    '\n' !in arg && '\r' !in arg
  }

  /** The writer: one argument per line, refusing any argument with a line break. */
  method WriteResponseFile(args: seq<string>) returns (contents: Option<string>)
    ensures contents == if forall arg :: arg in args ==> OneLine(arg) then Some(Written(args)) else None
  {
    var text := "";
    for i := 0 to |args|
      invariant forall arg :: arg in args[..i] ==> OneLine(arg)
      invariant text + Written(args[i..]) == Written(args)
    {
      if '\n' in args[i] || '\r' in args[i] {
        assert args[i] in args;
        return None;
      }
      assert args[i..][1..] == args[i + 1..];
      assert args[..i + 1] == args[..i] + [args[i]];
      text := text + args[i] + "\n";
    }
    assert args[..|args|] == args && args[|args|..] == [] && text + "" == text;
    return Some(text);
  }

  /** What the writer writes reads back as the same list, empty, padded and `@`-leading arguments included. */
  lemma {:induction false} LinesOfWritten(args: seq<string>)
    requires forall arg :: arg in args ==> OneLine(arg)
    ensures Lines(Written(args)) == args
  {
    if args != [] {
      assert OneLine(args[0]);
      SplitOnceOf(args[0], '\n', Written(args[1..]));
      LinesOfWritten(args[1..]);
    }
  }

  // ---- Expansion ----

  /** The expander's fields as a value. */
  datatype Expansion = Expansion(shellArgfiles: bool, nextIsUnstableOption: bool, expanded: seq<string>)

  const START := Expansion(false, false, [])

  predicate ShellArgfilesOption(option: string) {
    option == "shell-argfiles" || StartsWith(option, "shell-argfiles=")
  }

  function Pushed(e: Expansion, arg: string): (r: Expansion) {
    if e.nextIsUnstableOption then
      Expansion(e.shellArgfiles || ShellArgfilesOption(arg), false, e.expanded + [arg])
    else if StartsWith(arg, "-Z") then
      Expansion(e.shellArgfiles || ShellArgfilesOption(arg[2..]), arg[2..] == "", e.expanded + [arg])
    else
      e.(expanded := e.expanded + [arg])
  }

  function PushedAll(e: Expansion, args: seq<string>): (r: Expansion)
    decreases |args|
  {
    if args == [] then e else PushedAll(Pushed(e, args[0]), args[1..])
  }

  /** One command-line token: itself, or the lines of the file it names. `read` is resolution and reading together. */
  function Expand1(e: Expansion, arg: string, read: string -> Option<string>): (r: Option<Expansion>) {
    if !StartsWith(arg, "@") then Some(Pushed(e, arg))
    else if e.shellArgfiles && StartsWith(arg[1..], "shell:") then None
    else
      match read(arg[1..])
      case None => None
      case Some(contents) => Some(PushedAll(e, Lines(contents)))
  }

  function ExpandFrom(e: Expansion, args: seq<string>, read: string -> Option<string>): (r: Option<Expansion>)
    decreases |args|
  {
    if args == [] then Some(e)
    else
      match Expand1(e, args[0], read)
      case None => None
      case Some(next) => ExpandFrom(next, args[1..], read)
  }

  class RustcArgfileExpander {
    var shellArgfiles: bool
    var nextIsUnstableOption: bool
    var expanded: seq<string>

    constructor ()
      ensures State() == START
    {
      shellArgfiles, nextIsUnstableOption, expanded := false, false, [];
    }

    function State(): (e: Expansion)
      reads this
    {
      Expansion(shellArgfiles, nextIsUnstableOption, expanded)
    }

    method Push(arg: string)
      modifies this
      ensures State() == Pushed(old(State()), arg)
    {
      if nextIsUnstableOption {
        if ShellArgfilesOption(arg) {
          shellArgfiles := true;
        }
        nextIsUnstableOption := false;
      } else if StartsWith(arg, "-Z") {
        var option := arg[2..];
        if option == "" {
          nextIsUnstableOption := true;
        } else if ShellArgfilesOption(option) {
          shellArgfiles := true;
        }
      }
      expanded := expanded + [arg];
    }

    method ExpandArg(arg: string, read: string -> Option<string>) returns (ok: bool)
      modifies this
      ensures ok <==> Expand1(old(State()), arg, read).Some?
      ensures ok ==> State() == Expand1(old(State()), arg, read).value
    {
      if !StartsWith(arg, "@") {
        Push(arg);
        return true;
      }
      var path := arg[1..];
      if shellArgfiles && StartsWith(path, "shell:") {
        return false;
      }
      var contents := read(path);
      if contents.None? {
        return false;
      }
      var lines := Lines(contents.value);
      ghost var before := State();
      assert lines[0..] == lines;
      for i := 0 to |lines|
        invariant PushedAll(State(), lines[i..]) == PushedAll(before, lines)
      {
        assert lines[i..][1..] == lines[i + 1..];
        Push(lines[i]);
      }
      assert lines[|lines|..] == [];
      return true;
    }
  }

  /** What the invocation makes of its response files. */
  datatype Outcome = Plain | Expanded(args: seq<string>) | Unsupported

  predicate HasResponseFile(args: seq<string>) {
    exists i :: 0 <= i < |args| && StartsWith(args[i], "@")
  }

  function Expand(args: seq<string>, read: string -> Option<string>): (r: Outcome) {
    if !HasResponseFile(args) then Plain
    else
      match ExpandFrom(START, args, read)
      case None => Unsupported
      case Some(e) => if forall arg :: arg in e.expanded ==> OneLine(arg) then Expanded(e.expanded) else Unsupported
  }

  method ExpandRustcArgfiles(args: seq<string>, read: string -> Option<string>) returns (r: Outcome)
    ensures r == Expand(args, read)
  {
    if !HasResponseFile(args) {
      return Plain;
    }
    var expander := new RustcArgfileExpander();
    assert args[0..] == args;
    for i := 0 to |args|
      invariant ExpandFrom(expander.State(), args[i..], read) == ExpandFrom(START, args, read)
    {
      assert args[i..][1..] == args[i + 1..];
      var ok := expander.ExpandArg(args[i], read);
      if !ok {
        return Unsupported;
      }
    }
    assert args[|args|..] == [];
    if exists arg :: arg in expander.expanded && ('\n' in arg || '\r' in arg) {
      return Unsupported;
    }
    return Expanded(expander.expanded);
  }

  /** The argv the parser and the child see. */
  function EffectiveArgs(args: seq<string>, read: string -> Option<string>): (r: seq<string>) {
    match Expand(args, read)
    case Expanded(expanded) => expanded
    case _ => args
  }

  // ---- What expansion means ----

  /** What one token stands for: itself, or the lines of its file, which are not expanded again. */
  function StandsFor(arg: string, read: string -> Option<string>): (r: seq<string>) {
    if !StartsWith(arg, "@") then [arg]
    else match read(arg[1..]) case Some(contents) => Lines(contents) case None => []
  }

  /** Every token replaced by what it stands for. */
  function Spread(args: seq<string>, read: string -> Option<string>): (r: seq<string>) {
    if args == [] then [] else Spread(args[..|args| - 1], read) + StandsFor(args[|args| - 1], read)
  }

  predicate UnstableFlag(token: string) {
    token == "-Z"
  }

  /** An unstable option that turns on shell-style response files, in either spelling. */
  predicate EnablesShell(item: Item) {
    if item.flag == "-Z"
    then item.operand.Some? && (item.operand.value == "shell-argfiles" || "shell-argfiles=" <= item.operand.value)
    else item.flag == "-Zshell-argfiles" || "-Zshell-argfiles=" <= item.flag
  }

  lemma AttachedOption(token: string, flag: string, option: string)
    ensures token == flag + option <==> flag <= token && token[|flag|..] == option
    ensures flag + option <= token <==> flag <= token && option <= token[|flag|..]
  {
    if flag <= token {
      assert token == flag + token[|flag|..];
    }
    if flag + option <= token {
      assert token[..|flag|] == (flag + option)[..|flag|] == flag;
      assert token[|flag|..][..|option|] == token[|flag|..|flag + option|] == option;
    }
    if flag <= token && option <= token[|flag|..] {
      assert token[..|flag + option|] == flag + token[|flag|..][..|option|];
    }
  }

  lemma AttachedShell(token: string)
    ensures StartsWith(token, "-Z") && ShellArgfilesOption(token[2..])
       <==> token == "-Zshell-argfiles" || "-Zshell-argfiles=" <= token
  {
    assert "-Z" + "shell-argfiles" == "-Zshell-argfiles" && "-Z" + "shell-argfiles=" == "-Zshell-argfiles=";
    AttachedOption(token, "-Z", "shell-argfiles");
    AttachedOption(token, "-Z", "shell-argfiles=");
  }

  /** Shell-style response files are on after these tokens, wherever each token came from. */
  ghost predicate ShellOn(tokens: seq<string>) {
    exists item :: item in Items(tokens, UnstableFlag) && EnablesShell(item)
  }

  lemma {:induction false} PushedAllExpanded(e: Expansion, args: seq<string>)
    ensures PushedAll(e, args).expanded == e.expanded + args
    decreases |args|
  {
    if args != [] {
      PushedAllExpanded(Pushed(e, args[0]), args[1..]);
    }
  }

  lemma {:induction false} PushedAllAppend(e: Expansion, a: seq<string>, b: seq<string>)
    ensures PushedAll(e, a + b) == PushedAll(PushedAll(e, a), b)
    decreases |a|
  {
    if a == [] {
      assert a + b == b;
    } else {
      assert (a + b)[1..] == a[1..] + b;
      PushedAllAppend(Pushed(e, a[0]), a[1..], b);
    }
  }

  /** Tracking the flag token by token agrees with grouping all the tokens. */
  lemma {:induction false} ShellTracking(e: Expansion, tokens: seq<string>)
    requires !e.nextIsUnstableOption
    ensures PushedAll(e, tokens).shellArgfiles <==> e.shellArgfiles || ShellOn(tokens)
    decreases |tokens|
  {
    if tokens != [] {
      var item := ItemAt(tokens, 0, UnstableFlag);
      var rest := tokens[|Tokens(item)|..];
      var items := Items(tokens, UnstableFlag);
      assert items == [item] + Items(rest, UnstableFlag);
      var first := Pushed(e, tokens[0]);
      AttachedShell(tokens[0]);
      assert ShellOn(tokens) <==> EnablesShell(item) || ShellOn(rest) by {
        assert item in items;
        assert forall x :: x in items <==> x == item || x in Items(rest, UnstableFlag);
      }
      if item.operand.Some? {
        assert tokens[0][2..] == "";
        assert tokens[1..][1..] == rest;
        ShellTracking(Pushed(first, tokens[1]), rest);
      } else if tokens[0] == "-Z" {
        assert tokens[0][2..] == "" && rest == [];
      } else {
        assert !(StartsWith(tokens[0], "-Z") && |tokens[0]| == 2);
        ShellTracking(first, rest);
      }
    }
  }

  lemma Expand1StandsFor(e: Expansion, arg: string, read: string -> Option<string>)
    requires Expand1(e, arg, read).Some?
    ensures Expand1(e, arg, read).value == PushedAll(e, StandsFor(arg, read))
  {
    if !StartsWith(arg, "@") {
      assert [arg][1..] == [];
    }
  }

  /** The token at `k` stops the expansion: it is shell-style after that was enabled, or cannot be read. */
  ghost predicate StopsAt(args: seq<string>, k: nat, read: string -> Option<string>)
    requires k < |args|
  {
    && StartsWith(args[k], "@")
    && ((ShellOn(Spread(args[..k], read)) && StartsWith(args[k][1..], "shell:")) || read(args[k][1..]).None?)
  }

  lemma {:induction false} ExpandFromExactly(args: seq<string>, i: nat, read: string -> Option<string>)
    requires i <= |args|
    ensures var e := PushedAll(START, Spread(args[..i], read));
            var r := ExpandFrom(e, args[i..], read);
            && (r.None? <==> exists k: nat :: i <= k < |args| && StopsAt(args, k, read))
            && (r.Some? ==> r.value == PushedAll(START, Spread(args, read)))
    decreases |args| - i
  {
    var done := Spread(args[..i], read);
    var e := PushedAll(START, done);
    if i == |args| {
      assert args[..i] == args && args[i..] == [];
    } else {
      ShellTracking(START, done);
      assert args[i..][1..] == args[i + 1..];
      assert Expand1(e, args[i], read).None? <==> StopsAt(args, i, read);
      if Expand1(e, args[i], read).Some? {
        Expand1StandsFor(e, args[i], read);
        PushedAllAppend(START, done, StandsFor(args[i], read));
        assert args[..i + 1][..i] == args[..i];
        ExpandFromExactly(args, i + 1, read);
        assert forall k: nat :: i <= k < |args| && StopsAt(args, k, read) ==> i + 1 <= k;
      }
    }
  }

  /**
   Expansion is atomic. It fails exactly when some token stops it or some resulting argument spans lines, and then
   the effective argv is the original; otherwise the effective argv is every token replaced by what it stands for.
   */
  lemma {:induction false} ExpansionIsAtomic(args: seq<string>, read: string -> Option<string>)
    ensures Expand(args, read) == Unsupported <==>
            && HasResponseFile(args)
            && ((exists k: nat :: k < |args| && StopsAt(args, k, read))
                || (exists arg :: arg in Spread(args, read) && !OneLine(arg)))
    ensures Expand(args, read) == Unsupported ==> EffectiveArgs(args, read) == args
    ensures Expand(args, read) != Unsupported ==> EffectiveArgs(args, read) == Spread(args, read)
  {
    assert args[..0] == [] && args[0..] == args;
    ExpandFromExactly(args, 0, read);
    PushedAllExpanded(START, Spread(args, read));
    assert [] + Spread(args, read) == Spread(args, read);
    if !HasResponseFile(args) {
      SpreadPlain(args, read);
    }
  }

  lemma {:induction false} SpreadPlain(args: seq<string>, read: string -> Option<string>)
    requires forall i :: 0 <= i < |args| ==> !StartsWith(args[i], "@")
    ensures Spread(args, read) == args
  {
    if args != [] {
      SpreadPlain(args[..|args| - 1], read);
    }
  }

  /** A list the writer accepts comes back through its single `@path` token. */
  lemma ResponseFileRoundTrip(args: seq<string>, path: string, read: string -> Option<string>)
    requires forall arg :: arg in args ==> OneLine(arg)
    requires read(path) == Some(Written(args))
    ensures Expand(["@" + path], read) == Expanded(args)
    ensures EffectiveArgs(["@" + path], read) == args
  {
    var token := "@" + path;
    assert token[1..] == path;
    LinesOfWritten(args);
    var e := PushedAll(START, args);
    PushedAllExpanded(START, args);
    assert [] + args == args;
    assert [token][1..] == [];
    assert Expand1(START, token, read) == Some(e);
    assert ExpandFrom(START, [token], read) == Some(e);
    assert StartsWith([token][0], "@");
  }

  /** Once shell-style response files are on, even by halves on two sides of a file boundary, `@shell:` is refused. */
  lemma ShellTokenIsRefused(a: seq<string>, path: string, b: seq<string>, read: string -> Option<string>)
    requires ShellOn(Spread(a, read))
    ensures EffectiveArgs(a + ["@shell:" + path] + b, read) == a + ["@shell:" + path] + b
    ensures Expand(a + ["@shell:" + path] + b, read) == Unsupported
  {
    var token := "@shell:" + path;
    var args := a + [token] + b;
    assert args[|a|] == token && args[..|a|] == a;
    assert token[0] == '@' && token[1..] == "shell:" + path;
    assert StartsWith(args[|a|], "@");
    assert StopsAt(args, |a|, read);
    ExpansionIsAtomic(args, read);
  }
}
