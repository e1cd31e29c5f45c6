/** The Windows command-line bound that decides when arguments go through a response file. */
module CommandLine {
  import opened Text
  import opened Seqs

  /** The longest command line `CreateProcessW` takes, NUL included. */
  const WINDOWS_COMMAND_LINE_LIMIT: nat := 32767

  /** Words are sequences of UTF-16 code units; the escaped ones are the quote and the backslash. */
  predicate Escapable(unit: char) {
    unit == '"' || unit == '\\'
  }

  /** The bound counts every word as quoted and separated, and every quote and backslash in it as escaped. */
  function WordBound(word: string): (n: nat) {
    |word| + |Filter(word, Escapable)| + 3
  }

  function WordsBound(words: seq<string>): (n: nat) {
    if words == [] then 0 else WordBound(words[0]) + WordsBound(words[1..])
  }

  function WindowsCommandLineBound(words: seq<string>): (n: nat) {
    1 + WordsBound(words)
  }

  function NeedsResponseFile(cargoUsedOne: bool, lineBound: nat, limit: Option<nat>): (r: bool) {
    cargoUsedOne || (limit.Some? && lineBound > limit.value)
  }

  function CommandLineLimit(windows: bool): (limit: Option<nat>) {
    if windows then Some(WINDOWS_COMMAND_LINE_LIMIT) else None
  }

  // ---- The line the standard library builds ----

  function Backslashes(n: nat): (r: string)
    ensures |r| == n
  {
    seq(n, _ => '\\')
  }

  /**
   The escaped text of a word after `run` backslashes already written: a run doubles before a quote, which gets
   one more backslash, and before the closing quote.
   */
  function Escaped(word: string, run: nat, quoted: bool): (r: string) {
    if word == "" then (if quoted then Backslashes(run) else "")
    else if word[0] == '\\' then ['\\'] + Escaped(word[1..], run + 1, quoted)
    else if word[0] == '"' then Backslashes(run + 1) + ['"'] + Escaped(word[1..], 0, quoted)
    else [word[0]] + Escaped(word[1..], 0, quoted)
  }

  /** An argument is quoted when it is empty or holds a space or a tab. */
  function Argument(word: string): (r: string) {
    if word == "" || ' ' in word || '\t' in word then "\"" + Escaped(word, 0, true) + "\""
    else Escaped(word, 0, false)
  }

  function Arguments(words: seq<string>): (r: string) {
    if words == [] then "" else " " + Argument(words[0]) + Arguments(words[1..])
  }

  /** The program is always quoted; arguments follow, each after a space; a NUL ends the line. */
  function Line(program: string, args: seq<string>): (r: string) {
    "\"" + program + "\"" + Arguments(args) + "\0"
  }

  lemma {:induction false} EscapedLength(word: string, run: nat, quoted: bool)
    ensures |Escaped(word, run, quoted)| <= run + |word| + |Filter(word, Escapable)|
    decreases |word|
  {
    if word != "" {
      FilterStep(word, Escapable);
      EscapedLength(word[1..], if word[0] == '\\' then run + 1 else 0, quoted);
    }
  }

  lemma {:induction false} ArgumentsLength(words: seq<string>)
    ensures |Arguments(words)| <= WordsBound(words)
  {
    if words != [] {
      EscapedLength(words[0], 0, true);
      EscapedLength(words[0], 0, false);
      ArgumentsLength(words[1..]);
    }
  }

  /** The bound is never below the length of the line that is built. */
  lemma BoundCoversLine(program: string, args: seq<string>)
    ensures |Line(program, args)| <= WindowsCommandLineBound([program] + args)
  {
    ArgumentsLength(args);
    assert ([program] + args)[1..] == args;
  }

  /** A command that is not sent through a response file fits the limit. */
  lemma DirectCommandFits(cargoUsedOne: bool, program: string, args: seq<string>, limit: Option<nat>)
    requires !NeedsResponseFile(cargoUsedOne, WindowsCommandLineBound([program] + args), limit)
    ensures limit.Some? ==> |Line(program, args)| <= limit.value
  {
    BoundCoversLine(program, args);
  }

  /** On Windows that limit is what `CreateProcessW` takes; elsewhere there is none. */
  lemma WindowsCommandFits(cargoUsedOne: bool, program: string, args: seq<string>, windows: bool)
    requires !NeedsResponseFile(cargoUsedOne, WindowsCommandLineBound([program] + args), CommandLineLimit(windows))
    ensures windows ==> |Line(program, args)| <= 32767
  {
    DirectCommandFits(cargoUsedOne, program, args, CommandLineLimit(windows));
  }

  /** Rustc is given a response file exactly when Cargo used one, or on Windows when the bound is over the limit. */
  lemma ResponseFileWhen(cargoUsedOne: bool, words: seq<string>, windows: bool)
    ensures NeedsResponseFile(cargoUsedOne, WindowsCommandLineBound(words), CommandLineLimit(windows))
       <==> cargoUsedOne || (windows && WindowsCommandLineBound(words) > 32767)
  {
  }

  predicate IsPlain(text: string) {
    '"' !in text && '\\' !in text
  }

  predicate IsSpecial(text: string) {
    forall i :: 0 <= i < |text| ==> text[i] == '"' || text[i] == '\\'
  }

  lemma {:induction false} SpecialsEscaped(specials: string, run: nat)
    requires IsSpecial(specials)
    ensures |Escaped(specials, run, true)| == run + 2 * |specials|
    ensures |Filter(specials, Escapable)| == |specials|
    decreases |specials|
  {
    if specials != "" {
      FilterStep(specials, Escapable);
      SpecialsEscaped(specials[1..], if specials[0] == '\\' then run + 1 else 0);
    }
  }

  lemma {:induction false} PlainEscaped(plain: string, rest: string)
    requires IsPlain(plain)
    ensures |Escaped(plain + rest, 0, true)| == |plain| + |Escaped(rest, 0, true)|
    ensures |Filter(plain, Escapable)| == 0
    ensures |Filter(plain + rest, Escapable)| == |Filter(rest, Escapable)|
  {
    if plain == "" {
      AppendEmpty(rest);
    } else {
      AppendTail(plain, rest);
      FilterStep(plain, Escapable);
      FilterStep(plain + rest, Escapable);
      PlainEscaped(plain[1..], rest);
    }
  }

  lemma ReachedWord(plain: string, specials: string)
    requires IsPlain(plain) && IsSpecial(specials)
    ensures var word := " " + plain + specials;
      |Argument(word)| + 1 == WordBound(word) == 1 + |plain| + 2 * |specials| + 3
  {
    var word := " " + plain + specials;
    assert word[0] == ' ' && IsPlain(" " + plain);
    PlainEscaped(" " + plain, specials);
    SpecialsEscaped(specials, 0);
  }

  /** The bound is one unit over the line when the argument is a blank, plain text and then quotes and backslashes. */
  lemma BoundIsReached(program: string, plain: string, specials: string)
    requires IsPlain(program) && IsPlain(plain) && IsSpecial(specials)
    ensures var word := " " + plain + specials;
      |Line(program, [word])| + 1 == WindowsCommandLineBound([program] + [word])
  {
    var word := " " + plain + specials;
    ReachedWord(plain, specials);
    PlainBound(program);
    OneArgument(word);
    ConsTail(program, [word]);
  }

  lemma PlainBound(program: string)
    requires IsPlain(program)
    ensures WordBound(program) == |program| + 3
  {
    PlainEscaped(program, "");
  }

  lemma OneArgument(word: string)
    ensures WordsBound([word]) == WordBound(word) && |Arguments([word])| == 1 + |Argument(word)|
  {
    Single([word]);
  }
}
