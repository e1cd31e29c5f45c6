/** How each option is written: the arms of the parser told apart by the text of a flag alone. */
module ArgvFlags {
  import opened Text
  import opened Seqs
  import opened ArgvItems
  import opened ArgvParse
  import opened ArgvRewrite
  import opened ArgvSpelling

  // ---- Spellings ----

  /** An option written in full only; a long one that may be joined by `=`; a short one that may be joined directly. */
  datatype Spelling = Exact(name: string) | Joined(name: string) | Attached(name: string)

  /** Where a flag of that spelling has its value, or `None` if it is another flag. */
  function Reads(flag: string, spelling: Spelling): (r: Option<Form>) {
    if flag == spelling.name then Some(Next)
    else if spelling.Joined? && StartsWith(flag, spelling.name + "=") then Some(Here(flag[|spelling.name| + 1..]))
    else if spelling.Attached? && StartsWith(flag, spelling.name) then Some(Here(flag[|spelling.name|..]))
    else None
  }

  // ---- The parser's arms, by spelling ----

  /** The canonical spelling of an arm that has exactly one. */
  function SpellingOf(arm: Arm): (r: Option<Spelling>) {
    match arm
    case CrateName(_) => Some(Joined("--crate-name"))
    case CrateType(_) => Some(Joined("--crate-type"))
    case OutputFile(_) => Some(Exact("-o"))
    case OutDir(_) => Some(Exact("--out-dir"))
    case Emit(_) => Some(Joined("--emit"))
    case Target(_) => Some(Joined("--target"))
    case Edition(_) => Some(Joined("--edition"))
    case Extern(_) => Some(Joined("--extern"))
    case Cfg(_) => Some(Joined("--cfg"))
    case Test => Some(Exact("--test"))
    case Optimize => Some(Exact("-O"))
    case Debug => Some(Exact("-g"))
    case Sysroot(_) => Some(Joined("--sysroot"))
    case LinkSearch(_) => Some(Attached("-L"))
    case LinkLib(_) => Some(Attached("-l"))
    case JobsFrontend(_) => Some(Joined("--jobs-frontend"))
    case Unstable(_) => Some(Attached("-Z"))
    case Remap(_) => Some(Joined("--remap-path-prefix"))
    case _ => None
  }

  /** A flag is read by the spelling of its arm. */
  lemma LongForward(flag: string)
    ensures var arm := ClassifyLong(flag);
      SpellingOf(arm).Some? ==> flag == SpellingOf(arm).value.name && (arm.HasForm() ==> arm.form == Next)
  {
    var arm := ClassifyLong(flag);
    if arm.CrateName? || arm.CrateType? || arm.OutDir? || arm.Emit? || arm.Target? || arm.Edition? {
    } else if arm.Extern? || arm.Cfg? || arm.Test? || arm.Sysroot? || arm.JobsFrontend? || arm.Remap? {
    } else {
      LongHasNoShort(flag);
    }
  }

  lemma LongHasNoShort(flag: string)
    ensures var arm := ClassifyLong(flag);
      !arm.OutputFile? && !arm.Optimize? && !arm.Debug? && !arm.LinkSearch? && !arm.LinkLib? && !arm.Unstable?
  {
  }

  lemma LongWithForward(flag: string, name: string, value: string)
    ensures var arm := ClassifyLongWith(flag, name, value);
      SpellingOf(arm).Some? ==> SpellingOf(arm) == Some(Joined(name)) && arm.HasForm() && arm.form == Here(value)
  {
    var arm := ClassifyLongWith(flag, name, value);
    if arm.CrateName? || arm.CrateType? || arm.Emit? || arm.Target? || arm.Edition? {
    } else if arm.Extern? || arm.Cfg? || arm.Sysroot? || arm.JobsFrontend? || arm.Remap? {
    } else {
      assert SpellingOf(arm).None?;
    }
  }

  lemma ShortForward(flag: string, letter: char, rest: string)
    requires flag == ['-', letter] + rest
    ensures var arm := ClassifyShort(flag, letter, rest);
      SpellingOf(arm).Some? ==>
        && SpellingOf(arm).value.name == ['-', letter]
        && (rest != "" ==> SpellingOf(arm).value.Attached?)
        && (arm.HasForm() ==> arm.form == if rest == "" then Next else Here(rest))
  {
  }

  lemma Forward(flag: string)
    ensures var arm := Classify(flag);
      SpellingOf(arm).Some? ==>
        && Reads(flag, SpellingOf(arm).value).Some?
        && (arm.HasForm() ==> Reads(flag, SpellingOf(arm).value).value == arm.form)
  {
    match ShapeOf(flag)
    case Long => LongForward(flag);
    case LongWith(name, value) =>
      SplitOnceParts(flag, '=');
      LongWithForward(flag, name, value);
      assert flag == name + "=" + value;
      assert flag[|name| + 1..] == value;
    case Short(letter, rest) =>
      assert flag == ['-', letter] + rest;
      ShortForward(flag, letter, rest);
      assert rest == "" ==> flag == ['-', letter];
    case Plain =>
  }

  /** The long names that may be joined. */
  lemma JoinedNames1(name: string)
    ensures name == "--crate-name" || name == "--crate-type" || name == "--emit" || name == "--target" ==>
      SpellingOf(ClassifyLong(name)) == Some(Joined(name))
  {
  }

  lemma JoinedNames2(name: string)
    ensures name == "--edition" || name == "--extern" || name == "--cfg" || name == "--sysroot" ==>
      SpellingOf(ClassifyLong(name)) == Some(Joined(name))
  {
  }

  lemma JoinedNames3(name: string)
    ensures name == "--jobs-frontend" || name == "--remap-path-prefix" ==>
      SpellingOf(ClassifyLong(name)) == Some(Joined(name))
    ensures name == "--out-dir" || name == "--test" ==> SpellingOf(ClassifyLong(name)) == Some(Exact(name))
  {
  }

  const JOINED_NAMES: set<string> :=
    {"--crate-name", "--crate-type", "--emit", "--target", "--edition", "--extern", "--cfg", "--sysroot",
     "--jobs-frontend", "--remap-path-prefix"}

  lemma JoinedName(name: string)
    requires name in JOINED_NAMES
    ensures SpellingOf(ClassifyLong(name)) == Some(Joined(name)) && name in LONG_SPELLINGS
  {
    JoinedNames1(name);
    JoinedNames2(name);
    JoinedNames3(name);
  }

  predicate IsSpelling(spelling: Spelling) {
    match spelling
    case Joined(name) => name in JOINED_NAMES
    case Exact(name) => name in {"--out-dir", "--test", "-o", "-O", "-g"}
    case Attached(name) => name in {"-L", "-l", "-Z"}
  }

  lemma JoinedBackward(flag: string, name: string)
    requires name in JOINED_NAMES && Reads(flag, Joined(name)).Some?
    ensures SpellingOf(Classify(flag)) == Some(Joined(name))
  {
    JoinedName(name);
    NameShapes(name);
    if flag == name {
      JoinedShapes(name, name + "=" + "", "");
    } else {
      var value := flag[|name| + 1..];
      assert flag == name + "=" + value;
      JoinedShapes(name, flag, value);
      ArgvSpelling.LongNames(flag, name, value);
    }
  }

  lemma ExactBackward(flag: string)
    requires flag in {"--out-dir", "--test", "-o", "-O", "-g"}
    ensures SpellingOf(Classify(flag)) == Some(Exact(flag))
  {
    if flag == "-o" || flag == "-O" || flag == "-g" {
      ExactShort(flag);
    } else {
      ExactLong(flag);
    }
  }

  lemma ExactLong(flag: string)
    requires flag == "--out-dir" || flag == "--test"
    ensures SpellingOf(Classify(flag)) == Some(Exact(flag))
  {
    SplitOnceParts(flag, '=');
    JoinedNames3(flag);
  }

  lemma ExactShort(flag: string)
    requires flag == "-o" || flag == "-O" || flag == "-g"
    ensures SpellingOf(Classify(flag)) == Some(Exact(flag))
  {
    assert ShapeOf(flag) == Shape.Short(flag[1], "");
  }

  lemma AttachedBackward(flag: string, name: string)
    requires name in {"-L", "-l", "-Z"} && Reads(flag, Attached(name)).Some?
    ensures SpellingOf(Classify(flag)) == Some(Attached(name))
  {
    assert flag[0] == '-' && flag[1] == name[1];
    assert name == ['-', name[1]];
  }

  /** Each spelling belongs to one arm and each arm to one spelling. */
  lemma ArmIsSpelling(flag: string, spelling: Spelling)
    requires IsSpelling(spelling)
    ensures SpellingOf(Classify(flag)) == Some(spelling) <==> Reads(flag, spelling).Some?
    ensures Reads(flag, spelling).Some? && Classify(flag).HasForm() ==>
      Reads(flag, spelling).value == Classify(flag).form
  {
    Forward(flag);
    if Reads(flag, spelling).Some? {
      match spelling
      case Joined(name) => JoinedBackward(flag, name);
      case Exact(_) => ExactBackward(flag);
      case Attached(name) => AttachedBackward(flag, name);
    }
  }

  // ---- The arms with several spellings ----

  const LONG_LINTS: set<string> :=
    {"--warn", "--allow", "--deny", "--forbid", "--force-warn", "--cap-lints", "--check-cfg"}

  const DIAGNOSTICS: set<string> := {"--error-format", "--json", "--color", "--diagnostic-width"}

  predicate ReadsAny(flag: string, names: set<string>) {
    exists name :: name in names && Reads(flag, Joined(name)).Some?
  }

  predicate IsQuery(flag: string) {
    flag in {"-V", "-h", "-vV", "--version", "--help"} || ReadsAny(flag, {"--print", "--explain"})
  }

  predicate IsLint(flag: string) {
    || ReadsAny(flag, LONG_LINTS)
    || StartsWith(flag, "-W") || StartsWith(flag, "-A") || StartsWith(flag, "-D") || StartsWith(flag, "-F")
  }

  predicate IsDiagnostic(flag: string) {
    ReadsAny(flag, DIAGNOSTICS)
  }

  predicate IsQuiet(flag: string) {
    flag == "-v" || flag == "--verbose"
  }

  predicate IsCodegen(flag: string) {
    StartsWith(flag, "-C") || Reads(flag, Joined("--codegen")).Some?
  }

  /** Names without `=`: joining one to a value is the parser's long shape, and only then. */
  lemma ReadsByShape(flag: string, names: set<string>)
    requires LongNames(names)
    ensures ReadsAny(flag, names) <==> ShapeIn(ShapeOf(flag), flag, names)
  {
    forall name | name in names
      ensures Reads(flag, Joined(name)).Some? <==> ShapeReads(flag, name)
    {
      NameReads(flag, name);
    }
    if ReadsAny(flag, names) {
      var name :| name in names && Reads(flag, Joined(name)).Some?;
      assert ShapeReads(flag, name);
    }
    match ShapeOf(flag)
    case LongWith(name, _) =>
      if name in names {
        assert ShapeReads(flag, name);
      }
    case Long =>
      if flag in names {
        assert Reads(flag, Joined(flag)).Some?;
      }
    case Plain =>
    case Short(_, _) =>
  }

  predicate ShapeReads(flag: string, name: string) {
    match ShapeOf(flag)
    case Long => flag == name
    case LongWith(n, _) => n == name
    case _ => false
  }

  lemma NameReads(flag: string, name: string)
    requires |name| > 2 && StartsWith(name, "--") && '=' !in name
    ensures Reads(flag, Joined(name)).Some? <==> ShapeReads(flag, name)
  {
    LongWithIsPrefix(flag, name);
    SplitOnceParts(flag, '=');
    if flag == name {
      assert flag[0] == '-' && flag[1] == '-';
    }
  }

  predicate LongNames(names: set<string>) {
    forall name :: name in names ==> |name| > 2 && StartsWith(name, "--") && '=' !in name
  }

  lemma LintNames()
    ensures LongNames(LONG_LINTS)
  {
  }

  lemma DiagnosticNames()
    ensures LongNames(DIAGNOSTICS)
  {
  }

  lemma QueryNames()
    ensures LongNames({"--print", "--explain"}) && LongNames({"--codegen"})
  {
  }

  lemma LongQueries(flag: string)
    ensures ClassifyLong(flag).Query? <==> flag == "--version" || flag == "--help"
    ensures ClassifyLong(flag).QueryValue? <==> flag == "--print" || flag == "--explain"
    ensures ClassifyLong(flag).Quiet? <==> flag == "--verbose"
    ensures ClassifyLong(flag).Codegen? <==> flag == "--codegen"
  {
  }

  lemma LongWithQueries(flag: string, name: string, value: string)
    ensures !ClassifyLongWith(flag, name, value).Query? && !ClassifyLongWith(flag, name, value).Quiet?
    ensures ClassifyLongWith(flag, name, value).QueryValue? <==> name == "--print" || name == "--explain"
    ensures ClassifyLongWith(flag, name, value).Codegen? <==> name == "--codegen"
  {
  }

  lemma LongLints(flag: string)
    requires StartsWith(flag, "--")
    ensures ClassifyLong(flag).Lint? <==> flag in LONG_LINTS
  {
    assert flag[1] == '-';
  }

  lemma LongDiagnostics(flag: string)
    ensures ClassifyLong(flag).Diagnostic? <==> flag in DIAGNOSTICS
  {
  }

  lemma LongWithLints(flag: string, name: string, value: string)
    requires StartsWith(name, "--")
    ensures ClassifyLongWith(flag, name, value).Lint? <==> name in LONG_LINTS
  {
    assert name[1] == '-';
  }

  lemma LongWithDiagnostics(flag: string, name: string, value: string)
    ensures ClassifyLongWith(flag, name, value).Diagnostic? <==> name in DIAGNOSTICS
  {
  }

  lemma ShortKinds(flag: string, letter: char, rest: string)
    requires flag == ['-', letter] + rest
    ensures var arm := ClassifyShort(flag, letter, rest);
      && (arm.Query? <==> flag == "-V" || flag == "-h" || flag == "-vV")
      && (arm.Quiet? <==> flag == "-v")
      && (arm.Lint? <==> letter in {'W', 'A', 'D', 'F'})
      && (arm.Codegen? <==> letter == 'C')
      && !arm.QueryValue? && !arm.Diagnostic?
  {
    assert flag[1] == letter && flag[2..] == rest;
    assert rest == "" ==> flag == ['-', letter];
    assert rest == "V" ==> flag == ['-', letter, 'V'];
  }

  lemma ShortPrefixes(flag: string)
    requires |flag| >= 2 && flag[0] == '-'
    ensures StartsWith(flag, "-C") <==> flag[1] == 'C'
    ensures StartsWith(flag, "-W") || StartsWith(flag, "-A") || StartsWith(flag, "-D") || StartsWith(flag, "-F")
       <==> flag[1] in {'W', 'A', 'D', 'F'}
  {
  }

  lemma NoShortPrefix(flag: string)
    requires |flag| < 2 || flag[0] != '-'
    ensures !StartsWith(flag, "-C") && !StartsWith(flag, "-W") && !StartsWith(flag, "-A")
    ensures !StartsWith(flag, "-D") && !StartsWith(flag, "-F")
    ensures flag !in {"-V", "-h", "-vV", "--version", "--help"} && !IsQuiet(flag)
  {
  }

  lemma LongIsNoShort(flag: string)
    requires StartsWith(flag, "--")
    ensures flag !in {"-V", "-h", "-vV", "-v"}
  {
    assert flag[1] == '-';
  }

  lemma LongWithIsNoName(flag: string)
    requires '=' in flag
    ensures flag !in {"-V", "-h", "-vV", "--version", "--help"} && !IsQuiet(flag)
  {
  }

  /** The sets of names, read by shape. */
  lemma NamedReads(flag: string)
    ensures var shape := ShapeOf(flag);
      && (ReadsAny(flag, {"--print", "--explain"}) <==> ShapeIn(shape, flag, {"--print", "--explain"}))
      && (ReadsAny(flag, LONG_LINTS) <==> ShapeIn(shape, flag, LONG_LINTS))
      && (ReadsAny(flag, DIAGNOSTICS) <==> ShapeIn(shape, flag, DIAGNOSTICS))
      && (Reads(flag, Joined("--codegen")).Some? <==> ShapeReads(flag, "--codegen"))
  {
    LintNames();
    DiagnosticNames();
    QueryNames();
    assert "--codegen" in {"--codegen"};
    ReadsByShape(flag, {"--print", "--explain"});
    ReadsByShape(flag, LONG_LINTS);
    ReadsByShape(flag, DIAGNOSTICS);
    NameReads(flag, "--codegen");
  }

  predicate ShapeIn(shape: Shape, flag: string, names: set<string>) {
    match shape
    case Long => flag in names
    case LongWith(name, _) => name in names
    case _ => false
  }

  /** The kinds of flag with more than one spelling, told by their text. */
  predicate KindsOf(flag: string, arm: Arm) {
    && (arm.Query? || arm.QueryValue? <==> IsQuery(flag))
    && (arm.Lint? <==> IsLint(flag))
    && (arm.Diagnostic? <==> IsDiagnostic(flag))
    && (arm.Quiet? <==> IsQuiet(flag))
    && (arm.Codegen? <==> IsCodegen(flag))
  }

  lemma ShortFlagKinds(flag: string, letter: char, rest: string)
    requires ShapeOf(flag) == Shape.Short(letter, rest)
    ensures KindsOf(flag, ClassifyShort(flag, letter, rest))
  {
    NamedReads(flag);
    ShortPrefixes(flag);
    assert flag == ['-', letter] + rest;
    ShortKinds(flag, letter, rest);
    ShortIsNoLong(flag);
  }

  lemma ShortIsNoLong(flag: string)
    requires |flag| >= 2 && flag[1] != '-'
    ensures flag !in {"--version", "--help", "--verbose"}
  {
  }

  lemma LongFlagKinds(flag: string)
    requires ShapeOf(flag) == Shape.Long
    ensures KindsOf(flag, ClassifyLong(flag))
  {
    NamedReads(flag);
    ShortPrefixes(flag);
    LongIsNoShort(flag);
    LongQueries(flag);
    LongLints(flag);
    LongDiagnostics(flag);
  }

  lemma JoinedFlagKinds(flag: string, name: string, value: string)
    requires ShapeOf(flag) == Shape.LongWith(name, value)
    ensures KindsOf(flag, ClassifyLongWith(flag, name, value))
  {
    NamedReads(flag);
    ShortPrefixes(flag);
    SplitOnceParts(flag, '=');
    LongWithIsNoName(flag);
    LongWithQueries(flag, name, value);
    LongWithName(flag, name, value);
    LongWithDiagnostics(flag, name, value);
  }

  lemma Kinds(flag: string)
    ensures KindsOf(flag, Classify(flag))
  {
    match ShapeOf(flag)
    case Plain =>
      NamedReads(flag);
      NoShortPrefix(flag);
    case Short(letter, rest) => ShortFlagKinds(flag, letter, rest);
    case Long => LongFlagKinds(flag);
    case LongWith(name, value) => JoinedFlagKinds(flag, name, value);
  }

  lemma LongWithName(flag: string, name: string, value: string)
    requires flag == name + "=" + value && StartsWith(flag, "--") && '=' !in name
    ensures StartsWith(name, "--")
    ensures ClassifyLongWith(flag, name, value).Lint? <==> name in LONG_LINTS
  {
    assert flag[0] == '-' && flag[1] == '-';
    assert flag[|name|] == '=';
    assert name[0] == flag[0] && name[1] == flag[1];
    LongWithLints(flag, name, value);
  }

  // ---- Unrecognised flags, and flags that take an operand ----

  ghost predicate Recognised(flag: string) {
    || (exists spelling :: IsSpelling(spelling) && Reads(flag, spelling).Some?)
    || IsCodegen(flag) || IsQuery(flag) || IsLint(flag) || IsDiagnostic(flag) || IsQuiet(flag)
  }

  lemma SpellingExists(flag: string)
    ensures SpellingOf(Classify(flag)).Some? <==> exists spelling :: IsSpelling(spelling) && Reads(flag, spelling).Some?
  {
    if SpellingOf(Classify(flag)).Some? {
      Forward(flag);
      SpellingIs(Classify(flag));
    }
    if spelling :| IsSpelling(spelling) && Reads(flag, spelling).Some? {
      ArmIsSpelling(flag, spelling);
    }
  }

  lemma SpellingIs(arm: Arm)
    ensures SpellingOf(arm).Some? ==> IsSpelling(SpellingOf(arm).value)
  {
  }

  lemma ArmsAreSorted(arm: Arm)
    ensures arm.Other? <==>
      SpellingOf(arm).None? && !arm.Codegen? && !arm.Query? && !arm.QueryValue? && !arm.Lint? && !arm.Diagnostic?
      && !arm.Quiet?
  {
  }

  /** A flag no option is spelled like goes to the parser's last arm, and no other does. */
  lemma OtherIsUnrecognised(flag: string)
    ensures Classify(flag).Other? <==> !Recognised(flag)
  {
    Kinds(flag);
    SpellingExists(flag);
    ArmsAreSorted(Classify(flag));
  }

  lemma LongForms(flag: string)
    ensures ClassifyLong(flag).HasForm() ==> ClassifyLong(flag).form == Next
  {
  }

  lemma SpelledNames(arm: Arm)
    ensures SpellingOf(arm).Some? && arm.HasForm() ==>
      var spelling := SpellingOf(arm).value;
      if spelling.Joined? then spelling.name in JOINED_NAMES else spelling.name in {"-o", "--out-dir", "-L", "-l", "-Z"}
    ensures arm.HasForm() ==>
      SpellingOf(arm).Some? || arm.Codegen? || arm.QueryValue? || arm.Lint? || arm.Diagnostic?
    ensures arm.Codegen? || arm.QueryValue? || arm.Lint? || arm.Diagnostic? ==> arm.HasForm() && SpellingOf(arm).None?
    ensures SpellingOf(arm).Some? && !SpellingOf(arm).value.Exact? ==> arm.HasForm()
  {
  }

  /** The operand-taking flags among the long ones. */
  predicate LongOperand(flag: string) {
    || flag in JOINED_NAMES || flag in LONG_LINTS || flag in DIAGNOSTICS
    || flag == "--codegen" || flag == "--out-dir" || flag == "--print" || flag == "--explain"
  }

  lemma LongTakes(flag: string)
    requires StartsWith(flag, "--")
    ensures ClassifyLong(flag).TakesNext() <==> LongOperand(flag)
  {
    var arm := ClassifyLong(flag);
    LongForms(flag);
    LongForward(flag);
    LongQueries(flag);
    LongLints(flag);
    LongDiagnostics(flag);
    SpelledNames(arm);
    LongIsNoLetter(flag);
    if flag in JOINED_NAMES {
      JoinedName(flag);
    }
    OutDirTakes(flag);
  }

  lemma OutDirTakes(flag: string)
    ensures flag == "--out-dir" ==> ClassifyLong(flag) == OutDir(Next)
  {
  }

  lemma LongIsNoLetter(flag: string)
    requires StartsWith(flag, "--")
    ensures flag !in {"-o", "-L", "-l", "-Z"}
  {
    assert flag[1] == '-';
  }

  lemma ShortTakes(flag: string, letter: char, rest: string)
    requires flag == ['-', letter] + rest && letter != '-'
    ensures ClassifyShort(flag, letter, rest).TakesNext()
       <==> rest == "" && letter in {'o', 'C', 'L', 'l', 'Z', 'W', 'A', 'D', 'F'}
  {
  }

  predicate ShortOperand(flag: string) {
    |flag| == 2 && flag[0] == '-' && flag[1] in {'o', 'C', 'L', 'l', 'Z', 'W', 'A', 'D', 'F'}
  }

  lemma JoinedNeverTakes(flag: string, name: string, value: string)
    ensures !ClassifyLongWith(flag, name, value).TakesNext()
  {
  }

  lemma OperandNamesAreWhole(flag: string)
    ensures LongOperand(flag) ==> '=' !in flag && |flag| > 2 && flag[0] == '-' && flag[1] == '-'
  {
    if flag in JOINED_NAMES {
      JoinedName(flag);
      NameShapes(flag);
    } else if flag in LONG_LINTS {
      LintNames();
    } else if flag in DIAGNOSTICS {
      DiagnosticNames();
    } else {
      LooseNames(flag);
    }
  }

  lemma LooseNames(flag: string)
    ensures flag == "--codegen" || flag == "--out-dir" || flag == "--print" || flag == "--explain" ==>
      '=' !in flag && |flag| > 2 && flag[0] == '-' && flag[1] == '-'
  {
  }

  /** A token reads the next one exactly when it is one of these flags, written in full. */
  lemma {:induction false} OperandFlags(flag: string)
    ensures TakesOperand(flag) <==> LongOperand(flag) || ShortOperand(flag)
  {
    OperandNamesAreWhole(flag);
    match ShapeOf(flag)
    case Plain =>
    case Short(letter, rest) =>
      assert flag == ['-', letter] + rest;
      ShortTakes(flag, letter, rest);
    case Long =>
      LongTakes(flag);
    case LongWith(name, value) =>
      SplitOnceParts(flag, '=');
      JoinedNeverTakes(flag, name, value);
  }

  // ---- The value of a codegen option ----

  /** What follows `-C` or `--codegen=` in the flag, or else the operand. */
  function CodegenText(item: Item): (r: Option<string>)
    requires IsCodegen(item.flag)
  {
    if item.flag == "-C" || item.flag == "--codegen" then item.operand
    else if StartsWith(item.flag, "-C") then Some(item.flag[2..])
    else Some(item.flag[10..])
  }

  lemma CodegenReads(item: Item)
    requires Classify(item.flag).Codegen?
    ensures IsCodegen(item.flag) && ValueOf(Classify(item.flag).form, item.operand) == CodegenText(item)
  {
    var flag := item.flag;
    Kinds(flag);
    match ShapeOf(flag)
    case Plain =>
    case Short(letter, rest) =>
      ShortCodegen(flag, letter, rest);
      assert flag == ['-', letter] + rest;
    case Long =>
      LongCodegen(flag);
    case LongWith(name, value) =>
      SplitOnceParts(flag, '=');
      LongWithCodegen(flag, name, value);
      LongWithText(flag, name, value);
  }

  lemma LongWithText(flag: string, name: string, value: string)
    requires name == "--codegen" && flag == name + "=" + value
    ensures flag != "-C" && flag != "--codegen" && !StartsWith(flag, "-C") && flag[10..] == value
  {
    assert flag[1] == '-' && flag[9] == '=';
  }
}
