/** Different spellings of one option read the same at any item boundary of any argv. */
module ArgvSpelling {
  import opened Text
  import opened ArgvItems
  import opened ArgvParse
  import opened ArgvRewrite

  /** The long options whose separate value may be attached with `=`. Lint flags are recorded as written instead. */
  const LONG_SPELLINGS: set<string> :=
    {"--crate-name", "--crate-type", "--emit", "--target", "--edition", "--extern", "--cfg", "--codegen",
     "--sysroot", "--jobs-frontend", "--remap-path-prefix", "--print", "--explain"}

  const SHORT_SPELLINGS: set<char> := {'C', 'L', 'l', 'Z'}

  predicate SameRecord(p: Record, q: Record) {
    Unplaced(p) == Unplaced(q)
  }

  /** Reading either item does the same to the record, positions aside. */
  ghost predicate SameEffect(x: Item, y: Item, onDisk: string -> bool) {
    forall p, at :: SameRecord(Apply(p, x, at, onDisk), Apply(p, y, at, onDisk))
  }

  lemma NameShapes(name: string)
    requires name in LONG_SPELLINGS || name in DIAGNOSTIC_VALUE_FLAGS
    ensures '=' !in name && |name| > 2 && name[0] == '-' && name[1] == '-'
  {
  }

  /** A long option and its attached spelling are the same arm with different forms. */
  lemma LongForms(name: string, value: string)
    requires name in LONG_SPELLINGS
    ensures var arm := Classify(name);
            && arm.TakesNext() && !arm.Lint? && !arm.Diagnostic?
            && Classify(name + "=" + value) == arm.(form := Here(value))
  {
    NameShapes(name);
    var arg := name + "=" + value;
    JoinedShapes(name, arg, value);
    LongNames(arg, name, value);
  }

  lemma JoinedShapes(name: string, attached: string, value: string)
    requires '=' !in name && |name| > 2 && name[0] == '-' && name[1] == '-' && attached == name + "=" + value
    ensures Classify(name) == ClassifyLong(name) && Classify(attached) == ClassifyLongWith(attached, name, value)
  {
    SplitOnceParts(name, '=');
    SplitOnceOf(name, '=', value);
    assert attached[0] == name[0] && attached[1] == name[1];
  }

  lemma LongNames(arg: string, name: string, value: string)
    requires name in LONG_SPELLINGS
    ensures var arm := ClassifyLong(name);
            && arm.TakesNext() && !arm.Lint? && !arm.Diagnostic?
            && ClassifyLongWith(arg, name, value) == arm.(form := Here(value))
  {
    if name == "--crate-name" || name == "--crate-type" || name == "--emit" || name == "--target" {
    } else if name == "--edition" || name == "--extern" || name == "--cfg" || name == "--codegen" {
    } else if name == "--sysroot" || name == "--jobs-frontend" || name == "--remap-path-prefix" {
    } else {
      assert name == "--print" || name == "--explain";
    }
  }

  lemma ShortForms(letter: char, value: string)
    requires letter in SHORT_SPELLINGS && value != ""
    ensures var arm := Classify(['-', letter]);
            arm.TakesNext() && Classify(['-', letter] + value) == arm.(form := Here(value))
  {
    var arg := ['-', letter] + value;
    assert arg[1] == letter && arg[2..] == value;
  }

  /** The effect of an option depends on its arm and its value, not on where the value stands. */
  lemma FormsHaveSameEffect(separate: string, attached: string, value: string, onDisk: string -> bool)
    requires Classify(separate).TakesNext() && !Classify(separate).Lint? && !Classify(separate).Diagnostic?
    requires Classify(attached) == Classify(separate).(form := Here(value))
    ensures SameEffect(Item(separate, Some(value)), Item(attached, None), onDisk)
    ensures Complete(Item(separate, Some(value)), TakesOperand) && Complete(Item(attached, None), TakesOperand)
  {
    var x, y := Item(separate, Some(value)), Item(attached, None);
    forall p: Record, at: nat
      ensures SameRecord(Apply(p, x, at, onDisk), Apply(p, y, at, onDisk))
    {
      ArmsHaveSameEffect(p.unit, p.codegen, Classify(separate), separate, attached, value, onDisk);
    }
  }

  lemma ArmsHaveSameEffect(u: Unit, c: CodegenOptions, arm: Arm, separate: string, attached: string, value: string,
                           onDisk: string -> bool)
    requires arm.TakesNext()
    ensures ApplyUnit(u, arm, separate, Some(value), onDisk)
            == ApplyUnit(u, arm.(form := Here(value)), attached, Some(value), onDisk)
    ensures ApplyCodegen(c, arm, Some(value)) == ApplyCodegen(c, arm.(form := Here(value)), Some(value))
  {
  }

  lemma {:induction false} LongSpelling(name: string, attached: string, value: string, onDisk: string -> bool)
    requires name in LONG_SPELLINGS && attached == name + "=" + value
    ensures SameEffect(Item(name, Some(value)), Item(attached, None), onDisk)
    ensures Complete(Item(name, Some(value)), TakesOperand) && Complete(Item(attached, None), TakesOperand)
  {
    LongForms(name, value);
    FormsHaveSameEffect(name, attached, value, onDisk);
  }

  lemma {:induction false} ShortSpelling(
      letter: char, separate: string, attached: string, value: string, onDisk: string -> bool)
    requires letter in SHORT_SPELLINGS && value != ""
    requires separate == ['-', letter] && attached == separate + value
    ensures SameEffect(Item(separate, Some(value)), Item(attached, None), onDisk)
    ensures Complete(Item(separate, Some(value)), TakesOperand) && Complete(Item(attached, None), TakesOperand)
  {
    ShortForms(letter, value);
    FormsHaveSameEffect(separate, attached, value, onDisk);
  }

  /** The long and short codegen flags are one arm. */
  lemma CodegenSpelling(x: string, y: string, value: string, onDisk: string -> bool)
    requires CodegenFlag(x) && CodegenFlag(y)
    ensures SameEffect(Item(x, Some(value)), Item(y, Some(value)), onDisk)
    ensures Complete(Item(x, Some(value)), TakesOperand) && Complete(Item(y, Some(value)), TakesOperand)
  {
    CodegenArms(x);
    CodegenArms(y);
  }

  /** A diagnostic option is recorded joined, whichever way it was written. */
  lemma {:induction false} DiagnosticSpelling(name: string, attached: string, value: string, onDisk: string -> bool)
    requires name in DIAGNOSTIC_VALUE_FLAGS && attached == name + "=" + value
    ensures SameEffect(Item(name, Some(value)), Item(attached, None), onDisk)
    ensures Complete(Item(name, Some(value)), TakesOperand) && Complete(Item(attached, None), TakesOperand)
  {
    DiagnosticArms(name, attached, value);
  }

  lemma DiagnosticArms(name: string, attached: string, value: string)
    requires name in DIAGNOSTIC_VALUE_FLAGS && attached == name + "=" + value
    ensures Classify(name) == Diagnostic(Next) && Classify(attached) == Diagnostic(Here(attached))
  {
    NameShapes(name);
    JoinedShapes(name, attached, value);
    DiagnosticNames(name, attached, value);
  }

  lemma DiagnosticNames(name: string, arg: string, value: string)
    requires name in DIAGNOSTIC_VALUE_FLAGS
    ensures ClassifyLong(name) == Diagnostic(Next) && ClassifyLongWith(arg, name, value) == Diagnostic(Here(arg))
  {
    if name == "--error-format" || name == "--json" {
    } else {
      assert name == "--color" || name == "--diagnostic-width";
    }
  }

  /** `-O` and `-g` are the codegen options `opt-level=3` and `debuginfo=2`. */
  lemma ShorthandSpelling(short: string, flag: string, option: string, onDisk: string -> bool)
    requires CodegenFlag(flag)
    requires (short == "-O" && option == "opt-level=3") || (short == "-g" && option == "debuginfo=2")
    ensures SameEffect(Item(short, None), Item(flag, Some(option)), onDisk)
    ensures Complete(Item(short, None), TakesOperand) && Complete(Item(flag, Some(option)), TakesOperand)
  {
    ShorthandArm(short);
    CodegenArms(flag);
    if short == "-O" {
      OptionValue(option, "opt-level", "3");
    } else {
      OptionValue(option, "debuginfo", "2");
    }
    ShorthandEffect(short, flag, option, onDisk);
  }

  lemma ShorthandArm(short: string)
    requires short == "-O" || short == "-g"
    ensures Classify(short) == if short == "-O" then Optimize else Debug
  {
  }

  lemma ShorthandEffect(short: string, flag: string, option: string, onDisk: string -> bool)
    requires Classify(flag) == Codegen(Next)
    requires || (Classify(short) == Optimize && ParseCodegenOpt(option) == ("opt-level", Some("3")))
             || (Classify(short) == Debug && ParseCodegenOpt(option) == ("debuginfo", Some("2")))
    ensures SameEffect(Item(short, None), Item(flag, Some(option)), onDisk)
  {
  }

  lemma OptionValue(option: string, key: string, value: string)
    requires option == key + "=" + value && '=' !in key
    ensures ParseCodegenOpt(option) == (key, Some(value))
  {
    SplitOnceOf(key, '=', value);
  }

  // ---- Swapping spellings inside an argv ----

  predicate Any(item: Item) {
    true
  }

  lemma SameRecordSimulates(onDisk: string -> bool)
    ensures Simulates(SameRecord, Applier(onDisk), Any, TakesOperand)
  {
    forall p: Record, q: Record, item: Item, at: nat, to: nat
      ensures StaysRelated(SameRecord, Applier(onDisk), Any, p, q, item, at, to)
    {
      assert Applier(onDisk)(p, item, at) == Apply(p, item, at, onDisk);
      assert Applier(onDisk)(q, item, to) == Apply(q, item, to, onDisk);
    }
  }

  /** At an item boundary, an item may be replaced by one of the same effect without changing what is parsed. */
  lemma SwapSameEffect(a: seq<string>, x: Item, y: Item, b: seq<string>, onDisk: string -> bool)
    requires Whole(a, TakesOperand) && Complete(x, TakesOperand) && Complete(y, TakesOperand)
    requires SameEffect(x, y, onDisk)
    ensures SameRecord(Parsed(a + Tokens(x) + b, onDisk), Parsed(a + Tokens(y) + b, onDisk))
  {
    SameRecordSimulates(onDisk);
    var p, n := Parsed(a, onDisk), |Flatten(Items(a, TakesOperand))|;
    assert SameRecord(Apply(p, x, n, onDisk), Apply(p, y, n, onDisk));
    SwapItem(SameRecord, EMPTY, a, x, y, b, Applier(onDisk), Any, TakesOperand);
  }

  /** `y` is another spelling of `x`. */
  ghost predicate Respelling(x: Item, y: Item) {
    || (x.operand.Some? && (x.flag in LONG_SPELLINGS || x.flag in DIAGNOSTIC_VALUE_FLAGS)
        && y == Item(x.flag + "=" + x.operand.value, None))
    || (x.operand.Some? && x.operand.value != "" && y == Item(x.flag + x.operand.value, None)
        && |x.flag| == 2 && x.flag[0] == '-' && x.flag[1] in SHORT_SPELLINGS)
    || (x.operand.Some? && CodegenFlag(x.flag) && CodegenFlag(y.flag) && y.operand == x.operand)
    || (x == Item("-O", None) && CodegenFlag(y.flag) && y.operand == Some("opt-level=3"))
    || (x == Item("-g", None) && CodegenFlag(y.flag) && y.operand == Some("debuginfo=2"))
  }

  lemma RespellingHasSameEffect(x: Item, y: Item, onDisk: string -> bool)
    requires Respelling(x, y)
    ensures SameEffect(x, y, onDisk) && Complete(x, TakesOperand) && Complete(y, TakesOperand)
  {
    match x.operand
    case Some(v) =>
      if x.flag in LONG_SPELLINGS && y.operand.None? && y.flag == x.flag + "=" + v {
        LongSpelling(x.flag, y.flag, v, onDisk);
      } else if x.flag in DIAGNOSTIC_VALUE_FLAGS {
        DiagnosticSpelling(x.flag, y.flag, v, onDisk);
      } else if CodegenFlag(x.flag) && y.operand.Some? {
        CodegenSpelling(x.flag, y.flag, v, onDisk);
      } else {
        assert x.flag == ['-', x.flag[1]];
        ShortSpelling(x.flag[1], x.flag, y.flag, v, onDisk);
      }
    case None =>
      ShorthandSpelling(x.flag, y.flag, y.operand.value, onDisk);
  }

  /** At any item boundary of any argv, respelling an option changes no parsed field but positions. */
  lemma {:induction false} SwapSpelling(a: seq<string>, x: Item, y: Item, b: seq<string>, onDisk: string -> bool)
    requires Whole(a, TakesOperand) && Respelling(x, y)
    ensures SameRecord(Parsed(a + Tokens(x) + b, onDisk), Parsed(a + Tokens(y) + b, onDisk))
  {
    RespellingHasSameEffect(x, y, onDisk);
    SwapSameEffect(a, x, y, b, onDisk);
  }
}
