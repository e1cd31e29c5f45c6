/** Rewrites of the argument vector, and what the parser reads after each. */
module ArgvRewrite {
  import opened Text
  import opened ArgvItems
  import opened ArgvParse

  // ---- Stripping `-C incremental=...` ----

  predicate JoinedIncremental(token: string) {
    StartsWith(token, "-Cincremental=") || StartsWith(token, "--codegen=incremental=")
  }

  predicate CodegenFlag(token: string) {
    token == "-C" || token == "--codegen"
  }

  predicate IncrementalValue(token: string) {
    StartsWith(token, "incremental=")
  }

  /** How many tokens at the front of `args` the stripper drops. */
  function Dropped(args: seq<string>): (n: nat)
    ensures n <= |args|
  {
    if args == [] then 0
    else if JoinedIncremental(args[0]) then 1
    else if CodegenFlag(args[0]) && |args| > 1 && IncrementalValue(args[1]) then 2
    else 0
  }

  function Strip(args: seq<string>): (r: seq<string>) {
    Sweep(args, Dropped)
  }

  /** The loop of the stripper. */
  method StripIncrementalFlags(args: seq<string>) returns (filtered: seq<string>)
    ensures filtered == Strip(args)
  {
    filtered := [];
    var i := 0;
    assert args[0..] == args;
    while i < |args|
      invariant i <= |args|
      invariant filtered + Strip(args[i..]) == Strip(args)
    {
      SweepStep(args, i, Dropped);
      if JoinedIncremental(args[i]) {
        i := i + 1;
        continue;
      }
      if CodegenFlag(args[i]) && i + 1 < |args| && IncrementalValue(args[i + 1]) {
        i := i + 2;
        continue;
      }
      filtered := filtered + [args[i]];
      i := i + 1;
    }
    assert args[i..] == [];
  }

  /** An item that carries an incremental path is dropped; every other item stays. */
  predicate Stays(item: Item) {
    && !JoinedIncremental(item.flag)
    && !(CodegenFlag(item.flag) && item.operand.Some? && IncrementalValue(item.operand.value))
  }

  lemma TokenKinds(token: string)
    ensures IncrementalValue(token) ==> !JoinedIncremental(token) && !CodegenFlag(token)
    ensures CodegenFlag(token) ==> !JoinedIncremental(token)
  {
    assert IncrementalValue(token) ==> token[0] == 'i';
    assert JoinedIncremental(token) ==> token[0] == '-';
  }

  /** How the parser reads the stripper's tokens. */
  lemma CodegenArms(token: string)
    ensures CodegenFlag(token) ==> Classify(token) == Codegen(Next)
    ensures StartsWith(token, "-Cincremental=") ==> Classify(token) == Codegen(Here(token[2..]))
    ensures StartsWith(token, "--codegen=incremental=") ==> Classify(token) == Codegen(Here(token[10..]))
  {
    if token == "--codegen" {
      SplitOnceParts(token, '=');
    } else if StartsWith(token, "-Cincremental=") {
      assert token[0] == '-' && token[1] == 'C' && token[2] == 'i';
    } else if StartsWith(token, "--codegen=incremental=") {
      LongCodegenArm(token);
    }
  }

  lemma LongCodegenArm(token: string)
    requires StartsWith(token, "--codegen=incremental=")
    ensures Classify(token) == Codegen(Here(token[10..]))
    ensures !StartsWith(token, "-Cincremental=")
  {
    assert token[1] == '-';
    assert StartsWith(token, "--codegen" + "=") by {
      assert "--codegen=incremental="[..10] == "--codegen" + "=";
      assert token[..10] == "--codegen=incremental="[..10];
    }
    LongWithIsPrefix(token, "--codegen");
  }

  /** The parser's codegen items are the stripper's: same flags, same attached spellings. */
  lemma StripsParsedItems()
    ensures DropsItems(Dropped, Stays, TakesOperand)
  {
    forall args: seq<string> | args != []
      ensures Dropped(args) ==
              if Stays(ItemAt(args, 0, TakesOperand)) then 0 else |Tokens(ItemAt(args, 0, TakesOperand))|
    {
      CodegenArms(args[0]);
      TokenKinds(args[0]);
    }
    forall args: seq<string> | |args| > 1 && Dropped(args) == 2
      ensures Dropped(args[1..]) == 0
    {
      TokenKinds(args[0]);
      TokenKinds(args[1]);
    }
  }

  /** A recorded codegen option other than an incremental path. */
  predicate KeptOption(option: (string, Option<string>)) {
    !(option.0 == "incremental" && option.1.Some?)
  }

  /** The record apart from positions in argv. */
  function Unplaced(p: Record): (r: Record) {
    p.(diagnostics := p.diagnostics.(argIndices := []))
  }

  /** Codegen options without incremental state: no path, no `incremental=<value>` option, the rest the same. */
  function ClearedOptions(c: CodegenOptions): (r: CodegenOptions) {
    c.(incremental := None, options := Filter(c.options, KeptOption))
  }

  function Cleared(p: Record): (r: Record) {
    p.(codegen := ClearedOptions(p.codegen))
  }

  lemma SecondCharacter(s: string, prefix: string)
    requires |prefix| > 1
    ensures StartsWith(s, prefix) ==> |s| > 1 && s[1] == prefix[1]
  {
  }

  lemma ShortJoined(rest: string)
    ensures JoinedIncremental("-C" + rest) <==> IncrementalValue(rest)
  {
    var flag := "-C" + rest;
    assert "-Cincremental=" == "-C" + "incremental=";
    PrefixUnder("-C", "incremental=", rest);
    SecondCharacter(flag, "--codegen=incremental=");
  }

  lemma LongJoined(value: string)
    ensures JoinedIncremental("--codegen=" + value) <==> IncrementalValue(value)
  {
    var flag := "--codegen=" + value;
    assert "--codegen=incremental=" == "--codegen=" + "incremental=";
    PrefixUnder("--codegen=", "incremental=", value);
    SecondCharacter(flag, "-Cincremental=");
  }

  lemma ShortCodegen(flag: string, letter: char, rest: string)
    requires ClassifyShort(flag, letter, rest).Codegen?
    ensures letter == 'C' && ClassifyShort(flag, letter, rest).form == if rest == "" then Next else Here(rest)
  {
  }

  lemma LongCodegen(flag: string)
    requires ClassifyLong(flag).Codegen?
    ensures flag == "--codegen" && ClassifyLong(flag).form == Next
  {
  }

  lemma LongWithCodegen(flag: string, name: string, value: string)
    requires ClassifyLongWith(flag, name, value).Codegen?
    ensures name == "--codegen" && ClassifyLongWith(flag, name, value).form == Here(value)
  {
  }

  /** The tokens the parser reads as a codegen option. */
  lemma CodegenTokens(flag: string)
    requires Classify(flag).Codegen?
    ensures match Classify(flag).form
            case Next => CodegenFlag(flag)
            case Here(v) => flag == "-C" + v || flag == "--codegen=" + v
  {
    match ShapeOf(flag) {
      case Short(letter, rest) =>
        ShortCodegen(flag, letter, rest);
        assert flag == ['-', letter] + rest;
      case LongWith(name, value) =>
        SplitOnceParts(flag, '=');
        LongWithCodegen(flag, name, value);
        assert flag == name + "=" + value;
      case Long =>
        LongCodegen(flag);
      case Plain =>
    }
  }

  /** A codegen item stays exactly when its value is not an incremental path. */
  lemma CodegenValue(item: Item)
    requires Classify(item.flag).Codegen?
    requires item.operand.Some? ==> Classify(item.flag).form.Next?
    ensures match ValueOf(Classify(item.flag).form, item.operand)
            case Some(v) => Stays(item) <==> !IncrementalValue(v)
            case None => Stays(item)
  {
    CodegenTokens(item.flag);
    TokenKinds(item.flag);
    match Classify(item.flag).form
    case Next =>
    case Here(v) =>
      ShortJoined(v);
      LongJoined(v);
      assert !CodegenFlag(item.flag) || item.operand.None?;
  }

  lemma PrefixUnder(head: string, prefix: string, value: string)
    ensures StartsWith(head + value, head + prefix) <==> StartsWith(value, prefix)
  {
    assert (head + value)[|head|..] == value;
    if StartsWith(head + value, head + prefix) {
      assert forall k :: 0 <= k < |prefix| ==>
        prefix[k] == (head + prefix)[|head| + k] == (head + value)[|head| + k] == value[k];
    }
  }

  lemma RecordCodegenCleared(c: CodegenOptions, value: string)
    ensures !IncrementalValue(value) ==>
      ClearedOptions(RecordCodegen(c, value)) == RecordCodegen(ClearedOptions(c), value)
    ensures IncrementalValue(value) ==> ClearedOptions(RecordCodegen(c, value)) == ClearedOptions(c)
  {
    PrefixIsSplit(value, "incremental", '=');
    assert "incremental=" == "incremental" + ['='];
    FilterSnoc(c.options, ParseCodegenOpt(value), KeptOption);
  }

  lemma ApplyCodegenCleared(c: CodegenOptions, arm: Arm, value: Option<string>)
    requires arm.Codegen? && value.Some? ==> !IncrementalValue(value.value)
    ensures ClearedOptions(ApplyCodegen(c, arm, value)) == ApplyCodegen(ClearedOptions(c), arm, value)
  {
    match arm
    case Codegen(_) =>
      if value.Some? {
        RecordCodegenCleared(c, value.value);
      }
    case Optimize => FilterSnoc(c.options, ("opt-level", Some("3")), KeptOption);
    case Debug => FilterSnoc(c.options, ("debuginfo", Some("2")), KeptOption);
    case _ =>
  }

  /** Reading one staying item commutes with clearing incremental state. */
  lemma ApplyCleared(p: Record, q: Record, item: Item, at: nat, to: nat, onDisk: string -> bool)
    requires Unplaced(q) == Unplaced(Cleared(p))
    requires Stays(item) && (item.operand.Some? ==> TakesOperand(item.flag))
    ensures Unplaced(Apply(q, item, to, onDisk)) == Unplaced(Cleared(Apply(p, item, at, onDisk)))
  {
    var arm := Classify(item.flag);
    var value := if arm.HasForm() then ValueOf(arm.form, item.operand) else None;
    if arm.Codegen? {
      CodegenValue(item);
    }
    ApplyCodegenCleared(p.codegen, arm, value);
  }

  /** Reading one dropped item changes nothing but incremental state. */
  lemma ApplyDropped(p: Record, item: Item, at: nat, onDisk: string -> bool)
    requires !Stays(item) && (item.operand.Some? ==> TakesOperand(item.flag))
    ensures Cleared(Apply(p, item, at, onDisk)) == Cleared(p)
  {
    CodegenArms(item.flag);
    CodegenValue(item);
    RecordCodegenCleared(p.codegen, ValueOf(Classify(item.flag).form, item.operand).value);
  }

  /** The second record is the first without incremental state, positions aside. */
  predicate ClearedTo(p: Record, q: Record) {
    Unplaced(q) == Unplaced(Cleared(p))
  }

  lemma ClearedSimulates(onDisk: string -> bool)
    ensures Simulates(ClearedTo, Applier(onDisk), Stays, TakesOperand)
  {
    forall p: Record, q: Record, item: Item, at: nat, to: nat | item.operand.Some? ==> TakesOperand(item.flag)
      ensures StaysRelated(ClearedTo, Applier(onDisk), Stays, p, q, item, at, to)
    {
      if ClearedTo(p, q) {
        if Stays(item) {
          ApplyCleared(p, q, item, at, to, onDisk);
        } else {
          ApplyDropped(p, item, at, onDisk);
        }
      }
    }
  }

  /** Stripping an aligned argv clears the incremental state of what the parser reads and changes nothing else. */
  lemma {:induction false} StripPreservesMeaning(args: seq<string>, onDisk: string -> bool)
    requires Aligned(args, Dropped, TakesOperand)
    ensures Unplaced(Parsed(Strip(args), onDisk)) == Unplaced(Cleared(Parsed(args, onDisk)))
  {
    StripsParsedItems();
    SweepIsItemwise(args, Dropped, Stays, TakesOperand);
    FlattenItems(args, TakesOperand);
    ClearedSimulates(onDisk);
    FoldFilter(ClearedTo, EMPTY, EMPTY, Items(args, TakesOperand), 0, 0, Applier(onDisk), Stays, TakesOperand);
  }

  /** No separate operand begins like a codegen option. */
  predicate OperandsApart(items: seq<Item>) {
    forall item :: item in items && item.operand.Some? ==>
      !StartsWith(item.operand.value, "-C") && !StartsWith(item.operand.value, "--codegen")
  }

  /** That is enough for the argv to be aligned. */
  lemma {:induction false} ApartIsAligned(args: seq<string>)
    requires OperandsApart(Items(args, TakesOperand))
    ensures Aligned(args, Dropped, TakesOperand)
  {
    if args != [] {
      var items := Items(args, TakesOperand);
      assert items[0] in items && forall item :: item in items[1..] ==> item in items;
      if TakesOperand(args[0]) && |args| > 1 {
        assert items[0] == Item(args[0], Some(args[1]));
        NotDropped(args[1..]);
        ApartIsAligned(args[2..]);
      } else {
        ApartIsAligned(args[1..]);
      }
    }
  }

  lemma NotDropped(args: seq<string>)
    requires args != [] && !StartsWith(args[0], "-C") && !StartsWith(args[0], "--codegen")
    ensures Dropped(args) == 0
  {
    PrefixOfPrefix(args[0], "-C", "incremental=");
    PrefixOfPrefix(args[0], "--codegen", "=incremental=");
  }

  lemma PrefixOfPrefix(token: string, name: string, rest: string)
    ensures StartsWith(token, name + rest) ==> StartsWith(token, name)
  {
  }

  /** The parser's grouping of the stripped argv is its grouping of argv minus the incremental items, iff aligned. */
  lemma {:induction false} StripIsItemwise(args: seq<string>)
    ensures Items(Strip(args), TakesOperand) == Filter(Items(args, TakesOperand), Stays)
            <==> Aligned(args, Dropped, TakesOperand)
  {
    StripsParsedItems();
    SweepIsItemwise(args, Dropped, Stays, TakesOperand);
  }

  lemma ParsedSingle(item: Item, onDisk: string -> bool)
    requires item.operand.Some? ==> TakesOperand(item.flag)
    ensures Parsed(Tokens(item), onDisk) == Applier(onDisk)(EMPTY, item, 0)
  {
    FoldOne(EMPTY, item, 0, Applier(onDisk));
    assert Flatten([item]) == Tokens(item);
    ItemsOfFormed([item], TakesOperand);
  }

  lemma StripAfterKept(kept: string, joined: string)
    requires !JoinedIncremental(kept) && JoinedIncremental(joined)
    ensures Strip([kept, joined]) == [kept]
    ensures TakesOperand(kept) ==> !Aligned([kept, joined], Dropped, TakesOperand)
  {
    var args := [kept, joined];
    TokenKinds(joined);
    assert args[1..] == [joined] && [joined][1..] == [];
    assert Sweep([joined], Dropped) == Sweep([], Dropped);
  }

  /** Out of alignment the stripper takes an option's operand away. */
  lemma {:induction false} StripLosesOperand(flag: string, joined: string, onDisk: string -> bool)
    requires TakesOperand(flag) && JoinedIncremental(joined)
    ensures var args := [flag, joined];
            && !Aligned(args, Dropped, TakesOperand)
            && Parsed(args, onDisk) == Apply(EMPTY, Item(flag, Some(joined)), 0, onDisk)
            && Parsed(Strip(args), onDisk) == Apply(EMPTY, Item(flag, None), 0, onDisk)
  {
    CodegenArms(flag);
    StripAfterKept(flag, joined);
    ParsedSingle(Item(flag, Some(joined)), onDisk);
    ParsedSingle(Item(flag, None), onDisk);
  }

  /** With `--crate-name` the loss changes the record. */
  lemma {:induction false} StripCanLoseTheCrateName(flag: string, joined: string, onDisk: string -> bool)
    requires flag == "--crate-name" && JoinedIncremental(joined)
    ensures Parsed([flag, joined], onDisk).unit.crateName == Some(joined)
    ensures Parsed(Strip([flag, joined]), onDisk).unit.crateName == None
  {
    LongValueArms(flag);
    StripLosesOperand(flag, joined, onDisk);
    ApplyCrateName(flag, Some(joined), onDisk);
    ApplyCrateName(flag, None, onDisk);
  }

  lemma LongValueArms(flag: string)
    ensures flag == "--crate-name" ==> Classify(flag) == CrateName(Next)
    ensures flag == "--print" ==> Classify(flag) == QueryValue(Next)
  {
    SplitOnceParts(flag, '=');
  }

  lemma ApplyCrateName(flag: string, operand: Option<string>, onDisk: string -> bool)
    requires Classify(flag) == CrateName(Next)
    ensures Apply(EMPTY, Item(flag, operand), 0, onDisk).unit.crateName == operand
  {
  }

  lemma ApplyQuery(flag: string, operand: Option<string>, onDisk: string -> bool)
    requires Classify(flag) == QueryValue(Next)
    ensures Apply(EMPTY, Item(flag, operand), 0, onDisk) == EMPTY.(unit := NO_UNIT.(isQuery := true))
  {
  }

  /** With `--print` it does not: the parser ignores that operand, so misalignment need not show in the record. */
  lemma {:induction false} StripCanBeHarmless(flag: string, joined: string, onDisk: string -> bool)
    requires flag == "--print" && JoinedIncremental(joined)
    ensures !Aligned([flag, joined], Dropped, TakesOperand)
    ensures Parsed(Strip([flag, joined]), onDisk) == Parsed([flag, joined], onDisk)
  {
    LongValueArms(flag);
    StripLosesOperand(flag, joined, onDisk);
    ApplyQuery(flag, Some(joined), onDisk);
    ApplyQuery(flag, None, onDisk);
  }
}
