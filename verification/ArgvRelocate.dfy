/** What the parser reads from an isolated argument vector. */
module ArgvRelocate {
  import opened Text
  import opened Seqs
  import opened ArgvItems
  import opened ArgvParse
  import opened ArgvRewrite
  import opened UnixPath
  import opened ArgvIsolate

  // ---- Items with their incremental path moved ----

  function Relocate(path: string): (r: string) {
    if IsolatedPath(path).Some? then IsolatedPath(path).value else path
  }

  function RelocateToken(token: string): (r: string) {
    if StartsWith(token, "-Cincremental=") then "-Cincremental=" + Relocate(token[14..])
    else if StartsWith(token, "--codegen=incremental=") then "--codegen=incremental=" + Relocate(token[22..])
    else token
  }

  function RelocateValue(value: string): (r: string) {
    if IncrementalValue(value) then "incremental=" + Relocate(value[12..]) else value
  }

  function RelocateItem(item: Item): (r: Item) {
    if CodegenFlag(item.flag) && item.operand.Some?
    then Item(item.flag, Some(RelocateValue(item.operand.value)))
    else Item(RelocateToken(item.flag), item.operand)
  }

  lemma RelocateStays(item: Item)
    ensures Stays(item) ==> RelocateItem(item) == item
    ensures |Tokens(RelocateItem(item))| == |Tokens(item)|
  {
    TokenKinds(item.flag);
  }

  /** An isolated path is another path. */
  lemma IsolatedPathDiffers(path: string)
    requires IsolatedPath(path).Some?
    ensures IsolatedPath(path).value != path
  {
    IsolatedPathIsSibling(path);
    var name := FileName(path).value;
    assert |name + SUFFIX| > |name|;
  }

  /** The front the isolator writes. */
  lemma FrontRelocated(args: seq<string>)
    requires args != [] && IsolatedFront(args).Some?
    ensures IsolatedFront(args).value ==
      if Dropped(args) == 2 then [args[0], RelocateValue(args[1])] else [RelocateToken(args[0])]
    ensures Dropped(args) == 2 ==> RelocateValue(args[1]) != args[1]
    ensures Dropped(args) == 1 ==> RelocateToken(args[0]) != args[0]
  {
    TokenKinds(args[0]);
    if Dropped(args) == 2 {
      HeadDiffers("incremental=", args[1]);
    } else if StartsWith(args[0], "-Cincremental=") {
      HeadDiffers("-Cincremental=", args[0]);
    } else if StartsWith(args[0], "--codegen=incremental=") {
      HeadDiffers("--codegen=incremental=", args[0]);
    }
  }

  lemma HeadDiffers(head: string, token: string)
    requires StartsWith(token, head) && IsolatedPath(token[|head|..]).Some?
    ensures head + Relocate(token[|head|..]) != token
  {
    var path := token[|head|..];
    IsolatedPathDiffers(path);
    assert (head + Relocate(path))[|head|..] == Relocate(path);
  }

  // ---- Item by item ----

  /** The first item's operand starts nothing the isolator would rewrite. */
  predicate FirstAligned(args: seq<string>)
    requires args != []
  {
    TakesOperand(args[0]) && |args| > 1 ==> Dropped(args[1..]) == 0
  }

  lemma IsolateUnfolds(args: seq<string>)
    requires args != [] && Isolate(args).Some?
    ensures Width(args) <= |args| && IsolatedFront(args).Some? && Isolate(args[Width(args)..]).Some?
    ensures Isolate(args).value == IsolatedFront(args).value + Isolate(args[Width(args)..]).value
    ensures |IsolatedFront(args).value| == Width(args) && |Isolate(args).value| == |args|
  {
    FrontKinds(args);
    StripOfIsolated(args);
  }

  /** How the parser reads a token the isolator stops at. */
  lemma FrontReads(args: seq<string>)
    requires args != []
    ensures Dropped(args) == 2 ==> CodegenFlag(args[0]) && TakesOperand(args[0])
    ensures JoinedIncremental(args[0]) ==> !TakesOperand(args[0])
    ensures IncrementalValue(args[0]) ==> !TakesOperand(args[0])
    ensures TakesOperand(args[0]) && |args| > 1 && Dropped(args[1..]) != 0 ==> Dropped(args) == 0
  {
    CodegenArms(args[0]);
    TokenKinds(args[0]);
    if IncrementalValue(args[0]) {
      assert args[0][0] == 'i';
    }
    if |args| > 1 {
      TokenKinds(args[1]);
    }
  }

  lemma FirstDropped(args: seq<string>)
    requires args != [] && Isolate(args).Some? && Dropped(args) != 0
    ensures var (iso, item) := (Isolate(args).value, ItemAt(args, 0, TakesOperand));
      && |Tokens(item)| == Width(args) && |iso| == |args|
      && ItemAt(iso, 0, TakesOperand) == RelocateItem(item)
      && Isolate(args[Width(args)..]) == Some(iso[Width(args)..])
  {
    IsolateUnfolds(args);
    FrontRelocated(args);
    FrontKinds(args);
    FrontReads(args);
    FrontReads(Isolate(args).value);
  }

  lemma FirstKept(args: seq<string>)
    requires args != [] && Isolate(args).Some? && Dropped(args) == 0
    ensures Isolate(args).value[0] == args[0] && Isolate(args[1..]) == Some(Isolate(args).value[1..])
  {
    IsolateUnfolds(args);
    FrontKinds(args);
  }

  /** Where nothing is misaligned, the isolator writes the first item with its path moved and goes on after it. */
  lemma FirstItem(args: seq<string>)
    requires args != [] && Isolate(args).Some? && FirstAligned(args)
    ensures var (iso, item) := (Isolate(args).value, ItemAt(args, 0, TakesOperand));
      && |Tokens(item)| <= |args| == |iso|
      && ItemAt(iso, 0, TakesOperand) == RelocateItem(item)
      && Isolate(args[|Tokens(item)|..]) == Some(iso[|Tokens(item)|..])
  {
    StripOfIsolated(args);
    if Dropped(args) != 0 {
      FirstDropped(args);
    } else {
      var item := ItemAt(args, 0, TakesOperand);
      FirstKept(args);
      TokenKinds(args[0]);
      assert RelocateToken(args[0]) == args[0];
      if item.operand.Some? {
        FirstKept(args[1..]);
        DropNext(args, 1);
        DropNext(Isolate(args).value, 1);
      }
    }
  }

  /** Unless item `k` is an incremental option, it is where it was, unchanged. */
  predicate KeptAt(before: seq<Item>, after: seq<Item>, k: nat)
    requires k < |before|
  {
    Stays(before[k]) ==> k < |after| && after[k] == before[k]
  }

  ghost predicate StayersKept(before: seq<Item>, after: seq<Item>) {
    forall k: nat :: k < |before| ==> KeptAt(before, after, k)
  }

  lemma StayersStep(item: Item, before: seq<Item>, after: seq<Item>)
    ensures StayersKept([item] + before, [RelocateItem(item)] + after) <==> StayersKept(before, after)
  {
    RelocateStays(item);
    var (b, a) := ([item] + before, [RelocateItem(item)] + after);
    forall k: nat | k < |before|
      ensures KeptAt(b, a, k + 1) <==> KeptAt(before, after, k)
    {
      assert b[k + 1] == before[k];
      assert k < |after| ==> a[k + 1] == after[k];
    }
    assert KeptAt(b, a, 0);
    if StayersKept(before, after) {
      forall k: nat | k < |b|
        ensures KeptAt(b, a, k)
      {
        assert k > 0 ==> (KeptAt(b, a, k) <==> KeptAt(before, after, k - 1));
      }
    }
  }

  /** A misaligned operand is rewritten itself, or the token after it is. */
  lemma FirstMisaligned(args: seq<string>)
    requires args != [] && Isolate(args).Some? && !FirstAligned(args)
    ensures !StayersKept(Items(args, TakesOperand), Items(Isolate(args).value, TakesOperand))
  {
    var (iso, rest) := (Isolate(args).value, args[1..]);
    var (before, after) := (Items(args, TakesOperand), Items(iso, TakesOperand));
    FrontReads(args);
    FirstKept(args);
    StripOfIsolated(args);
    IsolateUnfolds(rest);
    FrontRelocated(rest);
    TokenKinds(args[0]);
    assert before[0] == Item(args[0], Some(args[1])) && after[0] == Item(iso[0], Some(iso[1]));
    MisalignedStays(args);
    if Dropped(rest) == 1 {
      assert !KeptAt(before, after, 0);
    } else {
      SecondItem(args);
      SecondItem(iso);
      assert iso[2] == iso[1..][1] && args[2] == rest[1];
      PlainItem(args[2..]);
      assert !KeptAt(before, after, 1);
    }
  }

  lemma MisalignedStays(args: seq<string>)
    requires |args| > 1 && Dropped(args) == 0
    ensures Stays(Item(args[0], Some(args[1])))
  {
  }

  lemma SecondItem(args: seq<string>)
    requires |args| > 2 && TakesOperand(args[0])
    ensures var items := Items(args, TakesOperand);
      |items| > 1 && items[1] == Items(args[2..], TakesOperand)[0] && items[1].flag == args[2]
  {
  }

  lemma PlainItem(args: seq<string>)
    requires args != [] && IncrementalValue(args[0])
    ensures Items(args, TakesOperand)[0] == Item(args[0], None) && Stays(Item(args[0], None))
  {
    FrontReads(args);
    TokenKinds(args[0]);
  }

  /** Isolation leaves every other item alone if and only if argv is aligned; then it just moves the paths. */
  lemma {:induction false} IsolationIsItemwise(args: seq<string>)
    requires Isolate(args).Some?
    ensures var (before, after) := (Items(args, TakesOperand), Items(Isolate(args).value, TakesOperand));
      && (StayersKept(before, after) <==> Aligned(args, Dropped, TakesOperand))
      && (Aligned(args, Dropped, TakesOperand) ==> after == MapItems(RelocateItem, before))
    decreases |args|
  {
    if args != [] {
      if FirstAligned(args) {
        var (iso, item) := (Isolate(args).value, ItemAt(args, 0, TakesOperand));
        var n := |Tokens(item)|;
        FirstItem(args);
        IsolationIsItemwise(args[n..]);
        var (before, after) := (Items(args[n..], TakesOperand), Items(iso[n..], TakesOperand));
        StayersStep(item, before, after);
        ConsTail(item, before);
        RelocateStays(item);
        assert Items(args, TakesOperand) == [item] + before;
        assert Items(iso, TakesOperand) == [RelocateItem(item)] + after;
      } else {
        FirstMisaligned(args);
      }
    }
  }

  // ---- What the record becomes ----

  function RelocateOption(option: (string, Option<string>)): (r: (string, Option<string>)) {
    if option.0 == "incremental" && option.1.Some? then (option.0, Some(Relocate(option.1.value))) else option
  }

  function RelocateOptions(options: seq<(string, Option<string>)>): (r: seq<(string, Option<string>)>) {
    if options == [] then []
    else RelocateOptions(options[..|options| - 1]) + [RelocateOption(options[|options| - 1])]
  }

  function RelocatedCodegen(c: CodegenOptions): (r: CodegenOptions) {
    CodegenOptions(RelocateOptions(c.options), c.extraFilename,
                   if c.incremental.Some? then Some(Relocate(c.incremental.value)) else None)
  }

  /** The record with its incremental path, and each recorded incremental option, moved. */
  function Relocated(p: Record): (r: Record) {
    p.(codegen := RelocatedCodegen(p.codegen))
  }

  lemma RelocateSnoc(options: seq<(string, Option<string>)>, option: (string, Option<string>))
    ensures RelocateOptions(options + [option]) == RelocateOptions(options) + [RelocateOption(option)]
  {
    SnocInit(options, option);
  }

  lemma ValueSplits(value: string)
    ensures IncrementalValue(value) <==> ParseCodegenOpt(value).0 == "incremental" && ParseCodegenOpt(value).1.Some?
    ensures IncrementalValue(value) ==> ParseCodegenOpt(value) == ("incremental", Some(value[12..]))
  {
    PrefixIsSplit(value, "incremental", '=');
    assert "incremental=" == "incremental" + ['='];
  }

  lemma RelocateSplits(value: string)
    ensures ParseCodegenOpt(RelocateValue(value)) == RelocateOption(ParseCodegenOpt(value))
  {
    ValueSplits(value);
    if IncrementalValue(value) {
      ValueSplits(RelocateValue(value));
      assert RelocateValue(value)[12..] == Relocate(value[12..]);
    }
  }

  lemma RecordRelocated(c: CodegenOptions, value: string)
    ensures RecordCodegen(RelocatedCodegen(c), RelocateValue(value)) == RelocatedCodegen(RecordCodegen(c, value))
  {
    RelocateSplits(value);
    RelocateSnoc(c.options, ParseCodegenOpt(value));
  }

  lemma ApplyCodegenRelocated(c: CodegenOptions, arm: Arm, value: Option<string>)
    requires arm.Optimize? || arm.Debug?
    ensures ApplyCodegen(RelocatedCodegen(c), arm, value) == RelocatedCodegen(ApplyCodegen(c, arm, value))
  {
    RelocateSnoc(c.options, ("opt-level", Some("3")));
    RelocateSnoc(c.options, ("debuginfo", Some("2")));
  }

  /** The value of a codegen item, moved with the item. */
  ghost predicate ValueMoves(item: Item)
    requires Classify(item.flag).Codegen?
  {
    var (value, moved) := (ValueOf(Classify(item.flag).form, item.operand), RelocateItem(item));
    && Classify(moved.flag).Codegen?
    && ValueOf(Classify(moved.flag).form, moved.operand)
       == if value.Some? then Some(RelocateValue(value.value)) else None
  }

  lemma DropHead(head: string, rest: string)
    ensures (head + rest)[|head|..] == rest
  {
  }

  lemma JoinedValue(head: string, inner: string, flag: string)
    requires inner == "incremental=" && StartsWith(flag, head + inner)
    ensures var path := flag[|head + inner|..];
      (head + inner + Relocate(path))[|head|..] == RelocateValue(flag[|head|..])
  {
    var path := flag[|head + inner|..];
    assert flag == head + inner + path;
    AppendAssoc(head, inner, path);
    AppendAssoc(head, inner, Relocate(path));
    DropHead(head, inner + path);
    DropHead(head, inner + Relocate(path));
    DropHead(inner, path);
    assert IncrementalValue(inner + path);
  }

  lemma ShortMoved(flag: string)
    requires StartsWith(flag, "-Cincremental=")
    ensures StartsWith(RelocateToken(flag), "-Cincremental=")
    ensures RelocateToken(flag)[2..] == RelocateValue(flag[2..])
  {
    assert "-Cincremental=" == "-C" + "incremental=";
    JoinedValue("-C", "incremental=", flag);
  }

  lemma LongMoved(flag: string)
    requires StartsWith(flag, "--codegen=incremental=") && !StartsWith(flag, "-Cincremental=")
    ensures StartsWith(RelocateToken(flag), "--codegen=incremental=")
    ensures RelocateToken(flag)[10..] == RelocateValue(flag[10..])
  {
    assert "--codegen=incremental=" == "--codegen=" + "incremental=";
    JoinedValue("--codegen=", "incremental=", flag);
  }

  lemma JoinedMoves(flag: string, moved: string, skip: nat)
    requires skip <= |flag| && skip <= |moved| && moved == RelocateToken(flag) && !CodegenFlag(flag)
    requires Classify(flag) == Codegen(Here(flag[skip..])) && Classify(moved) == Codegen(Here(moved[skip..]))
    requires moved[skip..] == RelocateValue(flag[skip..])
    ensures ValueMoves(Item(flag, None))
  {
  }

  lemma JoinedValueMoves(flag: string)
    requires JoinedIncremental(flag)
    ensures Classify(flag).Codegen? && ValueMoves(Item(flag, None))
  {
    CodegenArms(flag);
    CodegenArms(RelocateToken(flag));
    TokenKinds(flag);
    if StartsWith(flag, "-Cincremental=") {
      ShortMoved(flag);
      JoinedMoves(flag, RelocateToken(flag), 2);
    } else {
      LongMoved(flag);
      JoinedMoves(flag, RelocateToken(flag), 10);
    }
  }

  lemma OtherValueStays(flag: string)
    requires Classify(flag).Codegen? && !JoinedIncremental(flag)
    ensures RelocateToken(flag) == flag
    ensures Classify(flag).form.Next? <==> CodegenFlag(flag)
    ensures Classify(flag).form.Here? ==> RelocateValue(Classify(flag).form.value) == Classify(flag).form.value
  {
    CodegenTokens(flag);
    CodegenArms(flag);
    if Classify(flag).form.Here? {
      ShortJoined(Classify(flag).form.value);
      LongJoined(Classify(flag).form.value);
    }
  }

  lemma EveryValueMoves(item: Item)
    requires Classify(item.flag).Codegen? && (item.operand.Some? ==> TakesOperand(item.flag))
    ensures ValueMoves(item)
  {
    CodegenArms(item.flag);
    if JoinedIncremental(item.flag) {
      JoinedValueMoves(item.flag);
    } else {
      OtherValueStays(item.flag);
    }
  }

  lemma OtherItemStays(item: Item)
    requires !Classify(item.flag).Codegen?
    ensures RelocateItem(item) == item
  {
    CodegenArms(item.flag);
  }

  /** Reading a moved item into the moved record gives the moved result, at the same position. */
  lemma ApplyRelocated(p: Record, item: Item, at: nat, onDisk: string -> bool)
    requires item.operand.Some? ==> TakesOperand(item.flag)
    ensures Apply(Relocated(p), RelocateItem(item), at, onDisk) == Relocated(Apply(p, item, at, onDisk))
  {
    var arm := Classify(item.flag);
    if arm.Codegen? {
      EveryValueMoves(item);
      var value := ValueOf(arm.form, item.operand);
      if value.Some? {
        RecordRelocated(p.codegen, value.value);
      }
    } else {
      OtherItemStays(item);
      if arm.Optimize? || arm.Debug? {
        ApplyCodegenRelocated(p.codegen, arm, None);
      }
    }
  }

  lemma RelocationCommutes(onDisk: string -> bool)
    ensures Commutes(Relocated, RelocateItem, Applier(onDisk), TakesOperand)
  {
    forall p: Record, item: Item, at: nat | item.operand.Some? ==> TakesOperand(item.flag)
      ensures CommutesAt(Relocated, RelocateItem, Applier(onDisk), p, item, at)
    {
      ApplyRelocated(p, item, at, onDisk);
      RelocateStays(item);
    }
  }

  lemma {:induction false} ClearedOptionsMoved(options: seq<(string, Option<string>)>)
    ensures Filter(RelocateOptions(options), KeptOption) == Filter(options, KeptOption)
  {
    if options != [] {
      var (before, last) := (options[..|options| - 1], options[|options| - 1]);
      ClearedOptionsMoved(before);
      assert options == before + [last];
      FilterSnoc(before, last, KeptOption);
      FilterSnoc(RelocateOptions(before), RelocateOption(last), KeptOption);
    }
  }

  /** For every aligned argv, the isolated argv parses to the same record with exactly the incremental paths moved. */
  lemma {:induction false} IsolationPreservesMeaning(args: seq<string>, onDisk: string -> bool)
    requires Isolate(args).Some? && Aligned(args, Dropped, TakesOperand)
    ensures Parsed(Isolate(args).value, onDisk) == Relocated(Parsed(args, onDisk))
    ensures Cleared(Parsed(Isolate(args).value, onDisk)) == Cleared(Parsed(args, onDisk))
  {
    IsolationIsItemwise(args);
    FlattenItems(args, TakesOperand);
    RelocationCommutes(onDisk);
    FoldMapped(Relocated, RelocateItem, EMPTY, Items(args, TakesOperand), 0, Applier(onDisk), TakesOperand);
    ClearedOptionsMoved(Parsed(args, onDisk).codegen.options);
  }

  /** Out of alignment the isolator can change the crate name. */
  lemma {:induction false} IsolationCanChangeTheCrateName(flag: string, path: string, onDisk: string -> bool)
    requires flag == "--crate-name" && FileName(path).Some?
    ensures var args := [flag, "-Cincremental=" + path];
      && Isolate(args) == Some([flag, "-Cincremental=" + IsolatedPath(path).value])
      && Parsed(args, onDisk).unit.crateName == Some("-Cincremental=" + path)
      && Parsed(Isolate(args).value, onDisk).unit.crateName == Some("-Cincremental=" + IsolatedPath(path).value)
      && IsolatedPath(path).value != path
  {
    IsolatedPathDiffers(path);
    IsolateOperand(flag, path);
    LongValueArms(flag);
    CrateNameRead(flag, "-Cincremental=" + path, onDisk);
    CrateNameRead(flag, "-Cincremental=" + IsolatedPath(path).value, onDisk);
  }

  lemma CrateNameRead(flag: string, operand: string, onDisk: string -> bool)
    requires Classify(flag) == CrateName(Next)
    ensures Parsed([flag, operand], onDisk).unit.crateName == Some(operand)
  {
    ParsedSingle(Item(flag, Some(operand)), onDisk);
    ApplyCrateName(flag, Some(operand), onDisk);
  }

  lemma IsolateFirst(token: string, moved: string, rest: seq<string>, after: seq<string>)
    requires IsolatedFront([token] + rest) == Some([moved]) && Width([token] + rest) == 1
    requires Isolate(rest) == Some(after)
    ensures Isolate([token] + rest) == Some([moved] + after)
  {
    ConsTail(token, rest);
  }

  lemma IsolateOperand(flag: string, path: string)
    requires !JoinedIncremental(flag) && !CodegenFlag(flag) && FileName(path).Some?
    ensures Isolate([flag, "-Cincremental=" + path]) == Some([flag, "-Cincremental=" + IsolatedPath(path).value])
  {
    var (joined, moved) := ("-Cincremental=" + path, "-Cincremental=" + IsolatedPath(path).value);
    assert joined[14..] == path && StartsWith(joined, "-Cincremental=");
    AppendEmpty([joined]);
    AppendEmpty([moved]);
    IsolateFirst(joined, moved, [], []);
    assert [flag] + [joined] == [flag, joined] && [flag] + [moved] == [flag, moved];
    IsolateFirst(flag, flag, [joined], [moved]);
  }
}
