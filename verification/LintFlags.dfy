/** Whether lint warnings are silenced, and whether the terminal width then leaves the cache key. */
module LintFlags {
  import opened Text
  import opened ArgvItems
  import opened ArgvParse

  // ---- Silenced lints ----

  /** The lint flags that carry their value in the next token. */
  predicate LintTakesNext(token: string) {
    token in OUTCOME_AFFECTING_VALUE_FLAGS
  }

  predicate ForceWarn(item: Item) {
    item.flag == "--force-warn" || StartsWith(item.flag, "--force-warn=")
  }

  predicate CapLints(item: Item) {
    item.flag == "--cap-lints" || StartsWith(item.flag, "--cap-lints=")
  }

  function CapValue(item: Item): (r: Option<string>)
    requires CapLints(item)
  {
    if item.flag == "--cap-lints" then item.operand else Some(item.flag[12..])
  }

  /** The re-scan of the recorded lint tokens, one flag with its value at a time. */
  function SilencedFrom(items: seq<Item>, cap: Option<string>): (r: bool) {
    if items == [] then cap == Some("allow")
    else if ForceWarn(items[0]) then false
    else if CapLints(items[0]) then cap.None? && SilencedFrom(items[1..], CapValue(items[0]))
    else SilencedFrom(items[1..], cap)
  }

  /** The loop over the recorded tokens. */
  method LintsSilenced(tokens: seq<string>) returns (silenced: bool)
    ensures silenced == SilencedFrom(Items(tokens, LintTakesNext), None)
  {
    var cap: Option<string> := None;
    var i := 0;
    assert tokens[0..] == tokens;
    while i < |tokens|
      invariant i <= |tokens| ==>
        SilencedFrom(Items(tokens[i..], LintTakesNext), cap) == SilencedFrom(Items(tokens, LintTakesNext), None)
      invariant i > |tokens| ==> (cap == Some("allow")) == SilencedFrom(Items(tokens, LintTakesNext), None)
    {
      var flag := tokens[i];
      ScanHead(tokens, i);
      i := i + 1;
      if flag == "--force-warn" || StartsWith(flag, "--force-warn=") {
        return false;
      }
      var value: Option<string>;
      if flag == "--cap-lints" {
        value := if i < |tokens| then Some(tokens[i]) else None;
        i := i + 1;
      } else if StartsWith(flag, "--cap-lints=") {
        value := Some(flag[12..]);
      } else {
        if LintTakesNext(flag) {
          i := i + 1;
        }
        continue;
      }
      if cap.Some? {
        return false;
      }
      cap := value;
    }
    if i == |tokens| {
      assert tokens[i..] == [];
    }
    return cap == Some("allow");
  }

  lemma ScanHead(tokens: seq<string>, i: nat)
    requires i < |tokens|
    ensures var item := ItemAt(tokens, i, LintTakesNext);
            Items(tokens[i..], LintTakesNext) == [item] + Items(tokens[i + |Tokens(item)|..], LintTakesNext)
    ensures StartsWith(tokens[i], "--force-warn=") || StartsWith(tokens[i], "--cap-lints=") ==>
      !LintTakesNext(tokens[i])
    ensures LintTakesNext("--cap-lints") && LintTakesNext("--force-warn")
  {
    var item := ItemAt(tokens, i, LintTakesNext);
    assert tokens[i..][|Tokens(item)|..] == tokens[i + |Tokens(item)|..];
    assert '=' in "--force-warn=" && '=' in "--cap-lints=";
    assert StartsWith(tokens[i], "--force-warn=") ==> tokens[i][12] == '=';
    assert StartsWith(tokens[i], "--cap-lints=") ==> tokens[i][11] == '=';
  }

  /** The values of the cap-lints items, in order; a last `--cap-lints` may have none. */
  function Caps(items: seq<Item>): (r: seq<Option<string>>) {
    if items == [] then []
    else (if CapLints(items[0]) then [CapValue(items[0])] else []) + Caps(items[1..])
  }

  ghost predicate NoForceWarn(items: seq<Item>) {
    forall item :: item in items ==> !ForceWarn(item)
  }

  /** From a cap already seen, or none, the re-scan accepts exactly one cap of `allow` in all. */
  lemma {:induction false} SilencedExactly(items: seq<Item>, cap: Option<string>, takes: string -> bool)
    requires Formed(items, takes) && takes("--cap-lints")
    ensures SilencedFrom(items, cap) <==>
            NoForceWarn(items) && (if cap.Some? then [cap] + Caps(items) else Caps(items)) == [Some("allow")]
  {
    if items == [] {
      assert [cap] + Caps(items) == [cap] && [cap][0] == cap;
    } else {
      var item, rest := items[0], items[1..];
      FormedTail(items, takes);
      assert items == [item] + rest;
      CapOrForce(item);
      if ForceWarn(item) {
        assert item in items;
      } else {
        var cap' := if CapLints(item) then CapValue(item) else cap;
        SilencedExactly(rest, cap', takes);
        assert NoForceWarn(items) <==> NoForceWarn(rest);
        if CapLints(item) {
          assert Caps(items) == [CapValue(item)] + Caps(rest);
          assert Caps(items)[0] == CapValue(item);
          assert cap.Some? ==> |[cap] + Caps(items)| >= 2;
          assert CapValue(item).None? ==> rest == [];
        }
      }
    }
  }

  lemma CapOrForce(item: Item)
    ensures CapLints(item) ==> !ForceWarn(item)
  {
    assert ForceWarn(item) ==> |item.flag| > 2 && item.flag[2] == 'f';
    assert CapLints(item) ==> |item.flag| > 2 && item.flag[2] == 'c';
  }

  predicate LintItem(item: Item) {
    Classify(item.flag).Lint?
  }

  function LintTokens(p: Record): (r: seq<string>) {
    p.outcomeLintFlags
  }

  function TokensOf(pick: Item -> bool): (r: (Item, nat) -> seq<string>) {
    (item: Item, at: nat) => if pick(item) then Tokens(item) else []
  }

  lemma GrowByTokens(tokens: seq<string>, item: Item, at: nat, pick: Item -> bool)
    ensures tokens + TokensOf(pick)(item, at) == if pick(item) then tokens + Tokens(item) else tokens
  {
    assert tokens + [] == tokens;
  }

  lemma LintTokensGrow(onDisk: string -> bool)
    ensures Grows(LintTokens, Applier(onDisk), TokensOf(LintItem), TakesOperand)
  {
    forall p: Record, item: Item, at: nat
      ensures LintTokens(Applier(onDisk)(p, item, at)) == LintTokens(p) + TokensOf(LintItem)(item, at)
    {
      assert Applier(onDisk)(p, item, at) == Apply(p, item, at, onDisk);
      GrowByTokens(p.outcomeLintFlags, item, at, LintItem);
    }
  }

  lemma {:induction false} CollectTokens(items: seq<Item>, at: nat, pick: Item -> bool)
    ensures Collect(items, at, TokensOf(pick)) == Flatten(Filter(items, pick))
    decreases |items|
  {
    if items != [] {
      CollectTokens(items[1..], at + |Tokens(items[0])|, pick);
      FilterStep(items, pick);
      assert pick(items[0]) ==> ([items[0]] + Filter(items[1..], pick))[1..] == Filter(items[1..], pick);
    }
  }

  lemma OutcomeFlagShapes(flag: string)
    requires flag in OUTCOME_AFFECTING_VALUE_FLAGS
    ensures '=' !in flag
    ensures |flag| == 2 || (|flag| > 2 && flag[1] == '-')
  {
  }

  lemma ShortLint(flag: string, letter: char, rest: string)
    requires flag == ['-', letter] + rest && letter in {'W', 'A', 'D', 'F'}
    ensures rest == "" <==> LintTakesNext(flag)
  {
    if rest == "" {
      assert flag == ['-', letter];
      assert flag == "-W" || flag == "-A" || flag == "-D" || flag == "-F";
    } else {
      assert flag[1] == letter && |flag| > 2;
      if LintTakesNext(flag) {
        OutcomeFlagShapes(flag);
      }
    }
  }

  lemma ShortLintArm(flag: string, letter: char, rest: string)
    requires ClassifyShort(flag, letter, rest).Lint?
    ensures letter in {'W', 'A', 'D', 'F'}
    ensures ClassifyShort(flag, letter, rest).TakesNext() <==> rest == ""
  {
  }

  lemma LongLintArm(flag: string)
    requires ClassifyLong(flag).Lint?
    ensures LintTakesNext(flag) && ClassifyLong(flag).TakesNext()
  {
  }

  lemma JoinedLintArm(flag: string, name: string, value: string)
    requires '=' in flag && ClassifyLongWith(flag, name, value).Lint?
    ensures !LintTakesNext(flag) && !ClassifyLongWith(flag, name, value).TakesNext()
  {
    if LintTakesNext(flag) {
      OutcomeFlagShapes(flag);
    }
  }

  /** A lint flag takes the next token for the parser exactly when it does for the re-scan. */
  lemma LintForms(flag: string)
    requires Classify(flag).Lint?
    ensures TakesOperand(flag) <==> LintTakesNext(flag)
  {
    match ShapeOf(flag)
    case Short(letter, rest) =>
      assert flag == ['-', letter] + rest;
      ShortLintArm(flag, letter, rest);
      ShortLint(flag, letter, rest);
    case Long =>
      LongLintArm(flag);
    case LongWith(name, value) =>
      SplitOnceParts(flag, '=');
      JoinedLintArm(flag, name, value);
    case Plain =>
  }

  /** The recorded lint tokens group, for the re-scan, into the parser's own lint items. */
  lemma {:induction false} RecordedLintItems(args: seq<string>, onDisk: string -> bool)
    ensures Items(Parsed(args, onDisk).outcomeLintFlags, LintTakesNext) == Filter(Items(args, TakesOperand), LintItem)
    ensures Formed(Filter(Items(args, TakesOperand), LintItem), LintTakesNext)
  {
    var items := Items(args, TakesOperand);
    var lints := Filter(items, LintItem);
    FlattenItems(args, TakesOperand);
    LintTokensGrow(onDisk);
    FoldCollects(LintTokens, EMPTY, items, 0, Applier(onDisk), TokensOf(LintItem), TakesOperand);
    CollectTokens(items, 0, LintItem);
    assert [] + Flatten(lints) == Flatten(lints);
    FilterFormed(items, LintItem, TakesOperand);
    SameFormed(lints);
    ItemsOfFormed(lints, LintTakesNext);
  }

  lemma SameFormed(items: seq<Item>)
    requires Formed(items, TakesOperand) && forall item :: item in items ==> LintItem(item)
    ensures Formed(items, LintTakesNext)
  {
    forall i | 0 <= i < |items|
      ensures TakesOperand(items[i].flag) <==> LintTakesNext(items[i].flag)
    {
      assert items[i] in items;
      LintForms(items[i].flag);
    }
  }

  /** Lints are silenced exactly when no item forces a warning and the one cap-lints item has the value `allow`. */
  lemma {:induction false} LintsSilencedMeaning(args: seq<string>, onDisk: string -> bool)
    ensures var lints := Filter(Items(args, TakesOperand), LintItem);
            SilencedFrom(Items(Parsed(args, onDisk).outcomeLintFlags, LintTakesNext), None)
            <==> NoForceWarn(lints) && Caps(lints) == [Some("allow")]
  {
    RecordedLintItems(args, onDisk);
    SilencedExactly(Filter(Items(args, TakesOperand), LintItem), None, LintTakesNext);
  }

  // ---- The terminal width ----

  /** `str::parse::<u16>`: an optional `+`, then at least one digit, at most 65535. */
  function ParseU16(s: string): (r: Option<nat>) {
    var digits := if StartsWith(s, "+") then s[1..] else s;
    if digits != "" && AllDigits(digits) && Value(digits) <= 65535 then Some(Value(digits)) else None
  }

  predicate AllDigits(s: string) {
    forall i :: 0 <= i < |s| ==> '0' <= s[i] <= '9'
  }

  function Value(digits: string): nat
    requires AllDigits(digits)
  {
    if digits == "" then 0
    else 10 * Value(digits[..|digits| - 1]) + (digits[|digits| - 1] as int - '0' as int)
  }

  predicate WidthFlag(flag: string) {
    flag == "--diagnostic-width" || StartsWith(flag, "--diagnostic-width=")
  }

  /** The first width flag, if any, carries a positive 16-bit number. */
  predicate ValidFirst(widths: seq<string>) {
    && widths != []
    && StartsWith(widths[0], "--diagnostic-width=")
    && ParseU16(widths[0][19..]).Some? && ParseU16(widths[0][19..]).value > 0
  }

  predicate NotAttachedWidth(flag: string) {
    !StartsWith(flag, "--diagnostic-width=")
  }

  /** The diagnostic flags that enter the cache key. */
  function CacheKeyDiagnosticFlags(p: Record): (r: seq<string>) {
    var widths := Filter(p.diagnostics.flags, WidthFlag);
    var silenced := SilencedFrom(Items(p.outcomeLintFlags, LintTakesNext), None);
    var omitWidth := ValidFirst(widths) && |widths| == 1 && silenced;
    if omitWidth then Filter(p.diagnostics.flags, NotAttachedWidth) else p.diagnostics.flags
  }

  predicate WidthItem(item: Item) {
    WidthFlag(item.flag)
  }

  /** The width an item asks for; a last `--diagnostic-width` may have none. */
  function WidthOf(item: Item): (r: Option<string>)
    requires WidthItem(item)
  {
    if item.flag == "--diagnostic-width" then item.operand else Some(item.flag[19..])
  }

  ghost predicate ValidWidth(width: Option<string>) {
    width.Some? && ParseU16(width.value).Some? && ParseU16(width.value).value > 0
  }

  /** The one-token spelling the record keeps for a diagnostic item. */
  function Joined(item: Item): (r: string) {
    match item.operand
    case None => item.flag
    case Some(v) => item.flag + "=" + v
  }

  function JoinedOf(pick: Item -> bool): (r: (Item, nat) -> seq<string>) {
    (item: Item, at: nat) => if pick(item) then [Joined(item)] else []
  }

  function JoinAll(items: seq<Item>): (r: seq<string>) {
    if items == [] then [] else [Joined(items[0])] + JoinAll(items[1..])
  }

  function DiagnosticTexts(p: Record): (r: seq<string>) {
    p.diagnostics.flags
  }

  lemma GrowByJoined(d: Diagnostics, item: Item, at: nat, pick: Item -> bool)
    ensures d.flags + JoinedOf(pick)(item, at) == (if pick(item) then ApplyDiagnostic(d, item, at) else d).flags
  {
    assert d.flags + [] == d.flags;
  }

  lemma DiagnosticTextsGrow(onDisk: string -> bool)
    ensures Grows(DiagnosticTexts, Applier(onDisk), JoinedOf(DiagnosticItem), TakesOperand)
  {
    forall p: Record, item: Item, at: nat
      ensures DiagnosticTexts(Applier(onDisk)(p, item, at)) == DiagnosticTexts(p) + JoinedOf(DiagnosticItem)(item, at)
    {
      assert Applier(onDisk)(p, item, at) == Apply(p, item, at, onDisk);
      GrowByJoined(p.diagnostics, item, at, DiagnosticItem);
    }
  }

  lemma {:induction false} CollectJoined(items: seq<Item>, at: nat, pick: Item -> bool)
    ensures Collect(items, at, JoinedOf(pick)) == JoinAll(Filter(items, pick))
    decreases |items|
  {
    if items != [] {
      CollectJoined(items[1..], at + |Tokens(items[0])|, pick);
      FilterStep(items, pick);
      assert pick(items[0]) ==> ([items[0]] + Filter(items[1..], pick))[1..] == Filter(items[1..], pick);
    }
  }

  /** The recorded diagnostic flags are the diagnostic items, each in its one-token spelling. */
  lemma RecordedDiagnostics(args: seq<string>, onDisk: string -> bool)
    ensures Parsed(args, onDisk).diagnostics.flags == JoinAll(Filter(Items(args, TakesOperand), DiagnosticItem))
  {
    var items := Items(args, TakesOperand);
    FlattenItems(args, TakesOperand);
    DiagnosticTextsGrow(onDisk);
    FoldCollects(DiagnosticTexts, EMPTY, items, 0, Applier(onDisk), JoinedOf(DiagnosticItem), TakesOperand);
    CollectJoined(items, 0, DiagnosticItem);
    var flags := JoinAll(Filter(items, DiagnosticItem));
    assert [] + flags == flags;
  }

  /** What the re-scan of widths needs to know of a diagnostic item. */
  ghost predicate WidthReads(item: Item) {
    && (WidthFlag(Joined(item)) <==> WidthItem(item))
    && (WidthItem(item) && WidthOf(item).Some? ==> Joined(item) == "--diagnostic-width=" + WidthOf(item).value)
    && (WidthItem(item) && WidthOf(item).None? ==> Joined(item) == "--diagnostic-width")
  }

  lemma DiagnosticFlagShapes(flag: string)
    requires flag in DIAGNOSTIC_VALUE_FLAGS
    ensures '=' !in flag
  {
  }

  lemma DiagnosticForms(flag: string)
    requires Classify(flag).Diagnostic? && TakesOperand(flag)
    ensures flag in DIAGNOSTIC_VALUE_FLAGS
  {
  }

  lemma DiagnosticWidthReads(item: Item)
    requires DiagnosticItem(item) && (item.operand.Some? ==> TakesOperand(item.flag))
    ensures WidthReads(item)
  {
    match item.operand
    case None =>
      if StartsWith(item.flag, "--diagnostic-width=") {
        assert item.flag == "--diagnostic-width=" + item.flag[19..];
      }
    case Some(v) =>
      DiagnosticForms(item.flag);
      OperandWidthReads(item);
  }

  lemma OperandWidthReads(item: Item)
    requires item.flag in DIAGNOSTIC_VALUE_FLAGS && item.operand.Some?
    ensures WidthReads(item)
  {
    DiagnosticFlagShapes(item.flag);
    JoinedPrefix(item.flag, item.operand.value, "--diagnostic-width");
    assert "--diagnostic-width=" == "--diagnostic-width" + "=";
  }

  lemma {:induction false} FilterJoined(items: seq<Item>, flagOk: string -> bool, itemOk: Item -> bool)
    requires forall item :: item in items ==> (flagOk(Joined(item)) <==> itemOk(item))
    ensures Filter(JoinAll(items), flagOk) == JoinAll(Filter(items, itemOk))
  {
    if items != [] {
      FilterJoined(items[1..], flagOk, itemOk);
      FilterStep(items, itemOk);
      assert JoinAll(items)[1..] == JoinAll(items[1..]);
      assert items[0] in items;
      assert itemOk(items[0]) ==> ([items[0]] + Filter(items[1..], itemOk))[1..] == Filter(items[1..], itemOk);
    }
  }

  predicate NotWidthItem(item: Item) {
    !WidthItem(item)
  }

  /** There is exactly one width among the diagnostic items, and it is valid. */
  ghost predicate OneValidWidth(items: seq<Item>) {
    var widths := Filter(items, WidthItem);
    |widths| == 1 && ValidWidth(WidthOf(widths[0]))
  }

  lemma OneValidFirst(items: seq<Item>)
    requires forall item :: item in items ==> WidthReads(item)
    ensures var widths := Filter(JoinAll(items), WidthFlag);
            ValidFirst(widths) && |widths| == 1 <==> OneValidWidth(items)
  {
    var widths := Filter(items, WidthItem);
    FilterJoined(items, WidthFlag, WidthItem);
    if |widths| == 1 {
      assert widths[0] in items && WidthItem(widths[0]);
      assert JoinAll(widths) == [Joined(widths[0])];
      var text := Joined(widths[0]);
      match WidthOf(widths[0]) {
        case None =>
        case Some(v) => assert text[19..] == v;
      }
    } else {
      JoinAllLength(widths);
    }
  }

  lemma {:induction false} JoinAllLength(items: seq<Item>)
    ensures |JoinAll(items)| == |items|
  {
    if items != [] {
      JoinAllLength(items[1..]);
    }
  }

  /** Filtering out something that is there shortens. */
  lemma {:induction false} FilterShortens(flags: seq<string>, keep: string -> bool, x: string)
    ensures |Filter(flags, keep)| <= |flags|
    ensures x in flags && !keep(x) ==> |Filter(flags, keep)| < |flags|
  {
    if flags != [] {
      FilterShortens(flags[1..], keep, x);
    }
  }

  /**
   The width leaves the key flags exactly when lints are silenced and one valid width was given; then the
   other diagnostic flags enter the key unchanged and in order.
   */
  lemma {:induction false} WidthLeavesTheKey(args: seq<string>, onDisk: string -> bool)
    ensures var p := Parsed(args, onDisk);
            var diagnostics := Filter(Items(args, TakesOperand), DiagnosticItem);
            var lints := Filter(Items(args, TakesOperand), LintItem);
            var leaves := OneValidWidth(diagnostics) && NoForceWarn(lints) && Caps(lints) == [Some("allow")];
            && (leaves <==> CacheKeyDiagnosticFlags(p) != p.diagnostics.flags)
            && (leaves ==> CacheKeyDiagnosticFlags(p) == JoinAll(Filter(diagnostics, NotWidthItem)))
  {
    var items := Filter(Items(args, TakesOperand), DiagnosticItem);
    var flags := JoinAll(items);
    RecordedDiagnostics(args, onDisk);
    LintsSilencedMeaning(args, onDisk);
    DiagnosticsReadWidths(args);
    OneValidFirst(items);
    if OneValidWidth(items) {
      OmittedWidth(items);
    }
  }

  lemma DiagnosticsReadWidths(args: seq<string>)
    ensures forall item :: item in Filter(Items(args, TakesOperand), DiagnosticItem) ==> WidthReads(item)
  {
    FlattenItems(args, TakesOperand);
    forall item | item in Filter(Items(args, TakesOperand), DiagnosticItem)
      ensures WidthReads(item)
    {
      var i :| 0 <= i < |Items(args, TakesOperand)| && Items(args, TakesOperand)[i] == item;
      DiagnosticWidthReads(item);
    }
  }

  lemma OmittedWidth(items: seq<Item>)
    requires OneValidWidth(items) && forall item :: item in items ==> WidthReads(item)
    ensures Filter(JoinAll(items), NotAttachedWidth) == JoinAll(Filter(items, NotWidthItem))
    ensures Filter(JoinAll(items), NotAttachedWidth) != JoinAll(items)
  {
    var width := Filter(items, WidthItem)[0];
    forall item | item in items
      ensures NotAttachedWidth(Joined(item)) <==> NotWidthItem(item)
    {
      if WidthItem(item) {
        assert item in Filter(items, WidthItem);
        assert item == width;
      }
    }
    FilterJoined(items, NotAttachedWidth, NotWidthItem);
    assert width in items && WidthItem(width);
    JoinAllHas(items, width);
    FilterShortens(JoinAll(items), NotAttachedWidth, Joined(width));
  }

  lemma {:induction false} JoinAllHas(items: seq<Item>, item: Item)
    requires item in items
    ensures Joined(item) in JoinAll(items)
  {
    if items[0] != item {
      JoinAllHas(items[1..], item);
    }
  }
}
