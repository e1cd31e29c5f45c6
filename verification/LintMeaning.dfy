/** Silenced lints and the terminal width, read off argv by the text of its flags. */
module LintMeaning {
  import opened Text
  import opened Seqs
  import opened ArgvItems
  import opened ArgvParse
  import opened ArgvFlags
  import opened ArgvFields
  import opened LintFlags

  predicate IsLintItem(item: Item) {
    IsLint(item.flag)
  }

  predicate IsDiagnosticItem(item: Item) {
    IsDiagnostic(item.flag)
  }

  lemma {:induction false} FilterSame<T(!new)>(s: seq<T>, a: T -> bool, b: T -> bool)
    requires forall x :: x in s ==> (a(x) <==> b(x))
    ensures Filter(s, a) == Filter(s, b)
  {
    if s != [] {
      FilterSame(s[1..], a, b);
      assert s[0] in s;
    }
  }

  /** The recorded lint tokens are those of the items spelled like lint options, in order. */
  lemma LintTokensRecorded(args: seq<string>, onDisk: string -> bool)
    ensures Parsed(args, onDisk).outcomeLintFlags == Flatten(Filter(Items(args, TakesOperand), IsLintItem))
  {
    var items := Items(args, TakesOperand);
    FlattenItems(args, TakesOperand);
    LintTokensGrow(onDisk);
    FoldCollects(LintTokens, EMPTY, items, 0, Applier(onDisk), TokensOf(LintItem), TakesOperand);
    CollectTokens(items, 0, LintItem);
    AppendEmpty(Flatten(Filter(items, LintItem)));
    LintItemsAre(items);
  }

  lemma LintItemsAre(items: seq<Item>)
    ensures Filter(items, LintItem) == Filter(items, IsLintItem)
  {
    forall item | item in items
      ensures LintItem(item) <==> IsLintItem(item)
    {
      Kinds(item.flag);
    }
    FilterSame(items, LintItem, IsLintItem);
  }

  /** The recorded diagnostic flags are the items spelled like diagnostic options, each joined. */
  lemma DiagnosticsRecorded(args: seq<string>, onDisk: string -> bool)
    ensures Parsed(args, onDisk).diagnostics.flags == JoinAll(Filter(Items(args, TakesOperand), IsDiagnosticItem))
  {
    var items := Items(args, TakesOperand);
    RecordedDiagnostics(args, onDisk);
    DiagnosticItemsAre(items);
  }

  lemma DiagnosticItemsAre(items: seq<Item>)
    ensures Filter(items, DiagnosticItem) == Filter(items, IsDiagnosticItem)
  {
    forall item | item in items
      ensures DiagnosticItem(item) <==> IsDiagnosticItem(item)
    {
      Kinds(item.flag);
    }
    FilterSame(items, DiagnosticItem, IsDiagnosticItem);
  }

  // ---- Silenced lints ----

  lemma LintReading(item: Item, name: string)
    requires name == "--cap-lints" || name == "--force-warn"
    ensures Reading(item, Spelling.Joined(name)).Some? <==> item.flag == name || StartsWith(item.flag, name + "=")
    ensures Reading(item, Spelling.Joined(name)).Some? ==> LintItem(item)
  {
    assert name in LONG_LINTS;
    Kinds(item.flag);
  }

  lemma CapReading(item: Item)
    ensures CapLints(item) <==> Reading(item, Spelling.Joined("--cap-lints")).Some?
    ensures CapLints(item) ==> Reading(item, Spelling.Joined("--cap-lints")).value == CapValue(item)
    ensures CapLints(item) ==> LintItem(item)
  {
    LintReading(item, "--cap-lints");
    assert "--cap-lints" + "=" == "--cap-lints=";
  }

  lemma ForceReading(item: Item)
    ensures ForceWarn(item) <==> Reading(item, Spelling.Joined("--force-warn")).Some?
    ensures ForceWarn(item) ==> LintItem(item)
  {
    LintReading(item, "--force-warn");
    assert "--force-warn" + "=" == "--force-warn=";
  }

  lemma {:induction false} CapsAreReadings(items: seq<Item>)
    ensures Caps(Filter(items, LintItem)) == Readings(items, Spelling.Joined("--cap-lints"))
    ensures NoForceWarn(Filter(items, LintItem)) <==> Readings(items, Spelling.Joined("--force-warn")) == []
  {
    if items != [] {
      var rest := Filter(items[1..], LintItem);
      CapsAreReadings(items[1..]);
      CapReading(items[0]);
      ForceReading(items[0]);
      FilterStep(items, LintItem);
      ConsTail(items[0], rest);
      AppendEmpty(Caps(rest));
    }
  }

  /** For every argv, lints are silenced exactly when none is forced to warn and the one cap given is `allow`. */
  lemma SilencedReadings(args: seq<string>, onDisk: string -> bool)
    ensures var items := Items(args, TakesOperand);
      SilencedFrom(Items(Parsed(args, onDisk).outcomeLintFlags, LintTakesNext), None)
      <==> Readings(items, Spelling.Joined("--force-warn")) == []
           && Readings(items, Spelling.Joined("--cap-lints")) == [Some("allow")]
  {
    LintsSilencedMeaning(args, onDisk);
    CapsAreReadings(Items(args, TakesOperand));
  }

  // ---- Decimal numbers ----

  function Digit(d: nat): (c: char)
    requires d < 10
  {
    "0123456789"[d]
  }

  function Decimal(n: nat): (s: string) {
    if n < 10 then [Digit(n)] else Decimal(n / 10) + [Digit(n % 10)]
  }

  lemma DigitValue(d: nat)
    requires d < 10
    ensures '0' <= Digit(d) <= '9' && Digit(d) as int - '0' as int == d
  {
  }

  lemma {:induction false} DecimalValue(n: nat)
    ensures AllDigits(Decimal(n)) && Decimal(n) != "" && Decimal(n)[0] != '+'
    ensures Value(Decimal(n)) == n
  {
    DigitValue(n % 10);
    if n >= 10 {
      DecimalValue(n / 10);
      SnocInit(Decimal(n / 10), Digit(n % 10));
    } else {
      assert Decimal(n)[..0] == "";
    }
  }

  lemma {:induction false} LeadingZero(digits: string)
    requires AllDigits(digits)
    ensures AllDigits("0" + digits) && Value("0" + digits) == Value(digits)
  {
    var zero := "0" + digits;
    if digits == "" {
      assert zero == "0" && zero[..0] == "";
    } else {
      var front := digits[..|digits| - 1];
      LeadingZero(front);
      assert zero[..|zero| - 1] == "0" + front;
    }
  }

  /** A number is read from its decimal digits, after a `+` too, up to 65535. */
  lemma ParsesNumbers(n: nat)
    ensures ParseU16(Decimal(n)) == if n <= 65535 then Some(n) else None
    ensures ParseU16("+" + Decimal(n)) == ParseU16(Decimal(n))
  {
    DecimalValue(n);
    assert ("+" + Decimal(n))[1..] == Decimal(n);
  }

  /** Leading zeros do not matter, and only digits are read. */
  lemma ParsesDigits(text: string)
    ensures AllDigits(text) && text != "" ==> ParseU16("0" + text) == ParseU16(text)
    ensures ParseU16(text).Some? ==>
      (AllDigits(text) && text != "") || (StartsWith(text, "+") && |text| > 1 && AllDigits(text[1..]))
  {
    if AllDigits(text) && text != "" {
      LeadingZero(text);
      assert ("0" + text)[0] == '0';
    }
  }

  // ---- The terminal width ----

  function Widths(items: seq<Item>): (r: seq<Option<string>>) {
    if items == [] then [] else (if WidthItem(items[0]) then [WidthOf(items[0])] else []) + Widths(items[1..])
  }

  lemma WidthReading(item: Item)
    ensures WidthItem(item) <==> Reading(item, Spelling.Joined("--diagnostic-width")).Some?
    ensures WidthItem(item) ==> Reading(item, Spelling.Joined("--diagnostic-width")).value == WidthOf(item)
    ensures WidthItem(item) ==> DiagnosticItem(item)
  {
    assert "--diagnostic-width" + "=" == "--diagnostic-width=";
    assert "--diagnostic-width" in DIAGNOSTICS;
    Kinds(item.flag);
  }

  lemma {:induction false} WidthsAreReadings(items: seq<Item>)
    ensures Widths(Filter(items, DiagnosticItem)) == Readings(items, Spelling.Joined("--diagnostic-width"))
  {
    if items != [] {
      var rest := Filter(items[1..], DiagnosticItem);
      WidthsAreReadings(items[1..]);
      WidthReading(items[0]);
      FilterStep(items, DiagnosticItem);
      ConsTail(items[0], rest);
      AppendEmpty(Widths(rest));
    }
  }

  lemma {:induction false} WidthsFiltered(items: seq<Item>)
    ensures var widths := Filter(items, WidthItem);
      && |widths| == |Widths(items)|
      && forall i :: 0 <= i < |widths| ==> WidthItem(widths[i]) && WidthOf(widths[i]) == Widths(items)[i]
  {
    if items != [] {
      WidthsFiltered(items[1..]);
      FilterStep(items, WidthItem);
    }
  }

  /** One width is given, and it is a positive 16-bit number. */
  predicate OneWidth(readings: seq<Option<string>>) {
    |readings| == 1 && readings[0].Some? && ParseU16(readings[0].value).Some? && ParseU16(readings[0].value).value > 0
  }

  predicate OtherDiagnostic(item: Item) {
    IsDiagnostic(item.flag) && Reading(item, Spelling.Joined("--diagnostic-width")).None?
  }

  lemma {:induction false} OtherDiagnostics(items: seq<Item>)
    ensures Filter(Filter(items, DiagnosticItem), NotWidthItem) == Filter(items, OtherDiagnostic)
  {
    if items != [] {
      var rest := Filter(items[1..], DiagnosticItem);
      OtherDiagnostics(items[1..]);
      WidthReading(items[0]);
      Kinds(items[0].flag);
      FilterStep(items, DiagnosticItem);
      FilterStep(items, OtherDiagnostic);
      ConsTail(items[0], rest);
      FilterStep([items[0]] + rest, NotWidthItem);
    }
  }

  /** For every argv, the width leaves the key exactly when lints are silenced and one good width is given. */
  lemma WidthReadings(args: seq<string>, onDisk: string -> bool)
    ensures var (p, items) := (Parsed(args, onDisk), Items(args, TakesOperand));
      var leaves :=
        && Readings(items, Spelling.Joined("--force-warn")) == []
        && Readings(items, Spelling.Joined("--cap-lints")) == [Some("allow")]
        && OneWidth(Readings(items, Spelling.Joined("--diagnostic-width")));
      && (leaves <==> CacheKeyDiagnosticFlags(p) != p.diagnostics.flags)
      && (leaves ==> CacheKeyDiagnosticFlags(p) == JoinAll(Filter(items, OtherDiagnostic)))
  {
    var items := Items(args, TakesOperand);
    var diagnostics := Filter(items, DiagnosticItem);
    WidthLeavesTheKey(args, onDisk);
    CapsAreReadings(items);
    WidthsAreReadings(items);
    WidthsFiltered(diagnostics);
    OtherDiagnostics(items);
    assert OneValidWidth(diagnostics) <==> OneWidth(Widths(diagnostics));
  }
}
