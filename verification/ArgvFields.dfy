/** Every field of the parsed record, read off the items of argv by the spelling of their flags. */
module ArgvFields {
  import opened Text
  import opened Seqs
  import opened ArgvItems
  import opened ArgvParse
  import opened ArgvFlags

  // ---- Readings ----

  /** The value of an item of that spelling: the rest of its flag, or its operand, which the last may lack. */
  function Reading(item: Item, spelling: Spelling): (r: Option<Option<string>>) {
    match Reads(item.flag, spelling)
    case None => None
    case Some(Next) => Some(item.operand)
    case Some(Here(v)) => Some(Some(v))
  }

  /** The values of the items of one spelling, in order. */
  function Readings(items: seq<Item>, spelling: Spelling): (r: seq<Option<string>>) {
    if items == [] then []
    else (match Reading(items[0], spelling) case None => [] case Some(v) => [v]) + Readings(items[1..], spelling)
  }

  function Last(readings: seq<Option<string>>): (r: Option<string>) {
    if readings == [] then None else readings[|readings| - 1]
  }

  /** The values that are there. */
  function Present(readings: seq<Option<string>>): (values: seq<string>) {
    if readings == [] then []
    else (if readings[0].Some? then [readings[0].value] else []) + Present(readings[1..])
  }

  // ---- Fields as folds over readings ----

  function FoldReadings<T>(step: (T, Option<string>) -> T, init: T, readings: seq<Option<string>>): (r: T)
    decreases |readings|
  {
    if readings == [] then init else FoldReadings(step, step(init, readings[0]), readings[1..])
  }

  function Stepped<T>(step: (T, Option<string>) -> T, before: T, reading: Option<Option<string>>): (r: T) {
    match reading
    case None => before
    case Some(v) => step(before, v)
  }

  /** One item changes the field as its reading says, and not at all if it has another spelling. */
  predicate StepsAt<T(==)>(field: Record -> T, step: (T, Option<string>) -> T, spelling: Spelling,
                           apply: (Record, Item, nat) -> Record, p: Record, item: Item, at: nat) {
    field(apply(p, item, at)) == Stepped(step, field(p), Reading(item, spelling))
  }

  ghost predicate Steps<T(!new)>(field: Record -> T, step: (T, Option<string>) -> T, spelling: Spelling,
                                 apply: (Record, Item, nat) -> Record) {
    forall p, item, at :: StepsAt(field, step, spelling, apply, p, item, at)
  }

  lemma ReadingsStep<T>(step: (T, Option<string>) -> T, init: T, items: seq<Item>, spelling: Spelling)
    requires items != []
    ensures FoldReadings(step, init, Readings(items, spelling))
         == FoldReadings(step, Stepped(step, init, Reading(items[0], spelling)), Readings(items[1..], spelling))
  {
    var rest := Readings(items[1..], spelling);
    match Reading(items[0], spelling)
    case None => AppendEmpty(rest);
    case Some(v) => ConsTail(v, rest);
  }

  lemma {:induction false} FieldFolds<T(!new)>(
      field: Record -> T, step: (T, Option<string>) -> T, spelling: Spelling, apply: (Record, Item, nat) -> Record,
      p: Record, items: seq<Item>, at: nat)
    requires Steps(field, step, spelling, apply)
    ensures field(Fold(p, items, at, apply)) == FoldReadings(step, field(p), Readings(items, spelling))
    decreases |items|
  {
    if items != [] {
      assert StepsAt(field, step, spelling, apply, p, items[0], at);
      FieldFolds(field, step, spelling, apply, apply(p, items[0], at), items[1..], at + |Tokens(items[0])|);
      ReadingsStep(step, field(p), items, spelling);
    }
  }

  function Take(before: Option<string>, v: Option<string>): Option<string> {
    v
  }

  lemma {:induction false} FoldTakes(init: Option<string>, readings: seq<Option<string>>)
    ensures FoldReadings(Take, init, readings) == if readings == [] then init else Last(readings)
    decreases |readings|
  {
    if readings != [] {
      FoldTakes(readings[0], readings[1..]);
    }
  }

  lemma {:induction false} FoldPushes(init: seq<string>, readings: seq<Option<string>>)
    ensures FoldReadings(Push, init, readings) == init + Present(readings)
    decreases |readings|
  {
    if readings == [] {
      AppendEmpty(init);
    } else {
      FoldPushes(Push(init, readings[0]), readings[1..]);
      match readings[0]
      case None => AppendEmpty(Present(readings[1..]));
      case Some(v) => AppendAssoc(init, [v], Present(readings[1..]));
    }
  }

  // ---- The fields an option sets ----

  /** Under `classify` just the items of this spelling have an arm of this kind, with their reading as value. */
  predicate SpelledAt(classify: string -> Arm, kind: Arm -> bool, spelling: Spelling, item: Item) {
    var arm := classify(item.flag);
    && (kind(arm) <==> Reading(item, spelling).Some?)
    && (kind(arm) && arm.HasForm() ==> Reading(item, spelling).value == ValueOf(arm.form, item.operand))
  }

  ghost predicate Spells(classify: string -> Arm, kind: Arm -> bool, spelling: Spelling) {
    forall item :: SpelledAt(classify, kind, spelling, item)
  }

  /** The fields that hold the last value given. */
  datatype Single = TheCrateName | TheOutput | TheOutDir | TheTarget | TheEdition | TheSysroot

  function SingleOf(f: Single): (r: Record -> Option<string>) {
    (p: Record) =>
      match f
      case TheCrateName => p.unit.crateName
      case TheOutput => p.unit.output
      case TheOutDir => p.unit.outDir
      case TheTarget => p.unit.target
      case TheEdition => p.unit.edition
      case TheSysroot => p.unit.sysroot
  }

  function SingleKind(f: Single): (r: Arm -> bool) {
    (arm: Arm) =>
      match f
      case TheCrateName => arm.CrateName?
      case TheOutput => arm.OutputFile?
      case TheOutDir => arm.OutDir?
      case TheTarget => arm.Target?
      case TheEdition => arm.Edition?
      case TheSysroot => arm.Sysroot?
  }

  function SingleSpelling(f: Single): (r: Spelling) {
    match f
    case TheCrateName => Joined("--crate-name")
    case TheOutput => Exact("-o")
    case TheOutDir => Exact("--out-dir")
    case TheTarget => Joined("--target")
    case TheEdition => Joined("--edition")
    case TheSysroot => Joined("--sysroot")
  }

  lemma SingleKindSpelled(f: Single, arm: Arm)
    ensures SpellingOf(arm) == Some(SingleSpelling(f)) <==> SingleKind(f)(arm)
    ensures IsSpelling(SingleSpelling(f))
  {
  }

  lemma SingleSpells(f: Single)
    ensures Spells(Classify, SingleKind(f), SingleSpelling(f))
  {
    forall item: Item
      ensures SpelledAt(Classify, SingleKind(f), SingleSpelling(f), item)
    {
      SingleKindSpelled(f, Classify(item.flag));
      ArmIsSpelling(item.flag, SingleSpelling(f));
    }
  }

  lemma SingleHasForm(f: Single, arm: Arm)
    ensures SingleKind(f)(arm) ==> arm.HasForm()
  {
  }

  lemma SingleSteps(f: Single, classify: string -> Arm, spelling: Spelling, onDisk: string -> bool)
    requires Spells(classify, SingleKind(f), spelling)
    ensures Steps(SingleOf(f), Take, spelling, ArmApplier(classify, onDisk))
  {
    forall p: Record, item: Item, at: nat
      ensures StepsAt(SingleOf(f), Take, spelling, ArmApplier(classify, onDisk), p, item, at)
    {
      assert SpelledAt(classify, SingleKind(f), spelling, item);
      SingleHasForm(f, classify(item.flag));
      SingleApplied(f, p, classify(item.flag), item, at, onDisk);
    }
  }

  /** Which arms the unit's fields listen to. */
  predicate UnitArm(arm: Arm) {
    !arm.Codegen? && !arm.Optimize? && !arm.Debug? && !arm.Lint? && !arm.Diagnostic?
  }

  lemma UnitApplied(p: Record, arm: Arm, item: Item, at: nat, onDisk: string -> bool)
    ensures ApplyArm(p, arm, item, at, onDisk).unit ==
      if UnitArm(arm)
      then ApplyUnit(p.unit, arm, item.flag, if arm.HasForm() then ValueOf(arm.form, item.operand) else None, onDisk)
      else p.unit
  {
  }

  lemma UnitSingles(u: Unit, arm: Arm, flag: string, value: Option<string>, onDisk: string -> bool)
    ensures var r := ApplyUnit(u, arm, flag, value, onDisk);
      && r.crateName == (if arm.CrateName? then value else u.crateName)
      && r.output == (if arm.OutputFile? then value else u.output)
      && r.outDir == (if arm.OutDir? then value else u.outDir)
      && r.target == (if arm.Target? then value else u.target)
      && r.edition == (if arm.Edition? then value else u.edition)
      && r.sysroot == (if arm.Sysroot? then value else u.sysroot)
  {
  }

  lemma SingleApplied(f: Single, p: Record, arm: Arm, item: Item, at: nat, onDisk: string -> bool)
    ensures SingleOf(f)(ApplyArm(p, arm, item, at, onDisk))
         == if SingleKind(f)(arm) then ValueOf(arm.form, item.operand) else SingleOf(f)(p)
  {
    UnitApplied(p, arm, item, at, onDisk);
    UnitSingles(p.unit, arm, item.flag, if arm.HasForm() then ValueOf(arm.form, item.operand) else None, onDisk);
  }

  lemma SingleField(f: Single, args: seq<string>, onDisk: string -> bool)
    ensures SingleOf(f)(Parsed(args, onDisk)) == Last(Readings(Items(args, TakesOperand), SingleSpelling(f)))
  {
    var items := Items(args, TakesOperand);
    SingleSpells(f);
    SingleSteps(f, Classify, SingleSpelling(f), onDisk);
    FieldFolds(SingleOf(f), Take, SingleSpelling(f), Applier(onDisk), EMPTY, items, 0);
    FoldTakes(None, Readings(items, SingleSpelling(f)));
  }

  /** Each single-valued field is the value of the last option of its own spelling, whatever else argv holds. */
  lemma SingleFields(args: seq<string>, onDisk: string -> bool)
    ensures var (u, items) := (Parsed(args, onDisk).unit, Items(args, TakesOperand));
      && u.crateName == Last(Readings(items, Joined("--crate-name")))
      && u.output == Last(Readings(items, Exact("-o")))
      && u.outDir == Last(Readings(items, Exact("--out-dir")))
      && u.target == Last(Readings(items, Joined("--target")))
      && u.edition == Last(Readings(items, Joined("--edition")))
      && u.sysroot == Last(Readings(items, Joined("--sysroot")))
  {
    SingleField(TheCrateName, args, onDisk);
    SingleField(TheOutput, args, onDisk);
    SingleField(TheOutDir, args, onDisk);
    SingleField(TheTarget, args, onDisk);
    SingleField(TheEdition, args, onDisk);
    SingleField(TheSysroot, args, onDisk);
  }

  // ---- The fields an option adds to ----

  /** The fields that hold every value given, in order. */
  datatype Listed = CrateTypes | LinkSearches | LinkLibraries | UnstableFlags | RemapPrefixes | Cfgs

  function ListedOf(f: Listed): (r: Record -> seq<string>) {
    (p: Record) =>
      match f
      case CrateTypes => p.unit.crateTypes
      case LinkSearches => p.unit.linkSearch
      case LinkLibraries => p.unit.linkLibs
      case UnstableFlags => p.unit.unstableFlags
      case RemapPrefixes => p.unit.remapPathPrefixes
      case Cfgs => p.unit.cfgs
  }

  function ListedKind(f: Listed): (r: Arm -> bool) {
    (arm: Arm) =>
      match f
      case CrateTypes => arm.CrateType?
      case LinkSearches => arm.LinkSearch?
      case LinkLibraries => arm.LinkLib?
      case UnstableFlags => arm.Unstable?
      case RemapPrefixes => arm.Remap?
      case Cfgs => arm.Cfg?
  }

  function ListedSpelling(f: Listed): (r: Spelling) {
    match f
    case CrateTypes => Joined("--crate-type")
    case LinkSearches => Attached("-L")
    case LinkLibraries => Attached("-l")
    case UnstableFlags => Attached("-Z")
    case RemapPrefixes => Joined("--remap-path-prefix")
    case Cfgs => Joined("--cfg")
  }

  lemma ListedKindSpelled(f: Listed, arm: Arm)
    ensures SpellingOf(arm) == Some(ListedSpelling(f)) <==> ListedKind(f)(arm)
    ensures IsSpelling(ListedSpelling(f))
    ensures ListedKind(f)(arm) ==> arm.HasForm()
  {
  }

  lemma UnitLists(u: Unit, arm: Arm, flag: string, value: Option<string>, onDisk: string -> bool)
    ensures var r := ApplyUnit(u, arm, flag, value, onDisk);
      && r.crateTypes == (if arm.CrateType? then Push(u.crateTypes, value) else u.crateTypes)
      && r.linkSearch == (if arm.LinkSearch? then Push(u.linkSearch, value) else u.linkSearch)
      && r.linkLibs == (if arm.LinkLib? then Push(u.linkLibs, value) else u.linkLibs)
      && r.unstableFlags == (if arm.Unstable? then Push(u.unstableFlags, value) else u.unstableFlags)
      && r.remapPathPrefixes == (if arm.Remap? then Push(u.remapPathPrefixes, value) else u.remapPathPrefixes)
      && r.cfgs == (if arm.Cfg? then Push(u.cfgs, value) else u.cfgs)
  {
  }

  lemma ListedSteps(f: Listed, classify: string -> Arm, spelling: Spelling, onDisk: string -> bool)
    requires Spells(classify, ListedKind(f), spelling)
    ensures Steps(ListedOf(f), Push, spelling, ArmApplier(classify, onDisk))
  {
    forall p: Record, item: Item, at: nat
      ensures StepsAt(ListedOf(f), Push, spelling, ArmApplier(classify, onDisk), p, item, at)
    {
      var arm := classify(item.flag);
      assert SpelledAt(classify, ListedKind(f), spelling, item);
      ListedKindSpelled(f, arm);
      UnitApplied(p, arm, item, at, onDisk);
      UnitLists(p.unit, arm, item.flag, if arm.HasForm() then ValueOf(arm.form, item.operand) else None, onDisk);
    }
  }

  lemma ListedField(f: Listed, args: seq<string>, onDisk: string -> bool)
    ensures ListedOf(f)(Parsed(args, onDisk)) == Present(Readings(Items(args, TakesOperand), ListedSpelling(f)))
  {
    var items := Items(args, TakesOperand);
    forall item: Item
      ensures SpelledAt(Classify, ListedKind(f), ListedSpelling(f), item)
    {
      ListedKindSpelled(f, Classify(item.flag));
      ArmIsSpelling(item.flag, ListedSpelling(f));
    }
    ListedSteps(f, Classify, ListedSpelling(f), onDisk);
    FieldFolds(ListedOf(f), Push, ListedSpelling(f), Applier(onDisk), EMPTY, items, 0);
    FoldPushes([], Readings(items, ListedSpelling(f)));
    AppendEmpty(Present(Readings(items, ListedSpelling(f))));
  }

  /** Each list field holds the values of the options of its own spelling, in order, and nothing else. */
  lemma ListFields(args: seq<string>, onDisk: string -> bool)
    ensures var (u, items) := (Parsed(args, onDisk).unit, Items(args, TakesOperand));
      && u.crateTypes == Present(Readings(items, Joined("--crate-type")))
      && u.linkSearch == Present(Readings(items, Attached("-L")))
      && u.linkLibs == Present(Readings(items, Attached("-l")))
      && u.unstableFlags == Present(Readings(items, Attached("-Z")))
      && u.remapPathPrefixes == Present(Readings(items, Joined("--remap-path-prefix")))
      && u.cfgs == Present(Readings(items, Joined("--cfg")))
  {
    ListedField(CrateTypes, args, onDisk);
    ListedField(LinkSearches, args, onDisk);
    ListedField(LinkLibraries, args, onDisk);
    ListedField(UnstableFlags, args, onDisk);
    ListedField(RemapPrefixes, args, onDisk);
    ListedField(Cfgs, args, onDisk);
  }

  // ---- The fields that take a value apart ----

  /** How the unit's field answers to one arm. */
  predicate UnitStepAt<T(==)>(field: Unit -> T, step: (T, Option<string>) -> T, kind: Arm -> bool,
                              u: Unit, arm: Arm, flag: string, value: Option<string>, onDisk: string -> bool) {
    field(ApplyUnit(u, arm, flag, value, onDisk)) == if kind(arm) then step(field(u), value) else field(u)
  }

  ghost predicate UnitSteps<T(!new)>(field: Unit -> T, step: (T, Option<string>) -> T, kind: Arm -> bool,
                                     onDisk: string -> bool) {
    forall u, arm, flag, value :: UnitStepAt(field, step, kind, u, arm, flag, value, onDisk)
  }

  predicate KindAt(kind: Arm -> bool, spelling: Spelling, arm: Arm) {
    && (SpellingOf(arm) == Some(spelling) <==> kind(arm))
    && (kind(arm) ==> arm.HasForm() && UnitArm(arm))
  }

  ghost predicate KindOf(kind: Arm -> bool, spelling: Spelling) {
    IsSpelling(spelling) && forall arm :: KindAt(kind, spelling, arm)
  }

  lemma UnitFieldSteps<T(!new)>(field: Unit -> T, step: (T, Option<string>) -> T, kind: Arm -> bool,
                                classify: string -> Arm, spelling: Spelling, onDisk: string -> bool)
    requires UnitSteps(field, step, kind, onDisk) && Spells(classify, kind, spelling) && KindOf(kind, spelling)
    ensures Steps((p: Record) => field(p.unit), step, spelling, ArmApplier(classify, onDisk))
  {
    var ofRecord := (p: Record) => field(p.unit);
    forall p: Record, item: Item, at: nat
      ensures StepsAt(ofRecord, step, spelling, ArmApplier(classify, onDisk), p, item, at)
    {
      var arm := classify(item.flag);
      var value := if arm.HasForm() then ValueOf(arm.form, item.operand) else None;
      assert SpelledAt(classify, kind, spelling, item) && KindAt(kind, spelling, arm);
      UnitApplied(p, arm, item, at, onDisk);
      assert UnitStepAt(field, step, kind, p.unit, arm, item.flag, value, onDisk);
    }
  }

  lemma UnitField<T(!new)>(field: Unit -> T, step: (T, Option<string>) -> T, kind: Arm -> bool, spelling: Spelling,
                           args: seq<string>, onDisk: string -> bool)
    requires UnitSteps(field, step, kind, onDisk) && KindOf(kind, spelling)
    ensures field(Parsed(args, onDisk).unit)
         == FoldReadings(step, field(NO_UNIT), Readings(Items(args, TakesOperand), spelling))
  {
    forall item: Item
      ensures SpelledAt(Classify, kind, spelling, item)
    {
      assert KindAt(kind, spelling, Classify(item.flag));
      ArmIsSpelling(item.flag, spelling);
    }
    UnitFieldSteps(field, step, kind, Classify, spelling, onDisk);
    FieldFolds((p: Record) => field(p.unit), step, spelling, Applier(onDisk), EMPTY, Items(args, TakesOperand), 0);
  }

  function PushJob(jobs: seq<string>, v: Option<string>): seq<string> {
    jobs + [if v.Some? then v.value else ""]
  }

  function PushExtern(externs: seq<ExternDep>, v: Option<string>): seq<ExternDep> {
    if v.Some? then externs + [ParseExtern(v.value)] else externs
  }

  function PushFeature(features: seq<string>, v: Option<string>): seq<string> {
    if v.Some? then Push(features, ParseFeatureCfg(v.value)) else features
  }

  function PushEmit(emitted: Emitted, v: Option<string>): Emitted {
    if v.Some? then EmitParts(emitted, v.value) else emitted
  }

  /** Frontend jobs in order, a missing value as an empty one. */
  function JobsOf(readings: seq<Option<string>>): (jobs: seq<string>) {
    seq(|readings|, i requires 0 <= i < |readings| => if readings[i].Some? then readings[i].value else "")
  }

  function ExternsOf(values: seq<string>): (externs: seq<ExternDep>) {
    seq(|values|, i requires 0 <= i < |values| => ParseExtern(values[i]))
  }

  /** The features among the cfg values, in order. */
  function FeaturesOf(values: seq<string>): (features: seq<string>) {
    if values == [] then []
    else (if ParseFeatureCfg(values[0]).Some? then [ParseFeatureCfg(values[0]).value] else []) + FeaturesOf(values[1..])
  }

  function EmitAll(emitted: Emitted, values: seq<string>): (r: Emitted)
    decreases |values|
  {
    if values == [] then emitted else EmitAll(EmitParts(emitted, values[0]), values[1..])
  }

  lemma {:induction false} FoldJobs(init: seq<string>, readings: seq<Option<string>>)
    ensures FoldReadings(PushJob, init, readings) == init + JobsOf(readings)
    decreases |readings|
  {
    if readings == [] {
      AppendEmpty(init);
    } else {
      var job := if readings[0].Some? then readings[0].value else "";
      FoldJobs(PushJob(init, readings[0]), readings[1..]);
      assert JobsOf(readings) == [job] + JobsOf(readings[1..]);
      AppendAssoc(init, [job], JobsOf(readings[1..]));
    }
  }

  lemma {:induction false} FoldExterns(init: seq<ExternDep>, readings: seq<Option<string>>)
    ensures FoldReadings(PushExtern, init, readings) == init + ExternsOf(Present(readings))
    decreases |readings|
  {
    if readings == [] {
      AppendEmpty(init);
    } else {
      FoldExterns(PushExtern(init, readings[0]), readings[1..]);
      var rest := Present(readings[1..]);
      match readings[0]
      case None => AppendEmpty(rest);
      case Some(v) =>
        assert ExternsOf([v] + rest) == [ParseExtern(v)] + ExternsOf(rest);
        AppendAssoc(init, [ParseExtern(v)], ExternsOf(rest));
    }
  }

  lemma {:induction false} FoldFeatures(init: seq<string>, readings: seq<Option<string>>)
    ensures FoldReadings(PushFeature, init, readings) == init + FeaturesOf(Present(readings))
    decreases |readings|
  {
    if readings == [] {
      AppendEmpty(init);
    } else {
      FoldFeatures(PushFeature(init, readings[0]), readings[1..]);
      var rest := Present(readings[1..]);
      match readings[0]
      case None => AppendEmpty(rest);
      case Some(v) =>
        ConsTail(v, rest);
        AppendEmpty(FeaturesOf(rest));
        if ParseFeatureCfg(v).Some? {
          AppendAssoc(init, [ParseFeatureCfg(v).value], FeaturesOf(rest));
        }
    }
  }

  lemma {:induction false} FoldEmits(init: Emitted, readings: seq<Option<string>>)
    ensures FoldReadings(PushEmit, init, readings) == EmitAll(init, Present(readings))
    decreases |readings|
  {
    if readings != [] {
      FoldEmits(PushEmit(init, readings[0]), readings[1..]);
      var rest := Present(readings[1..]);
      match readings[0]
      case None => AppendEmpty(rest);
      case Some(v) => ConsTail(v, rest);
    }
  }

  lemma JobsAnswer(onDisk: string -> bool)
    ensures UnitSteps((u: Unit) => u.frontendJobs, PushJob, (arm: Arm) => arm.JobsFrontend?, onDisk)
    ensures KindOf((arm: Arm) => arm.JobsFrontend?, Joined("--jobs-frontend"))
  {
    var (field, kind) := ((u: Unit) => u.frontendJobs, (arm: Arm) => arm.JobsFrontend?);
    forall u: Unit, arm: Arm, flag: string, value: Option<string>
      ensures UnitStepAt(field, PushJob, kind, u, arm, flag, value, onDisk)
    {
    }
    forall arm: Arm
      ensures KindAt(kind, Joined("--jobs-frontend"), arm)
    {
    }
  }

  lemma ExternsAnswer(onDisk: string -> bool)
    ensures UnitSteps((u: Unit) => u.externs, PushExtern, (arm: Arm) => arm.Extern?, onDisk)
    ensures KindOf((arm: Arm) => arm.Extern?, Joined("--extern"))
  {
    var (field, kind) := ((u: Unit) => u.externs, (arm: Arm) => arm.Extern?);
    forall u: Unit, arm: Arm, flag: string, value: Option<string>
      ensures UnitStepAt(field, PushExtern, kind, u, arm, flag, value, onDisk)
    {
    }
    forall arm: Arm
      ensures KindAt(kind, Joined("--extern"), arm)
    {
    }
  }

  lemma FeaturesAnswer(onDisk: string -> bool)
    ensures UnitSteps((u: Unit) => u.features, PushFeature, (arm: Arm) => arm.Cfg?, onDisk)
    ensures KindOf((arm: Arm) => arm.Cfg?, Joined("--cfg"))
  {
    var (field, kind) := ((u: Unit) => u.features, (arm: Arm) => arm.Cfg?);
    forall u: Unit, arm: Arm, flag: string, value: Option<string>
      ensures UnitStepAt(field, PushFeature, kind, u, arm, flag, value, onDisk)
    {
    }
    forall arm: Arm
      ensures KindAt(kind, Joined("--cfg"), arm)
    {
    }
  }

  lemma EmitAnswers(onDisk: string -> bool)
    ensures UnitSteps((u: Unit) => u.emitted, PushEmit, (arm: Arm) => arm.Emit?, onDisk)
    ensures KindOf((arm: Arm) => arm.Emit?, Joined("--emit"))
  {
    var (field, kind) := ((u: Unit) => u.emitted, (arm: Arm) => arm.Emit?);
    forall u: Unit, arm: Arm, flag: string, value: Option<string>
      ensures UnitStepAt(field, PushEmit, kind, u, arm, flag, value, onDisk)
    {
    }
    forall arm: Arm
      ensures KindAt(kind, Joined("--emit"), arm)
    {
    }
  }

  /** The fields made from parts of values: jobs, extern crates, features and what is emitted. */
  lemma ComposedFields(args: seq<string>, onDisk: string -> bool)
    ensures var (u, items) := (Parsed(args, onDisk).unit, Items(args, TakesOperand));
      && u.frontendJobs == JobsOf(Readings(items, Joined("--jobs-frontend")))
      && u.externs == ExternsOf(Present(Readings(items, Joined("--extern"))))
      && u.features == FeaturesOf(Present(Readings(items, Joined("--cfg"))))
      && u.emitted == EmitAll(Emitted([], None, false), Present(Readings(items, Joined("--emit"))))
  {
    var items := Items(args, TakesOperand);
    JobsField(args, onDisk);
    ExternsField(args, onDisk);
    FeaturesField(args, onDisk);
    EmitField(args, onDisk);
  }

  lemma JobsField(args: seq<string>, onDisk: string -> bool)
    ensures Parsed(args, onDisk).unit.frontendJobs
         == JobsOf(Readings(Items(args, TakesOperand), Joined("--jobs-frontend")))
  {
    var readings := Readings(Items(args, TakesOperand), Joined("--jobs-frontend"));
    JobsAnswer(onDisk);
    UnitField((u: Unit) => u.frontendJobs, PushJob, (arm: Arm) => arm.JobsFrontend?, Joined("--jobs-frontend"),
              args, onDisk);
    FoldJobs([], readings);
    AppendEmpty(JobsOf(readings));
  }

  lemma ExternsField(args: seq<string>, onDisk: string -> bool)
    ensures Parsed(args, onDisk).unit.externs
         == ExternsOf(Present(Readings(Items(args, TakesOperand), Joined("--extern"))))
  {
    var readings := Readings(Items(args, TakesOperand), Joined("--extern"));
    ExternsAnswer(onDisk);
    UnitField((u: Unit) => u.externs, PushExtern, (arm: Arm) => arm.Extern?, Joined("--extern"), args, onDisk);
    FoldExterns([], readings);
    AppendEmpty(ExternsOf(Present(readings)));
  }

  lemma FeaturesField(args: seq<string>, onDisk: string -> bool)
    ensures Parsed(args, onDisk).unit.features
         == FeaturesOf(Present(Readings(Items(args, TakesOperand), Joined("--cfg"))))
  {
    var readings := Readings(Items(args, TakesOperand), Joined("--cfg"));
    FeaturesAnswer(onDisk);
    UnitField((u: Unit) => u.features, PushFeature, (arm: Arm) => arm.Cfg?, Joined("--cfg"), args, onDisk);
    FoldFeatures([], readings);
    AppendEmpty(FeaturesOf(Present(readings)));
  }

  lemma EmitField(args: seq<string>, onDisk: string -> bool)
    ensures Parsed(args, onDisk).unit.emitted
         == EmitAll(Emitted([], None, false), Present(Readings(Items(args, TakesOperand), Joined("--emit"))))
  {
    var readings := Readings(Items(args, TakesOperand), Joined("--emit"));
    EmitAnswers(onDisk);
    UnitField((u: Unit) => u.emitted, PushEmit, (arm: Arm) => arm.Emit?, Joined("--emit"), args, onDisk);
    FoldEmits(Emitted([], None, false), readings);
  }

  // ---- The fields that look at whole items ----

  function FoldItems<T>(step: (T, Item) -> T, init: T, items: seq<Item>): (r: T)
    decreases |items|
  {
    if items == [] then init else FoldItems(step, step(init, items[0]), items[1..])
  }

  predicate ViewAt<T(==)>(view: Record -> T, step: (T, Item) -> T, apply: (Record, Item, nat) -> Record,
                          p: Record, item: Item, at: nat) {
    view(apply(p, item, at)) == step(view(p), item)
  }

  ghost predicate ViewSteps<T(!new)>(view: Record -> T, step: (T, Item) -> T, apply: (Record, Item, nat) -> Record) {
    forall p, item, at :: ViewAt(view, step, apply, p, item, at)
  }

  lemma {:induction false} ViewFolds<T(!new)>(
      view: Record -> T, step: (T, Item) -> T, apply: (Record, Item, nat) -> Record,
      p: Record, items: seq<Item>, at: nat)
    requires ViewSteps(view, step, apply)
    ensures view(Fold(p, items, at, apply)) == FoldItems(step, view(p), items)
    decreases |items|
  {
    if items != [] {
      assert ViewAt(view, step, apply, p, items[0], at);
      ViewFolds(view, step, apply, apply(p, items[0], at), items[1..], at + |Tokens(items[0])|);
    }
  }

  // Tests and queries.

  /** Holds from the first picked item on. */
  function Latch(pick: Item -> bool): (r: (bool, Item) -> bool) {
    (b: bool, item: Item) => b || pick(item)
  }

  lemma {:induction false} FoldAny(pick: Item -> bool, init: bool, items: seq<Item>)
    ensures FoldItems(Latch(pick), init, items) <==> init || exists item :: item in items && pick(item)
    decreases |items|
  {
    if items != [] {
      FoldAny(pick, init || pick(items[0]), items[1..]);
      assert forall item :: item in items <==> item == items[0] || item in items[1..];
    }
  }

  function TestView(p: Record): bool {
    p.unit.isTest
  }

  function QueryView(p: Record): bool {
    p.unit.isQuery
  }

  lemma UnitFlags(u: Unit, arm: Arm, flag: string, value: Option<string>, onDisk: string -> bool)
    ensures var r := ApplyUnit(u, arm, flag, value, onDisk);
      && r.isTest == (u.isTest || arm.Test?)
      && r.isQuery == (u.isQuery || arm.Query? || arm.QueryValue?)
  {
  }

  predicate IsTestItem(item: Item) {
    item.flag == "--test"
  }

  predicate IsQueryItem(item: Item) {
    IsQuery(item.flag)
  }

  lemma FlagSteps(onDisk: string -> bool)
    ensures ViewSteps(TestView, Latch(IsTestItem), Applier(onDisk))
    ensures ViewSteps(QueryView, Latch(IsQueryItem), Applier(onDisk))
  {
    forall p: Record, item: Item, at: nat
      ensures ViewAt(TestView, Latch(IsTestItem), Applier(onDisk), p, item, at)
      ensures ViewAt(QueryView, Latch(IsQueryItem), Applier(onDisk), p, item, at)
    {
      FlagsApplied(p, item, at, onDisk);
    }
  }

  lemma TestArm(arm: Arm)
    ensures SpellingOf(arm) == Some(Exact("--test")) <==> arm.Test?
  {
  }

  lemma FlagsApplied(p: Record, item: Item, at: nat, onDisk: string -> bool)
    ensures var r := Applier(onDisk)(p, item, at).unit;
      r.isTest == (p.unit.isTest || IsTestItem(item)) && r.isQuery == (p.unit.isQuery || IsQueryItem(item))
  {
    var arm := Classify(item.flag);
    var value := if arm.HasForm() then ValueOf(arm.form, item.operand) else None;
    UnitApplied(p, arm, item, at, onDisk);
    UnitFlags(p.unit, arm, item.flag, value, onDisk);
    Kinds(item.flag);
    TestArm(arm);
    ArmIsSpelling(item.flag, Exact("--test"));
  }

  /** A test is asked for by `--test`, and a query by the query flags, anywhere in argv. */
  lemma TestAndQuery(args: seq<string>, onDisk: string -> bool)
    ensures var (u, items) := (Parsed(args, onDisk).unit, Items(args, TakesOperand));
      && (u.isTest <==> exists item :: item in items && item.flag == "--test")
      && (u.isQuery <==> exists item :: item in items && IsQuery(item.flag))
  {
    var items := Items(args, TakesOperand);
    FlagSteps(onDisk);
    ViewFolds(TestView, Latch(IsTestItem), Applier(onDisk), EMPTY, items, 0);
    ViewFolds(QueryView, Latch(IsQueryItem), Applier(onDisk), EMPTY, items, 0);
    FoldAny(IsTestItem, false, items);
    FoldAny(IsQueryItem, false, items);
    assert TestView(Parsed(args, onDisk)) <==> exists item :: item in items && IsTestItem(item);
    assert QueryView(Parsed(args, onDisk)) <==> exists item :: item in items && IsQueryItem(item);
  }

  // The source file and what is left over.

  /** The flags of the items no option is spelled like, in order. */
  ghost function OtherFlags(items: seq<Item>): (flags: seq<string>) {
    if items == [] then []
    else (if Recognised(items[0].flag) then [] else [items[0].flag]) + OtherFlags(items[1..])
  }

  predicate SourceLike(flag: string, onDisk: string -> bool) {
    !StartsWith(flag, "-") && (EndsWith(flag, ".rs") || onDisk(flag))
  }

  function FirstSource(flags: seq<string>, onDisk: string -> bool): (r: Option<string>) {
    if flags == [] then None
    else if SourceLike(flags[0], onDisk) then Some(flags[0])
    else FirstSource(flags[1..], onDisk)
  }

  function WithoutSource(flags: seq<string>, onDisk: string -> bool): (r: seq<string>) {
    if flags == [] then []
    else if SourceLike(flags[0], onDisk) then flags[1..]
    else [flags[0]] + WithoutSource(flags[1..], onDisk)
  }

  /** The source file and the residual arguments once `flags` have been placed. */
  function PlaceFlags(v: (Option<string>, seq<string>), flags: seq<string>, onDisk: string -> bool)
    : (r: (Option<string>, seq<string>))
  {
    if v.0.Some? then (v.0, v.1 + flags)
    else (FirstSource(flags, onDisk), v.1 + WithoutSource(flags, onDisk))
  }

  function PlaceView(p: Record): (Option<string>, seq<string>) {
    (p.unit.sourceFile, p.unit.residualArgs)
  }

  lemma UnitPlaces(u: Unit, arm: Arm, flag: string, value: Option<string>, onDisk: string -> bool)
    ensures var r := ApplyUnit(u, arm, flag, value, onDisk);
      !arm.Other? ==> r.sourceFile == u.sourceFile && r.residualArgs == u.residualArgs
    ensures arm.Other? ==> ApplyUnit(u, arm, flag, value, onDisk) == RecordOther(u, flag, onDisk)
  {
  }

  lemma OneFlag(flag: string, onDisk: string -> bool)
    ensures FirstSource([flag], onDisk) == if SourceLike(flag, onDisk) then Some(flag) else None
    ensures WithoutSource([flag], onDisk) == if SourceLike(flag, onDisk) then [] else [flag]
  {
    var flags := [flag];
    Seqs.Single(flags);
    assert FirstSource([], onDisk) == None;
    assert WithoutSource([], onDisk) == [];
  }

  lemma PlacedOne(u: Unit, flag: string, onDisk: string -> bool)
    ensures var r := RecordOther(u, flag, onDisk);
      (r.sourceFile, r.residualArgs) == PlaceFlags((u.sourceFile, u.residualArgs), [flag], onDisk)
  {
    OneFlag(flag, onDisk);
    AppendEmpty(u.residualArgs);
  }

  lemma PlaceMore(v: (Option<string>, seq<string>), flag: string, rest: seq<string>, onDisk: string -> bool)
    ensures PlaceFlags(PlaceFlags(v, [flag], onDisk), rest, onDisk) == PlaceFlags(v, [flag] + rest, onDisk)
  {
    OneFlag(flag, onDisk);
    ConsTail(flag, rest);
    AppendEmpty(v.1);
    AppendAssoc(v.1, [flag], rest);
    AppendAssoc(v.1, [flag], WithoutSource(rest, onDisk));
  }

  lemma PlaceNone(v: (Option<string>, seq<string>), onDisk: string -> bool)
    ensures PlaceFlags(v, [], onDisk) == v
  {
    AppendEmpty(v.1);
  }

  lemma PlaceApplied(p: Record, item: Item, at: nat, onDisk: string -> bool)
    ensures PlaceView(Applier(onDisk)(p, item, at))
         == if Recognised(item.flag) then PlaceView(p) else PlaceFlags(PlaceView(p), [item.flag], onDisk)
  {
    var arm := Classify(item.flag);
    var value := if arm.HasForm() then ValueOf(arm.form, item.operand) else None;
    OtherIsUnrecognised(item.flag);
    UnitApplied(p, arm, item, at, onDisk);
    UnitPlaces(p.unit, arm, item.flag, value, onDisk);
    PlacedOne(p.unit, item.flag, onDisk);
  }

  lemma {:induction false} PlaceFolds(p: Record, items: seq<Item>, at: nat, onDisk: string -> bool)
    ensures PlaceView(Fold(p, items, at, Applier(onDisk))) == PlaceFlags(PlaceView(p), OtherFlags(items), onDisk)
    decreases |items|
  {
    if items == [] {
      PlaceNone(PlaceView(p), onDisk);
    } else {
      var (item, rest) := (items[0], OtherFlags(items[1..]));
      var p' := Applier(onDisk)(p, item, at);
      PlaceApplied(p, item, at, onDisk);
      PlaceFolds(p', items[1..], at + |Tokens(item)|, onDisk);
      AppendEmpty(rest);
      PlaceMore(PlaceView(p), item.flag, rest, onDisk);
    }
  }

  /** Of the unrecognised flags the first that looks like a source is the source file; the others are kept in order. */
  lemma SourceAndResidue(args: seq<string>, onDisk: string -> bool)
    ensures var (u, flags) := (Parsed(args, onDisk).unit, OtherFlags(Items(args, TakesOperand)));
      u.sourceFile == FirstSource(flags, onDisk) && u.residualArgs == WithoutSource(flags, onDisk)
  {
    var flags := OtherFlags(Items(args, TakesOperand));
    PlaceFolds(EMPTY, Items(args, TakesOperand), 0, onDisk);
    AppendEmpty(WithoutSource(flags, onDisk));
  }
}
