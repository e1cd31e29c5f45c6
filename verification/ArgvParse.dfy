/** The rustc argument parser: first-match classification of each token, then its effect on the record. */
module ArgvParse {
  import opened Text
  import opened ArgvItems

  /** Where a value option finds its value: in the next token, or in this one. */
  datatype Form = Next | Here(value: string)

  /** The arms of the parser's match. Arms the source can never reach have no constructor. */
  datatype Arm =
    | CrateName(form: Form)
    | CrateType(form: Form)
    | OutputFile(form: Form)
    | OutDir(form: Form)
    | Emit(form: Form)
    | Target(form: Form)
    | Edition(form: Form)
    | Extern(form: Form)
    | Cfg(form: Form)
    | Test
    | Codegen(form: Form)
    | Optimize
    | Debug
    | Sysroot(form: Form)
    | LinkSearch(form: Form)
    | LinkLib(form: Form)
    | JobsFrontend(form: Form)
    | Unstable(form: Form)
    | Remap(form: Form)
    | QueryValue(form: Form)
    | Query
    | Lint(form: Form)
    | Diagnostic(form: Form)
    | Quiet
    | Other
  {
    predicate HasForm() {
      !Test? && !Optimize? && !Debug? && !Query? && !Quiet? && !Other?
    }

    predicate TakesNext() {
      HasForm() && form.Next?
    }
  }

  const OUTCOME_AFFECTING_VALUE_FLAGS: set<string> :=
    {"-W", "--warn", "-A", "--allow", "-D", "--deny", "-F", "--forbid", "--force-warn", "--cap-lints", "--check-cfg"}

  const DIAGNOSTIC_VALUE_FLAGS: set<string> :=
    {"--error-format", "--json", "--color", "--diagnostic-width"}

  /**
   A token has one of four shapes, and every pattern of the parser's match applies to one shape only:
   exact names and `--name=` prefixes to the long shapes, letters and letter prefixes to the short one.
   So matching the shape first and keeping the source's order within a shape is the source's first match.
   */
  datatype Shape = Plain | Short(letter: char, rest: string) | Long | LongWith(name: string, value: string)

  function ShapeOf(arg: string): (shape: Shape) {
    if |arg| < 2 || arg[0] != '-' then Plain
    else if arg[1] != '-' then Short(arg[1], arg[2..])
    else
      match SplitOnce(arg, '=')
      case None => Long
      case Some((name, value)) => LongWith(name, value)
  }

  /** The shape `LongWith(name, _)` is exactly `arg.starts_with("<name>=")`. */
  lemma LongWithIsPrefix(arg: string, name: string)
    requires StartsWith(name, "--") && '=' !in name
    ensures StartsWith(arg, name + "=") <==> ShapeOf(arg).LongWith? && ShapeOf(arg).name == name
    ensures StartsWith(arg, name + "=") ==> ShapeOf(arg).value == arg[|name| + 1..]
  {
    PrefixIsSplit(arg, name, '=');
    SplitOnceParts(arg, '=');
    if StartsWith(arg, name + "=") {
      assert arg[0] == name[0] && arg[1] == name[1];
    }
  }

  /** The long tokens written out in full in the match. */
  function ClassifyLong(arg: string): (arm: Arm) {
    if arg == "--crate-name" then CrateName(Next)
    else if arg == "--crate-type" then CrateType(Next)
    else if arg == "--out-dir" then OutDir(Next)
    else if arg == "--emit" then Emit(Next)
    else if arg == "--target" then Target(Next)
    else if arg == "--edition" then Edition(Next)
    else if arg == "--extern" then Extern(Next)
    else if arg == "--cfg" then Cfg(Next)
    else if arg == "--test" then Test
    else if arg == "--codegen" then Codegen(Next)
    else if arg == "--sysroot" then Sysroot(Next)
    else if arg == "--jobs-frontend" then JobsFrontend(Next)
    else if arg == "--remap-path-prefix" then Remap(Next)
    else if arg == "--print" || arg == "--explain" then QueryValue(Next)
    else if arg == "--version" || arg == "--help" then Query
    else if arg in OUTCOME_AFFECTING_VALUE_FLAGS then Lint(Next)
    else if arg in DIAGNOSTIC_VALUE_FLAGS then Diagnostic(Next)
    else if arg == "--verbose" then Quiet
    else Other
  }

  /** The `--name=value` tokens of the match. `--out-dir=` has no arm of its own. */
  function ClassifyLongWith(arg: string, name: string, value: string): (arm: Arm) {
    if name == "--emit" then Emit(Here(value))
    else if name == "--crate-type" then CrateType(Here(value))
    else if name == "--crate-name" then CrateName(Here(value))
    else if name == "--target" then Target(Here(value))
    else if name == "--edition" then Edition(Here(value))
    else if name == "--extern" then Extern(Here(value))
    else if name == "--cfg" then Cfg(Here(value))
    else if name == "--codegen" then Codegen(Here(value))
    else if name == "--sysroot" then Sysroot(Here(value))
    else if name == "--jobs-frontend" then JobsFrontend(Here(value))
    else if name == "--remap-path-prefix" then Remap(Here(value))
    else if name == "--print" || name == "--explain" then QueryValue(Here(value))
    else if name in OUTCOME_AFFECTING_VALUE_FLAGS then Lint(Here(arg))
    else if name in DIAGNOSTIC_VALUE_FLAGS then Diagnostic(Here(arg))
    else Other
  }

  /** The single-dash tokens of the match. */
  function ClassifyShort(arg: string, letter: char, rest: string): (arm: Arm) {
    var form := if rest == "" then Next else Here(rest);
    if letter == 'o' && rest == "" then OutputFile(Next)
    else if letter == 'C' then Codegen(form)
    else if letter == 'O' && rest == "" then Optimize
    else if letter == 'g' && rest == "" then Debug
    else if letter == 'L' then LinkSearch(form)
    else if letter == 'l' then LinkLib(form)
    else if letter == 'Z' then Unstable(form)
    else if (letter == 'V' && rest == "") || (letter == 'h' && rest == "") || (letter == 'v' && rest == "V") then Query
    else if letter in {'W', 'A', 'D', 'F'} then Lint(if rest == "" then Next else Here(arg))
    else if letter == 'v' && rest == "" then Quiet
    else Other
  }

  function Classify(arg: string): (arm: Arm) {
    match ShapeOf(arg)
    case Plain => Other
    case Short(letter, rest) => ClassifyShort(arg, letter, rest)
    case Long => ClassifyLong(arg)
    case LongWith(name, value) => ClassifyLongWith(arg, name, value)
  }

  predicate TakesOperand(arg: string) {
    Classify(arg).TakesNext()
  }

  predicate DiagnosticItem(item: Item) {
    Classify(item.flag).Diagnostic?
  }

  // ---- The parsed record ----

  datatype ExternDep = ExternDep(name: string, path: Option<string>)

  /** The codegen options in argv order, and the two of them the record also keeps by name. */
  datatype CodegenOptions = CodegenOptions(
    options: seq<(string, Option<string>)>,
    extraFilename: Option<string>,
    incremental: Option<string>)

  /** The diagnostic options in argv order, and the argv positions they and their values were read from. */
  datatype Diagnostics = Diagnostics(flags: seq<string>, argIndices: seq<nat>)

  /** Every other field the loop writes. `isQuery` is the loop's own flag. */
  datatype Unit = Unit(
    crateName: Option<string>,
    crateTypes: seq<string>,
    output: Option<string>,
    outDir: Option<string>,
    emitted: Emitted,
    sourceFile: Option<string>,
    externs: seq<ExternDep>,
    target: Option<string>,
    edition: Option<string>,
    features: seq<string>,
    cfgs: seq<string>,
    sysroot: Option<string>,
    linkSearch: seq<string>,
    linkLibs: seq<string>,
    unstableFlags: seq<string>,
    frontendJobs: seq<string>,
    remapPathPrefixes: seq<string>,
    residualArgs: seq<string>,
    isTest: bool,
    isQuery: bool)

  /** The parsed record. argv itself is kept beside it. */
  datatype Record = Record(
    unit: Unit,
    codegen: CodegenOptions,
    outcomeLintFlags: seq<string>,
    diagnostics: Diagnostics)

  const NO_UNIT := Unit(None, [], None, None, Emitted([], None, false), None, [], None, None, [], [], None,
                        [], [], [], [], [], [], false, false)

  const EMPTY := Record(NO_UNIT, CodegenOptions([], None, None), [], Diagnostics([], []))

  function ParseExtern(value: string): ExternDep {
    var s := if StartsWith(value, "priv:") then value[5..]
             else if StartsWith(value, "noprelude:") then value[10..] else value;
    match SplitOnce(s, '=')
    case Some((name, path)) => ExternDep(name, Some(path))
    case None => ExternDep(s, None)
  }

  function ParseFeatureCfg(value: string): Option<string> {
    if StartsWith(value, "feature=\"") && EndsWith(value[9..], "\"") then Some(value[9..|value| - 1]) else None
  }

  function ParseCodegenOpt(value: string): (string, Option<string>) {
    match SplitOnce(value, '=')
    case Some((key, v)) => (key, Some(v))
    case None => (value, None)
  }

  function RecordCodegen(c: CodegenOptions, value: string): CodegenOptions {
    var (key, v) := ParseCodegenOpt(value);
    CodegenOptions(
      c.options + [(key, v)],
      if key == "extra-filename" then v else c.extraFilename,
      if key == "incremental" then v else c.incremental)
  }

  /** What `--emit` values write: the kinds, the dep-info destination, and whether any kind has a destination. */
  datatype Emitted = Emitted(kinds: seq<string>, depInfo: Option<string>, explicit: bool)

  /** One comma-separated part of an `--emit` value. */
  function EmitPart(e: Emitted, part: string): Emitted {
    match SplitOnce(part, '=')
    case None => e.(kinds := e.kinds + [part])
    case Some((kind, output)) =>
      Emitted(e.kinds + [kind], if kind == "dep-info" && output != "" then Some(output) else e.depInfo, true)
  }

  function EmitParts(e: Emitted, value: string): Emitted
    decreases |value|
  {
    match SplitOnce(value, ',')
    case None => EmitPart(e, value)
    case Some((part, rest)) =>
      SplitOnceParts(value, ',');
      EmitParts(EmitPart(e, part), rest)
  }

  function RecordCfg(u: Unit, value: string): Unit {
    match ParseFeatureCfg(value)
    case Some(feature) => u.(cfgs := u.cfgs + [value], features := u.features + [feature])
    case None => u.(cfgs := u.cfgs + [value])
  }

  /** The source file is the first bare token that ends in `.rs` or names an existing path; the rest is residual. */
  function RecordOther(u: Unit, arg: string, onDisk: string -> bool): Unit {
    if !StartsWith(arg, "-") && u.sourceFile.None? && (EndsWith(arg, ".rs") || onDisk(arg)) then
      u.(sourceFile := Some(arg))
    else
      u.(residualArgs := u.residualArgs + [arg])
  }

  function Push(s: seq<string>, value: Option<string>): seq<string> {
    match value case Some(v) => s + [v] case None => s
  }

  /** The option's value: attached to the token, or the operand it consumed. */
  function ValueOf(form: Form, operand: Option<string>): Option<string> {
    match form case Here(v) => Some(v) case Next => operand
  }

  /** The arms that write the unit's fields. */
  function ApplyUnit(u: Unit, arm: Arm, flag: string, value: Option<string>, onDisk: string -> bool): (r: Unit) {
    match arm
    case CrateName(_) => u.(crateName := value)
    case CrateType(_) => u.(crateTypes := Push(u.crateTypes, value))
    case OutputFile(_) => u.(output := value)
    case OutDir(_) => u.(outDir := value)
    case Emit(_) => (match value case Some(v) => u.(emitted := EmitParts(u.emitted, v)) case None => u)
    case Target(_) => u.(target := value)
    case Edition(_) => u.(edition := value)
    case Extern(_) => (match value case Some(v) => u.(externs := u.externs + [ParseExtern(v)]) case None => u)
    case Cfg(_) => (match value case Some(v) => RecordCfg(u, v) case None => u)
    case Test => u.(isTest := true)
    case Sysroot(_) => u.(sysroot := value)
    case LinkSearch(_) => u.(linkSearch := Push(u.linkSearch, value))
    case LinkLib(_) => u.(linkLibs := Push(u.linkLibs, value))
    case JobsFrontend(_) => u.(frontendJobs := u.frontendJobs + [if value.Some? then value.value else ""])
    case Unstable(_) => u.(unstableFlags := Push(u.unstableFlags, value))
    case Remap(_) => u.(remapPathPrefixes := Push(u.remapPathPrefixes, value))
    case QueryValue(_) => u.(isQuery := true)
    case Query => u.(isQuery := true)
    case Other => RecordOther(u, flag, onDisk)
    case _ => u
  }

  function ApplyDiagnostic(d: Diagnostics, item: Item, at: nat): (r: Diagnostics) {
    match item.operand
    case Some(v) => Diagnostics(d.flags + [item.flag + "=" + v], d.argIndices + [at, at + 1])
    case None => Diagnostics(d.flags + [item.flag], d.argIndices + [at])
  }

  function ApplyCodegen(c: CodegenOptions, arm: Arm, value: Option<string>): (r: CodegenOptions) {
    match arm
    case Codegen(_) => (match value case Some(v) => RecordCodegen(c, v) case None => c)
    case Optimize => c.(options := c.options + [("opt-level", Some("3"))])
    case Debug => c.(options := c.options + [("debuginfo", Some("2"))])
    case _ => c
  }

  /** The effect of an item that matched `arm` on the record; `at` is its position in argv. */
  function ApplyArm(p: Record, arm: Arm, item: Item, at: nat, onDisk: string -> bool): (r: Record) {
    var value := if arm.HasForm() then ValueOf(arm.form, item.operand) else None;
    if arm.Codegen? || arm.Optimize? || arm.Debug? then p.(codegen := ApplyCodegen(p.codegen, arm, value))
    else if arm.Lint? then p.(outcomeLintFlags := p.outcomeLintFlags + Tokens(item))
    else if arm.Diagnostic? then p.(diagnostics := ApplyDiagnostic(p.diagnostics, item, at))
    else p.(unit := ApplyUnit(p.unit, arm, item.flag, value, onDisk))
  }

  function Apply(p: Record, item: Item, at: nat, onDisk: string -> bool): (r: Record) {
    ApplyArm(p, Classify(item.flag), item, at, onDisk)
  }

  /** The step of the loop, under any first-match classification. */
  function ArmApplier(classify: string -> Arm, onDisk: string -> bool): (r: (Record, Item, nat) -> Record) {
    (p: Record, item: Item, at: nat) => ApplyArm(p, classify(item.flag), item, at, onDisk)
  }

  function Applier(onDisk: string -> bool): (r: (Record, Item, nat) -> Record) {
    ArmApplier(Classify, onDisk)
  }

  /** The record the loop leaves for an argument vector. */
  function Parsed(args: seq<string>, onDisk: string -> bool): (r: Record) {
    Fold(EMPTY, Items(args, TakesOperand), 0, Applier(onDisk))
  }

  /** The parse loop: each token is classified, takes its operand if its arm has one, and updates the record. */
  method Parse(args: seq<string>, onDisk: string -> bool) returns (p: Record)
    ensures p == Parsed(args, onDisk)
  {
    p := Scan(EMPTY, args, TakesOperand, Applier(onDisk));
  }
}
