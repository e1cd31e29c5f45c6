/** What the parser takes from the text of a value, and from the codegen, lint and diagnostic options. */
module ArgvValues {
  import opened Text
  import opened Seqs
  import opened ArgvItems
  import opened ArgvParse
  import opened ArgvFlags
  import opened ArgvFields

  // ---- Values ----

  /** A codegen option is its text cut at the first `=`. */
  lemma CodegenOptionText(value: string)
    ensures var (key, v) := ParseCodegenOpt(value);
      '=' !in key && value == if v.Some? then key + "=" + v.value else key
  {
    SplitOnceParts(value, '=');
  }

  /** A feature is what stands between the quotes of `feature="..."`, and nothing else is one. */
  lemma FeatureText(value: string, feature: string)
    ensures ParseFeatureCfg(value) == Some(feature) <==> value == "feature=\"" + feature + "\""
  {
    var head := "feature=\"";
    if value == head + feature + "\"" {
      assert value[9..] == feature + "\"" && value[9..|value| - 1] == feature;
    }
    if ParseFeatureCfg(value) == Some(feature) {
      assert value[..9] == head && value[|value| - 1] == '"';
      assert value == value[..9] + value[9..|value| - 1] + [value[|value| - 1]];
    }
  }

  /** An extern is a name, and a path after the first `=` if there is one, with one marker before the name dropped. */
  lemma ExternText(marker: string, name: string, path: string)
    requires marker in {"", "priv:", "noprelude:"} && '=' !in name
    requires marker == "" ==> !StartsWith(name, "priv:") && !StartsWith(name, "noprelude:")
    ensures ParseExtern(marker + name) == ExternDep(name, None)
    ensures ParseExtern(marker + (name + "=" + path)) == ExternDep(name, Some(path))
  {
    SplitOnceParts(name, '=');
    SplitOnceOf(name, '=', path);
    MarkerDropped(marker, name);
    MarkerDropped(marker, name + "=" + path);
    if marker == "" {
      NoMarker(name, path, "priv:");
      NoMarker(name, path, "noprelude:");
    }
  }

  lemma MarkerDropped(marker: string, rest: string)
    ensures (marker + rest)[|marker|..] == rest && StartsWith(marker + rest, marker)
    ensures marker == "noprelude:" ==> !StartsWith(marker + rest, "priv:")
    ensures marker == "" ==> marker + rest == rest
  {
    assert marker == "noprelude:" ==> (marker + rest)[0] == 'n';
  }

  /** A value that starts with a marker has it in its name. */
  lemma NoMarker(name: string, path: string, marker: string)
    requires '=' !in marker && !StartsWith(name, marker)
    ensures !StartsWith(name + "=" + path, marker)
  {
    assert (name + "=" + path)[|name|] == '=';
  }

  // ---- Emitted kinds ----

  function JoinWith(parts: seq<string>, c: char): (r: string)
    requires parts != []
  {
    if |parts| == 1 then parts[0] else parts[0] + [c] + JoinWith(parts[1..], c)
  }

  /** What stands before the first `=`, all of it if there is none. */
  function PartKind(part: string): (r: string) {
    if SplitOnce(part, '=').Some? then SplitOnce(part, '=').value.0 else part
  }

  function PartKinds(parts: seq<string>): (r: seq<string>) {
    seq(|parts|, i requires 0 <= i < |parts| => PartKind(parts[i]))
  }

  /** The last destination given to dep-info, or the one there was before. */
  function LastDepInfo(before: Option<string>, parts: seq<string>): (r: Option<string>)
    decreases |parts|
  {
    if parts == [] then before
    else
      var last := parts[|parts| - 1];
      if StartsWith(last, "dep-info=") && |last| > 9 then Some(last[9..])
      else LastDepInfo(before, parts[..|parts| - 1])
  }

  function EmitFold(e: Emitted, parts: seq<string>): (r: Emitted)
    decreases |parts|
  {
    if parts == [] then e else EmitFold(EmitPart(e, parts[0]), parts[1..])
  }

  lemma {:induction false} EmitPartsFold(e: Emitted, parts: seq<string>)
    requires parts != [] && forall part :: part in parts ==> ',' !in part
    ensures EmitParts(e, JoinWith(parts, ',')) == EmitFold(e, parts)
    decreases |parts|
  {
    if |parts| == 1 {
      Seqs.Single(parts);
      SplitOnceParts(parts[0], ',');
    } else {
      SplitOnceOf(parts[0], ',', JoinWith(parts[1..], ','));
      EmitPartsFold(EmitPart(e, parts[0]), parts[1..]);
    }
  }

  lemma {:induction false} EmitFoldSnoc(e: Emitted, parts: seq<string>, part: string)
    ensures EmitFold(e, parts + [part]) == EmitPart(EmitFold(e, parts), part)
    decreases |parts|
  {
    if parts == [] {
      AppendEmpty([part]);
      Seqs.Single([part]);
    } else {
      AppendTail(parts, [part]);
      EmitFoldSnoc(EmitPart(e, parts[0]), parts[1..], part);
    }
  }

  lemma PartText(e: Emitted, part: string)
    ensures EmitPart(e, part).kinds == e.kinds + [PartKind(part)]
    ensures EmitPart(e, part).explicit <==> e.explicit || '=' in part
    ensures EmitPart(e, part).depInfo
         == if StartsWith(part, "dep-info=") && |part| > 9 then Some(part[9..]) else e.depInfo
  {
    SplitOnceParts(part, '=');
    PrefixIsSplit(part, "dep-info", '=');
    assert "dep-info=" == "dep-info" + ['='];
  }

  /** Of the comma-separated parts of a value, each gives its kind in order; the last destination of dep-info wins. */
  lemma {:induction false} EmitText(e: Emitted, parts: seq<string>)
    requires parts != [] && forall part :: part in parts ==> ',' !in part
    ensures var r := EmitParts(e, JoinWith(parts, ','));
      && r.kinds == e.kinds + PartKinds(parts)
      && r.depInfo == LastDepInfo(e.depInfo, parts)
      && (r.explicit <==> e.explicit || exists part :: part in parts && '=' in part)
  {
    EmitPartsFold(e, parts);
    EmitFolded(e, parts);
  }

  lemma {:induction false} EmitFolded(e: Emitted, parts: seq<string>)
    ensures var r := EmitFold(e, parts);
      && r.kinds == e.kinds + PartKinds(parts)
      && r.depInfo == LastDepInfo(e.depInfo, parts)
      && (r.explicit <==> e.explicit || exists part :: part in parts && '=' in part)
    decreases |parts|
  {
    if parts == [] {
      AppendEmpty(e.kinds);
    } else {
      var (front, last) := (parts[..|parts| - 1], parts[|parts| - 1]);
      assert parts == front + [last];
      EmitFolded(e, front);
      EmitFoldSnoc(e, front, last);
      PartText(EmitFold(e, front), last);
      assert PartKinds(parts) == PartKinds(front) + [PartKind(last)];
      AppendAssoc(e.kinds, PartKinds(front), [PartKind(last)]);
      assert forall part :: part in parts <==> part in front || part == last;
    }
  }

  // ---- Codegen options ----

  /** The options an item stands for: one of `-C` or `--codegen`, or a shorthand. */
  function OptionsIn(item: Item): (r: seq<(string, Option<string>)>) {
    if item.flag == "-O" then [("opt-level", Some("3"))]
    else if item.flag == "-g" then [("debuginfo", Some("2"))]
    else if IsCodegen(item.flag) && CodegenText(item).Some? then [ParseCodegenOpt(CodegenText(item).value)]
    else []
  }

  function OptionsOf(items: seq<Item>): (r: seq<(string, Option<string>)>) {
    if items == [] then [] else OptionsIn(items[0]) + OptionsOf(items[1..])
  }

  /** The value of the last option with that key. */
  function LastWith(options: seq<(string, Option<string>)>, key: string): (r: Option<string>) {
    if options == [] then None
    else
      var last := options[|options| - 1];
      if last.0 == key then last.1 else LastWith(options[..|options| - 1], key)
  }

  /** The two options kept by name are the last of their key. */
  predicate Consistent(c: CodegenOptions) {
    && c.extraFilename == LastWith(c.options, "extra-filename")
    && c.incremental == LastWith(c.options, "incremental")
  }

  lemma LastWithSnoc(options: seq<(string, Option<string>)>, option: (string, Option<string>), key: string)
    ensures LastWith(options + [option], key) == if option.0 == key then option.1 else LastWith(options, key)
  {
    SnocInit(options, option);
  }

  lemma ShorthandArms(flag: string)
    ensures Classify(flag).Optimize? <==> flag == "-O"
    ensures Classify(flag).Debug? <==> flag == "-g"
    ensures flag == "-O" || flag == "-g" ==> !IsCodegen(flag)
  {
    ArmIsSpelling(flag, Exact("-O"));
    ArmIsSpelling(flag, Exact("-g"));
    ShorthandSpellings(Classify(flag));
    Kinds(flag);
  }

  lemma ShorthandSpellings(arm: Arm)
    ensures SpellingOf(arm) == Some(Exact("-O")) <==> arm.Optimize?
    ensures SpellingOf(arm) == Some(Exact("-g")) <==> arm.Debug?
  {
  }

  lemma CodegenApplied(p: Record, arm: Arm, item: Item, at: nat, onDisk: string -> bool)
    ensures var value := if arm.HasForm() then ValueOf(arm.form, item.operand) else None;
      ApplyArm(p, arm, item, at, onDisk).codegen == ApplyCodegen(p.codegen, arm, value)
  {
  }

  lemma OptionAdded(c: CodegenOptions, arm: Arm, value: Option<string>, added: seq<(string, Option<string>)>)
    requires Consistent(c)
    requires added ==
      if arm.Codegen? && value.Some? then [ParseCodegenOpt(value.value)]
      else if arm.Optimize? then [("opt-level", Some("3"))]
      else if arm.Debug? then [("debuginfo", Some("2"))]
      else []
    ensures Consistent(ApplyCodegen(c, arm, value)) && ApplyCodegen(c, arm, value).options == c.options + added
  {
    AppendEmpty(c.options);
    if added != [] {
      LastWithSnoc(c.options, added[0], "extra-filename");
      LastWithSnoc(c.options, added[0], "incremental");
    }
  }

  lemma OptionsApplied(p: Record, item: Item, at: nat, onDisk: string -> bool)
    requires Consistent(p.codegen)
    ensures var c := Applier(onDisk)(p, item, at).codegen;
      Consistent(c) && c.options == p.codegen.options + OptionsIn(item)
  {
    var arm := Classify(item.flag);
    var value := if arm.HasForm() then ValueOf(arm.form, item.operand) else None;
    CodegenApplied(p, arm, item, at, onDisk);
    Kinds(item.flag);
    ShorthandArms(item.flag);
    if arm.Codegen? {
      CodegenReads(item);
    }
    OptionAdded(p.codegen, arm, value, OptionsIn(item));
  }

  lemma {:induction false} OptionsFold(p: Record, items: seq<Item>, at: nat, onDisk: string -> bool)
    requires Consistent(p.codegen)
    ensures var c := Fold(p, items, at, Applier(onDisk)).codegen;
      Consistent(c) && c.options == p.codegen.options + OptionsOf(items)
    decreases |items|
  {
    if items == [] {
      AppendEmpty(p.codegen.options);
    } else {
      OptionsApplied(p, items[0], at, onDisk);
      OptionsFold(Applier(onDisk)(p, items[0], at), items[1..], at + |Tokens(items[0])|, onDisk);
      AppendAssoc(p.codegen.options, OptionsIn(items[0]), OptionsOf(items[1..]));
    }
  }

  /** The codegen options are those of the codegen items and shorthands, in order; the named two are the last given. */
  lemma CodegenFields(args: seq<string>, onDisk: string -> bool)
    ensures var c := Parsed(args, onDisk).codegen;
      && c.options == OptionsOf(Items(args, TakesOperand))
      && c.extraFilename == LastWith(c.options, "extra-filename")
      && c.incremental == LastWith(c.options, "incremental")
  {
    OptionsFold(EMPTY, Items(args, TakesOperand), 0, onDisk);
    AppendEmpty(OptionsOf(Items(args, TakesOperand)));
  }
}
