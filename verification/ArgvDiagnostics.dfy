/** The re-scans of the parsed record that decide what diagnostics and lints contribute to the cache key. */
module ArgvDiagnostics {
  import opened Text
  import opened Seqs
  import opened ArgvItems
  import opened ArgvParse

  // ---- Dropping diagnostic presentation ----

  predicate OtherItem(item: Item) {
    !DiagnosticItem(item)
  }

  /** argv without the positions the parser recorded as diagnostic. */
  function ArgsWithoutDiagnosticPresentation(args: seq<string>, p: Record): (r: seq<string>) {
    WithoutPositions(args, 0, p.diagnostics.argIndices)
  }

  function ArgIndices(p: Record): (r: seq<nat>) {
    p.diagnostics.argIndices
  }

  lemma DiagnosticIndices(d: Diagnostics, item: Item, at: nat, pick: Item -> bool)
    ensures (if pick(item) then ApplyDiagnostic(d, item, at) else d).argIndices
            == d.argIndices + PositionsOf(pick)(item, at)
  {
    assert d.argIndices + [] == d.argIndices;
  }

  lemma IndicesGrow(onDisk: string -> bool)
    ensures Grows(ArgIndices, Applier(onDisk), PositionsOf(DiagnosticItem), TakesOperand)
  {
    forall p: Record, item: Item, at: nat
      ensures ArgIndices(Applier(onDisk)(p, item, at)) == ArgIndices(p) + PositionsOf(DiagnosticItem)(item, at)
    {
      assert Applier(onDisk)(p, item, at) == Apply(p, item, at, onDisk);
      DiagnosticIndices(p.diagnostics, item, at, DiagnosticItem);
    }
  }

  /** The recorded positions name whole diagnostic items, whatever their operands look like. */
  lemma DroppedPositionsAreItems(args: seq<string>, onDisk: string -> bool)
    ensures ArgsWithoutDiagnosticPresentation(args, Parsed(args, onDisk))
            == Flatten(Filter(Items(args, TakesOperand), OtherItem))
  {
    var items := Items(args, TakesOperand);
    FlattenItems(args, TakesOperand);
    IndicesGrow(onDisk);
    FoldCollects(ArgIndices, EMPTY, items, 0, Applier(onDisk), PositionsOf(DiagnosticItem), TakesOperand);
    WithoutPicked(items, 0, DiagnosticItem, OtherItem);
    AppendEmpty(Collect(items, 0, PositionsOf(DiagnosticItem)));
  }

  /** The second record is the first with its diagnostic fields emptied. */
  predicate Undiagnosed(p: Record, q: Record) {
    q == p.(diagnostics := Diagnostics([], []))
  }

  lemma UndiagnosedSimulates(onDisk: string -> bool)
    ensures Simulates(Undiagnosed, Applier(onDisk), OtherItem, TakesOperand)
  {
    forall p: Record, q: Record, item: Item, at: nat, to: nat
      ensures StaysRelated(Undiagnosed, Applier(onDisk), OtherItem, p, q, item, at, to)
    {
      assert Applier(onDisk)(p, item, at) == Apply(p, item, at, onDisk);
      assert Applier(onDisk)(q, item, to) == Apply(q, item, to, onDisk);
    }
  }

  /** Parsing argv without its diagnostic positions gives the same record with only the diagnostic fields emptied. */
  lemma {:induction false} DiagnosticsDropPreservesMeaning(args: seq<string>, onDisk: string -> bool)
    ensures Parsed(ArgsWithoutDiagnosticPresentation(args, Parsed(args, onDisk)), onDisk)
            == Parsed(args, onDisk).(diagnostics := Diagnostics([], []))
  {
    DroppedPositionsAreItems(args, onDisk);
    RetainedItemsRegroup(args, OtherItem, TakesOperand);
    FlattenItems(args, TakesOperand);
    UndiagnosedSimulates(onDisk);
    FoldFilter(Undiagnosed, EMPTY, EMPTY, Items(args, TakesOperand), 0, 0, Applier(onDisk), OtherItem, TakesOperand);
  }
}
