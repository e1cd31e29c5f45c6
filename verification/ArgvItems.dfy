/**
 The option-item view of an argument vector. Which tokens take the next token as
 their operand is a parameter, so everything here holds for any operand-consuming scanner.
 */
module ArgvItems {
  import opened Text
  import opened Seqs

  /** One classified token, with the operand token it consumed, if any. */
  datatype Item = Item(flag: string, operand: Option<string>)

  function Tokens(item: Item): (r: seq<string>) {
    match item.operand
    case None => [item.flag]
    case Some(value) => [item.flag, value]
  }

  /** Left-to-right grouping of argv into items. A last operand-taking token may lack its operand. */
  function Items(args: seq<string>, takes: string -> bool): (r: seq<Item>) {
    if args == [] then []
    else if takes(args[0]) && |args| > 1 then
      [Item(args[0], Some(args[1]))] + Items(args[2..], takes)
    else
      [Item(args[0], None)] + Items(args[1..], takes)
  }

  function Flatten(items: seq<Item>): (r: seq<string>) {
    if items == [] then [] else Tokens(items[0]) + Flatten(items[1..])
  }

  /** An item list some argv groups into: only operand-taking flags carry operands, and only the last may lack one. */
  ghost predicate Formed(items: seq<Item>, takes: string -> bool) {
    forall i :: 0 <= i < |items| ==>
      && (items[i].operand.Some? ==> takes(items[i].flag))
      && (items[i].operand.None? && takes(items[i].flag) ==> i == |items| - 1)
  }

  /** `args` ends at an item boundary: no flag is still waiting for its operand. */
  predicate Whole(args: seq<string>, takes: string -> bool) {
    if args == [] then true
    else if takes(args[0]) then |args| > 1 && Whole(args[2..], takes)
    else Whole(args[1..], takes)
  }

  /** Grouping loses nothing. */
  lemma {:induction false} FlattenItems(args: seq<string>, takes: string -> bool)
    ensures Flatten(Items(args, takes)) == args
    ensures Formed(Items(args, takes), takes)
  {
    if args != [] {
      var rest := if takes(args[0]) && |args| > 1 then args[2..] else args[1..];
      FlattenItems(rest, takes);
      assert Items(args, takes)[1..] == Items(rest, takes);
    }
  }

  lemma FormedTail(items: seq<Item>, takes: string -> bool)
    requires Formed(items, takes) && items != []
    ensures Formed(items[1..], takes)
  {
    assert forall i :: 0 <= i < |items| - 1 ==> items[1..][i] == items[i + 1];
  }

  lemma {:induction false} ItemsOfFormed(items: seq<Item>, takes: string -> bool)
    requires Formed(items, takes)
    ensures Items(Flatten(items), takes) == items
  {
    if items != [] {
      var args := Flatten(items);
      var n := |Tokens(items[0])|;
      assert args[n..] == Flatten(items[1..]);
      FormedTail(items, takes);
      ItemsOfFormed(items[1..], takes);
      assert items == [items[0]] + items[1..];
      if items[0].operand.None? && takes(items[0].flag) {
        assert items[1..] == [];
      }
    }
  }

  /** The item lists that survive being written out and grouped again are exactly the formed ones. */
  lemma {:induction false} ItemsRoundTrip(items: seq<Item>, takes: string -> bool)
    ensures Items(Flatten(items), takes) == items <==> Formed(items, takes)
  {
    if Formed(items, takes) {
      ItemsOfFormed(items, takes);
    }
    FlattenItems(Flatten(items), takes);
  }

  lemma {:induction false} FilterFormed(items: seq<Item>, keep: Item -> bool, takes: string -> bool)
    requires Formed(items, takes)
    ensures Formed(Filter(items, keep), takes)
  {
    if items != [] {
      FormedTail(items, takes);
      FilterFormed(items[1..], keep, takes);
      if items[0].operand.None? && takes(items[0].flag) {
        assert items[1..] == [];
      }
    }
  }

  /** Deleting whole items never changes how the remaining tokens group. */
  lemma RetainedItemsRegroup(args: seq<string>, keep: Item -> bool, takes: string -> bool)
    ensures Items(Flatten(Filter(Items(args, takes), keep)), takes) == Filter(Items(args, takes), keep)
  {
    FlattenItems(args, takes);
    FilterFormed(Items(args, takes), keep, takes);
    ItemsOfFormed(Filter(Items(args, takes), keep), takes);
  }

  /** Grouping splits at an item boundary. */
  lemma {:induction false} ItemsAppend(a: seq<string>, b: seq<string>, takes: string -> bool)
    requires Whole(a, takes)
    ensures Items(a + b, takes) == Items(a, takes) + Items(b, takes)
  {
    if a == [] {
      assert a + b == b;
    } else {
      var n := if takes(a[0]) then 2 else 1;
      assert (a + b)[n..] == a[n..] + b;
      ItemsAppend(a[n..], b, takes);
    }
  }

  /** Run a scanner's effect over the items in order; `at` is the argv position of the first one. */
  function Fold<S>(state: S, items: seq<Item>, at: nat, apply: (S, Item, nat) -> S): (r: S)
    decreases |items|
  {
    if items == [] then state
    else Fold(apply(state, items[0], at), items[1..], at + |Tokens(items[0])|, apply)
  }

  lemma FoldOne<S>(state: S, item: Item, at: nat, apply: (S, Item, nat) -> S)
    ensures Fold(state, [item], at, apply) == apply(state, item, at)
  {
    assert [item][1..] == [];
  }

  lemma {:induction false} FoldAppend<S>(state: S, a: seq<Item>, b: seq<Item>, at: nat, apply: (S, Item, nat) -> S)
    ensures Fold(state, a + b, at, apply) == Fold(Fold(state, a, at, apply), b, at + |Flatten(a)|, apply)
    decreases |a|
  {
    if a == [] {
      assert a + b == b;
    } else {
      assert (a + b)[1..] == a[1..] + b;
      FoldAppend(apply(state, a[0], at), a[1..], b, at + |Tokens(a[0])|, apply);
    }
  }

  /** What the items add, in order, to a list that only grows. */
  function Collect<T>(items: seq<Item>, at: nat, adds: (Item, nat) -> seq<T>): (r: seq<T>)
    decreases |items|
  {
    if items == [] then [] else adds(items[0], at) + Collect(items[1..], at + |Tokens(items[0])|, adds)
  }

  /** `view` of the state only grows, by what `adds` says. */
  ghost predicate Grows<S(!new), T(!new)>(
      view: S -> seq<T>, apply: (S, Item, nat) -> S, adds: (Item, nat) -> seq<T>, takes: string -> bool)
  {
    forall p, item: Item, at :: (item.operand.Some? ==> takes(item.flag)) ==>
      view(apply(p, item, at)) == view(p) + adds(item, at)
  }

  lemma {:induction false} FoldCollects<S(!new), T(!new)>(
      view: S -> seq<T>, p: S, items: seq<Item>, at: nat, apply: (S, Item, nat) -> S, adds: (Item, nat) -> seq<T>,
      takes: string -> bool)
    requires Grows(view, apply, adds, takes) && Formed(items, takes)
    ensures view(Fold(p, items, at, apply)) == view(p) + Collect(items, at, adds)
    decreases |items|
  {
    if items != [] {
      var item := items[0];
      FormedTail(items, takes);
      FoldCollects(view, apply(p, item, at), items[1..], at + |Tokens(item)|, apply, adds, takes);
    }
  }

  /** The argv positions of the tokens of the picked items. */
  function PositionsOf(pick: Item -> bool): (r: (Item, nat) -> seq<nat>) {
    (item: Item, at: nat) => if !pick(item) then [] else if item.operand.Some? then [at, at + 1] else [at]
  }

  /** The tokens of `args`, which start at position `at`, whose position is not in `indices`. */
  function WithoutPositions(args: seq<string>, at: nat, indices: seq<nat>): (r: seq<string>) {
    if args == [] then []
    else (if at in indices then [] else [args[0]]) + WithoutPositions(args[1..], at + 1, indices)
  }

  lemma {:induction false} CollectedPositions(items: seq<Item>, at: nat, pick: Item -> bool)
    ensures forall k :: k in Collect(items, at, PositionsOf(pick)) ==> at <= k
    decreases |items|
  {
    if items != [] {
      CollectedPositions(items[1..], at + |Tokens(items[0])|, pick);
    }
  }

  lemma WithoutFront(item: Item, rest: seq<string>, at: nat, picked: bool, indices: seq<nat>)
    requires at in indices <==> picked
    requires item.operand.Some? ==> (at + 1 in indices <==> picked)
    ensures WithoutPositions(Tokens(item) + rest, at, indices)
            == (if picked then [] else Tokens(item)) + WithoutPositions(rest, at + |Tokens(item)|, indices)
  {
    var args := Tokens(item) + rest;
    assert args[|Tokens(item)|..] == rest;
    if item.operand.Some? {
      assert args[1..][0] == item.operand.value && args[1..][1..] == rest;
    }
  }

  lemma {:induction false} SkipEarlier(args: seq<string>, at: nat, early: seq<nat>, indices: seq<nat>)
    requires forall k :: k in early ==> k < at
    ensures WithoutPositions(args, at, early + indices) == WithoutPositions(args, at, indices)
  {
    if args != [] {
      SkipEarlier(args[1..], at + 1, early, indices);
    }
  }

  /** Deleting one item's positions deletes its tokens, if it is picked, and nothing later. */
  lemma WithoutItem(item: Item, rest: seq<string>, at: nat, pick: Item -> bool, later: seq<nat>)
    requires forall k :: k in later ==> at + |Tokens(item)| <= k
    ensures WithoutPositions(Tokens(item) + rest, at, PositionsOf(pick)(item, at) + later)
            == (if pick(item) then [] else Tokens(item)) + WithoutPositions(rest, at + |Tokens(item)|, later)
  {
    var here := PositionsOf(pick)(item, at);
    WithoutFront(item, rest, at, pick(item), here + later);
    SkipEarlier(rest, at + |Tokens(item)|, here, later);
  }

  /** Deleting the picked items' positions is deleting the picked items. */
  lemma {:induction false} WithoutPicked(items: seq<Item>, at: nat, pick: Item -> bool, keep: Item -> bool)
    requires forall item :: keep(item) <==> !pick(item)
    ensures WithoutPositions(Flatten(items), at, Collect(items, at, PositionsOf(pick))) == Flatten(Filter(items, keep))
    decreases |items|
  {
    if items != [] {
      var item, rest, n := items[0], items[1..], |Tokens(items[0])|;
      var here, later := PositionsOf(pick)(item, at), Collect(rest, at + n, PositionsOf(pick));
      assert Flatten(items) == Tokens(item) + Flatten(rest);
      assert Collect(items, at, PositionsOf(pick)) == here + later;
      CollectedPositions(rest, at + n, pick);
      WithoutItem(item, Flatten(rest), at, pick, later);
      WithoutPicked(rest, at + n, pick, keep);
      FlattenFiltered(items, keep);
    }
  }

  lemma FlattenFiltered(items: seq<Item>, keep: Item -> bool)
    requires items != []
    ensures Flatten(Filter(items, keep))
            == (if keep(items[0]) then Tokens(items[0]) else []) + Flatten(Filter(items[1..], keep))
  {
    FilterStep(items, keep);
    ConsTail(items[0], Filter(items[1..], keep));
    AppendEmpty(Flatten(Filter(items[1..], keep)));
  }

  /** Related states stay related over an item: read by both if kept, by the first alone if dropped. */
  predicate StaysRelated<S(!new)>(
      rel: (S, S) -> bool, apply: (S, Item, nat) -> S, keep: Item -> bool, p: S, q: S, item: Item, at: nat, to: nat)
  {
    rel(p, q) ==> rel(apply(p, item, at), if keep(item) then apply(q, item, to) else q)
  }

  ghost predicate Simulates<S(!new)>(
      rel: (S, S) -> bool, apply: (S, Item, nat) -> S, keep: Item -> bool, takes: string -> bool)
  {
    forall p, q, item: Item, at, to :: (item.operand.Some? ==> takes(item.flag)) ==>
      StaysRelated(rel, apply, keep, p, q, item, at, to)
  }

  lemma RelatedStep<S(!new)>(
      rel: (S, S) -> bool, p: S, q: S, item: Item, at: nat, to: nat,
      apply: (S, Item, nat) -> S, keep: Item -> bool, takes: string -> bool)
    requires Simulates(rel, apply, keep, takes) && rel(p, q) && (item.operand.Some? ==> takes(item.flag))
    ensures rel(apply(p, item, at), if keep(item) then apply(q, item, to) else q)
  {
    assert StaysRelated(rel, apply, keep, p, q, item, at, to);
  }

  /** A run over all items stays related to a run over the kept ones. */
  lemma {:induction false} FoldFilter<S(!new)>(
      rel: (S, S) -> bool, p: S, q: S, items: seq<Item>, at: nat, to: nat,
      apply: (S, Item, nat) -> S, keep: Item -> bool, takes: string -> bool)
    requires Simulates(rel, apply, keep, takes)
    requires rel(p, q) && Formed(items, takes)
    ensures rel(Fold(p, items, at, apply), Fold(q, Filter(items, keep), to, apply))
    decreases |items|
  {
    if items != [] {
      var item, rest := items[0], items[1..];
      var n, p' := |Tokens(item)|, apply(p, item, at);
      FormedTail(items, takes);
      RelatedStep(rel, p, q, item, at, to, apply, keep, takes);
      FoldFiltered(q, items, to, apply, keep);
      if keep(item) {
        FoldFilter(rel, p', apply(q, item, to), rest, at + n, to + n, apply, keep, takes);
      } else {
        FoldFilter(rel, p', q, rest, at + n, to, apply, keep, takes);
      }
    }
  }

  /** Two runs over the same items stay related. */
  lemma {:induction false} FoldRelated<S(!new)>(
      rel: (S, S) -> bool, p: S, q: S, items: seq<Item>, at: nat, to: nat,
      apply: (S, Item, nat) -> S, all: Item -> bool, takes: string -> bool)
    requires Simulates(rel, apply, all, takes) && (forall item :: all(item))
    requires rel(p, q) && Formed(items, takes)
    ensures rel(Fold(p, items, at, apply), Fold(q, items, to, apply))
    decreases |items|
  {
    if items != [] {
      var item, rest, n := items[0], items[1..], |Tokens(items[0])|;
      FormedTail(items, takes);
      RelatedStep(rel, p, q, item, at, to, apply, all, takes);
      assert all(item);
      FoldRelated(rel, apply(p, item, at), apply(q, item, to), rest, at + n, to + n, apply, all, takes);
    }
  }

  lemma FoldFiltered<S>(q: S, items: seq<Item>, to: nat, apply: (S, Item, nat) -> S, keep: Item -> bool)
    requires items != []
    ensures Fold(q, Filter(items, keep), to, apply) ==
            if keep(items[0])
            then Fold(apply(q, items[0], to), Filter(items[1..], keep), to + |Tokens(items[0])|, apply)
            else Fold(q, Filter(items[1..], keep), to, apply)
  {
    FilterStep(items, keep);
    ConsTail(items[0], Filter(items[1..], keep));
  }

  // ---- Items changed one by one ----

  function MapItems(g: Item -> Item, items: seq<Item>): (r: seq<Item>) {
    if items == [] then [] else [g(items[0])] + MapItems(g, items[1..])
  }

  /** Reading the changed item into the changed state is changing the state that reading the item gives. */
  predicate CommutesAt<S(==)>(f: S -> S, g: Item -> Item, apply: (S, Item, nat) -> S, p: S, item: Item, at: nat) {
    apply(f(p), g(item), at) == f(apply(p, item, at)) && |Tokens(g(item))| == |Tokens(item)|
  }

  ghost predicate Commutes<S(!new)>(f: S -> S, g: Item -> Item, apply: (S, Item, nat) -> S, takes: string -> bool) {
    forall p, item: Item, at :: (item.operand.Some? ==> takes(item.flag)) ==> CommutesAt(f, g, apply, p, item, at)
  }

  lemma {:induction false} FoldMapped<S(!new)>(f: S -> S, g: Item -> Item, p: S, items: seq<Item>, at: nat,
                                               apply: (S, Item, nat) -> S, takes: string -> bool)
    requires Commutes(f, g, apply, takes) && Formed(items, takes)
    ensures Fold(f(p), MapItems(g, items), at, apply) == f(Fold(p, items, at, apply))
    decreases |items|
  {
    if items != [] {
      var (item, rest) := (items[0], items[1..]);
      FormedTail(items, takes);
      assert CommutesAt(f, g, apply, p, item, at);
      ConsTail(g(item), MapItems(g, rest));
      FoldMapped(f, g, apply(p, item, at), rest, at + |Tokens(item)|, apply, takes);
    }
  }

  /** An item complete with the operand its flag takes. */
  predicate Complete(item: Item, takes: string -> bool) {
    takes(item.flag) <==> item.operand.Some?
  }

  lemma ItemsAround(a: seq<string>, x: Item, b: seq<string>, takes: string -> bool)
    requires Whole(a, takes) && Complete(x, takes)
    ensures Items(a + Tokens(x) + b, takes) == Items(a, takes) + ([x] + Items(b, takes))
  {
    var middle := Tokens(x) + b;
    assert a + Tokens(x) + b == a + middle;
    ItemsAppend(a, middle, takes);
    assert middle[|Tokens(x)|..] == b;
    assert Items(middle, takes) == [x] + Items(b, takes);
  }

  lemma FoldAround<S>(init: S, a: seq<string>, x: Item, b: seq<string>,
                      apply: (S, Item, nat) -> S, takes: string -> bool)
    requires Whole(a, takes) && Complete(x, takes)
    ensures var p, n := Fold(init, Items(a, takes), 0, apply), |Flatten(Items(a, takes))|;
            Fold(init, Items(a + Tokens(x) + b, takes), 0, apply)
            == Fold(apply(p, x, n), Items(b, takes), n + |Tokens(x)|, apply)
  {
    var rest := [x] + Items(b, takes);
    ItemsAround(a, x, b, takes);
    FoldAppend(init, Items(a, takes), rest, 0, apply);
    assert rest[1..] == Items(b, takes);
  }

  /** Related effects of two items at an item boundary leave related states after the rest of argv. */
  lemma SwapItem<S(!new)>(rel: (S, S) -> bool, init: S, a: seq<string>, x: Item, y: Item, b: seq<string>,
                          apply: (S, Item, nat) -> S, all: Item -> bool, takes: string -> bool)
    requires Simulates(rel, apply, all, takes) && (forall item :: all(item))
    requires Whole(a, takes) && Complete(x, takes) && Complete(y, takes)
    requires var p, n := Fold(init, Items(a, takes), 0, apply), |Flatten(Items(a, takes))|;
             rel(apply(p, x, n), apply(p, y, n))
    ensures rel(Fold(init, Items(a + Tokens(x) + b, takes), 0, apply),
                Fold(init, Items(a + Tokens(y) + b, takes), 0, apply))
  {
    var items, p, n := Items(b, takes), Fold(init, Items(a, takes), 0, apply), |Flatten(Items(a, takes))|;
    FoldAround(init, a, x, b, apply, takes);
    FoldAround(init, a, y, b, apply, takes);
    FlattenItems(b, takes);
    FoldRelated(rel, apply(p, x, n), apply(p, y, n), items, n + |Tokens(x)|, n + |Tokens(y)|, apply, all, takes);
  }

  /** The item that starts at position `i` of argv. */
  function ItemAt(args: seq<string>, i: nat, takes: string -> bool): (item: Item)
    requires i < |args|
  {
    Item(args[i], if takes(args[i]) && i + 1 < |args| then Some(args[i + 1]) else None)
  }

  /** Retained tokens, one item at a time. */
  lemma RetainStep(args: seq<string>, keep: Item -> bool, takes: string -> bool)
    requires args != []
    ensures var item := ItemAt(args, 0, takes);
            Flatten(Filter(Items(args, takes), keep)) ==
              (if keep(item) then Tokens(item) else [])
              + Flatten(Filter(Items(args[|Tokens(item)|..], takes), keep))
  {
    var item := ItemAt(args, 0, takes);
    var rest := Items(args[|Tokens(item)|..], takes);
    assert Items(args, takes) == [item] + rest;
    assert ([item] + rest)[1..] == rest;
    if keep(item) {
      assert Filter(Items(args, takes), keep) == [item] + Filter(rest, keep);
      assert ([item] + Filter(rest, keep))[1..] == Filter(rest, keep);
    } else {
      assert Filter(Items(args, takes), keep) == Filter(rest, keep);
    }
  }

  /** A scanner at position `i` applies the item there and moves past its tokens. */
  lemma FoldStep<S>(state: S, args: seq<string>, i: nat, apply: (S, Item, nat) -> S, takes: string -> bool)
    requires i < |args|
    ensures var item := ItemAt(args, i, takes);
            var next := i + |Tokens(item)|;
            && next <= |args|
            && Fold(state, Items(args[i..], takes), i, apply)
               == Fold(apply(state, item, i), Items(args[next..], takes), next, apply)
  {
    var item := ItemAt(args, i, takes);
    var n := |Tokens(item)|;
    assert args[i..][n..] == args[i + n..];
    assert Items(args[i..], takes) == [item] + Items(args[i + n..], takes);
  }

  /** The index loop of an operand-consuming scanner. A last token without its operand still moves `i` past the end. */
  method Scan<S>(init: S, args: seq<string>, takes: string -> bool, apply: (S, Item, nat) -> S) returns (state: S)
    ensures state == Fold(init, Items(args, takes), 0, apply)
  {
    state := init;
    var i := 0;
    assert args[0..] == args;
    while i < |args|
      invariant i <= |args| ==>
        Fold(state, Items(args[i..], takes), i, apply) == Fold(init, Items(args, takes), 0, apply)
      invariant i > |args| ==> state == Fold(init, Items(args, takes), 0, apply)
    {
      FoldStep(state, args, i, apply, takes);
      var start, operand := i, None;
      if takes(args[i]) {
        i := i + 1;
        operand := if i < |args| then Some(args[i]) else None;
      }
      assert Item(args[start], operand) == ItemAt(args, start, takes);
      state := apply(state, Item(args[start], operand), start);
      i := i + 1;
    }
    if i == |args| {
      assert args[i..] == [];
    }
  }

  // ---- Scanners that drop options without following the parser's operands ----

  /** Drop `drop(rest)` tokens wherever that is positive, reading left to right one token at a time otherwise. */
  function Sweep(args: seq<string>, drop: seq<string> -> nat): (r: seq<string>) {
    if args == [] then []
    else if 0 < drop(args) <= |args| then Sweep(args[drop(args)..], drop)
    else [args[0]] + Sweep(args[1..], drop)
  }

  lemma SweepStep(args: seq<string>, i: nat, drop: seq<string> -> nat)
    requires i < |args|
    ensures var n := drop(args[i..]);
            if 0 < n <= |args| - i then Sweep(args[i..], drop) == Sweep(args[i + n..], drop)
            else Sweep(args[i..], drop) == [args[i]] + Sweep(args[i + 1..], drop)
  {
    var n := drop(args[i..]);
    if 0 < n <= |args| - i {
      assert args[i..][n..] == args[i + n..];
    } else {
      assert args[i..][1..] == args[i + 1..];
    }
  }

  /** At an item boundary `drop` removes whole items, those `keep` rejects, and never reads into what it dropped. */
  ghost predicate DropsItems(drop: seq<string> -> nat, keep: Item -> bool, takes: string -> bool) {
    && (forall args: seq<string> {:trigger drop(args)} :: args != [] ==>
          drop(args) == if keep(ItemAt(args, 0, takes)) then 0 else |Tokens(ItemAt(args, 0, takes))|)
    && (forall args: seq<string> {:trigger drop(args[1..])} :: |args| > 1 && drop(args) == 2 ==> drop(args[1..]) == 0)
  }

  /** No operand the parser consumes starts something the sweep would drop. */
  predicate Aligned(args: seq<string>, drop: seq<string> -> nat, takes: string -> bool) {
    if args == [] then true
    else if takes(args[0]) && |args| > 1 then drop(args[1..]) == 0 && Aligned(args[2..], drop, takes)
    else Aligned(args[1..], drop, takes)
  }

  /** A sweep never keeps more than the kept items, and keeps just their tokens exactly when argv is aligned. */
  lemma {:induction false} SweepLength(
      args: seq<string>, drop: seq<string> -> nat, keep: Item -> bool, takes: string -> bool)
    requires DropsItems(drop, keep, takes)
    ensures var kept := Flatten(Filter(Items(args, takes), keep));
            && |Sweep(args, drop)| <= |kept|
            && (|Sweep(args, drop)| == |kept| <==> Aligned(args, drop, takes))
            && (Aligned(args, drop, takes) ==> Sweep(args, drop) == kept)
  {
    if args != [] {
      RetainStep(args, keep, takes);
      var item := ItemAt(args, 0, takes);
      var rest := args[|Tokens(item)|..];
      SweepLength(rest, drop, keep, takes);
      if item.operand.None? {
        assert Sweep(args, drop) == (if keep(item) then [args[0]] else []) + Sweep(rest, drop);
      } else {
        SweepOperand(args, drop, keep, takes);
      }
    }
  }

  /** What the sweep does with an option and the operand it consumes. */
  lemma SweepOperand(args: seq<string>, drop: seq<string> -> nat, keep: Item -> bool, takes: string -> bool)
    requires DropsItems(drop, keep, takes)
    requires |args| > 1 && takes(args[0])
    ensures drop(args) == 0 || drop(args) == 2
    ensures drop(args) == 2 ==> drop(args[1..]) == 0 && Sweep(args, drop) == Sweep(args[2..], drop)
    ensures drop(args) == 0 && drop(args[1..]) == 0 ==> Sweep(args, drop) == [args[0], args[1]] + Sweep(args[2..], drop)
    ensures drop(args) == 0 && drop(args[1..]) != 0 ==> |Sweep(args, drop)| < 2 + |Sweep(args[2..], drop)|
  {
    var tail, rest := args[1..], args[2..];
    DropNext(args, 1);
    if drop(args) == 0 {
      assert Sweep(args, drop) == [args[0]] + Sweep(tail, drop);
      if drop(tail) == 0 {
        assert Sweep(tail, drop) == [args[1]] + Sweep(rest, drop);
        AppendAssoc([args[0]], [args[1]], Sweep(rest, drop));
      } else if drop(tail) == 2 {
        DropNext(args, 2);
        assert drop(tail[1..]) == 0;
        assert tail[2..] == rest[1..];
        assert Sweep(rest, drop) == [rest[0]] + Sweep(rest[1..], drop);
      }
    }
  }

  /** The sweep deletes exactly the rejected items if and only if argv is aligned. */
  lemma {:induction false} SweepIsItemwise(
      args: seq<string>, drop: seq<string> -> nat, keep: Item -> bool, takes: string -> bool)
    requires DropsItems(drop, keep, takes)
    ensures Items(Sweep(args, drop), takes) == Filter(Items(args, takes), keep) <==> Aligned(args, drop, takes)
  {
    SweepLength(args, drop, keep, takes);
    RetainedItemsRegroup(args, keep, takes);
    FlattenItems(Sweep(args, drop), takes);
  }
}
