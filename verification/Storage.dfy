/** Bytes charged for a scope of files whose extents may be shared. */
module Storage {
  import opened Text
  import opened Seqs

  datatype Extent = Extent(physical: nat, length: nat, flags: nat)

  /** `extents` is `None` when a file could not be mapped. */
  datatype Item = Item(device: nat, blocks: nat, extents: Option<seq<Extent>>, regular: bool)

  const FIEMAP_EXTENT_SHARED: nat := 0x2000

  predicate IsShared(extent: Extent) {
    extent.flags / FIEMAP_EXTENT_SHARED % 2 == 1
  }

  /** Only the one bit of the flags is looked at, whatever the bits above and below it. */
  lemma SharedBit(extent: Extent, high: nat, bit: nat, low: nat)
    requires extent.flags == high * 0x4000 + bit * 0x2000 + low && bit < 2 && low < 0x2000
    ensures IsShared(extent) <==> bit == 1
  {
    assert extent.flags / 0x2000 == high * 2 + bit;
  }

  datatype Key = Key(device: nat, physical: nat, length: nat)

  predicate Mapped(items: seq<Item>) {
    forall item :: item in items && item.regular ==> item.extents.Some?
  }

  /** The keys of a file's shared extents, in order. */
  function SharedKeys(device: nat, extents: seq<Extent>): (keys: seq<Key>) {
    if extents == [] then []
    else
      var last := extents[|extents| - 1];
      SharedKeys(device, extents[..|extents| - 1])
      + if IsShared(last) then [Key(device, last.physical, last.length)] else []
  }

  function KeysOf(item: Item): (keys: seq<Key>) {
    if item.regular && item.extents.Some? then SharedKeys(item.device, item.extents.value) else []
  }

  function KeysFor(device: nat, extents: seq<Extent>): (keys: seq<Key>) {
    seq(|extents|, i requires 0 <= i < |extents| => Key(device, extents[i].physical, extents[i].length))
  }

  lemma KeysForSnoc(device: nat, extents: seq<Extent>, extent: Extent)
    ensures KeysFor(device, extents + [extent])
         == KeysFor(device, extents) + [Key(device, extent.physical, extent.length)]
  {
  }

  lemma {:induction false} SharedKeysAre(device: nat, extents: seq<Extent>)
    ensures SharedKeys(device, extents) == KeysFor(device, Filter(extents, IsShared))
  {
    if extents != [] {
      var (before, last) := (extents[..|extents| - 1], extents[|extents| - 1]);
      SharedKeysAre(device, before);
      TakeNext(extents, |extents| - 1);
      TakeAll(extents);
      FilterSnoc(before, last, IsShared);
      KeysForSnoc(device, Filter(before, IsShared), last);
      AppendEmpty(SharedKeys(device, before));
    }
  }

  /** A mapped regular file has the keys of its shared extents, in order; any other file has none. */
  lemma ItemKeys(item: Item)
    ensures item.regular && item.extents.Some? ==>
      KeysOf(item) == KeysFor(item.device, Filter(item.extents.value, IsShared))
    ensures !item.regular || item.extents.None? ==> KeysOf(item) == []
  {
    if item.regular && item.extents.Some? {
      SharedKeysAre(item.device, item.extents.value);
    }
  }

  // ---- Sums ----

  function Length(keys: seq<Key>): (n: nat) {
    if keys == [] then 0 else Length(keys[..|keys| - 1]) + keys[|keys| - 1].length
  }

  function Elements(keys: seq<Key>): (s: set<Key>) {
    set key | key in keys
  }

  /** The lengths of a set of extents, each once. */
  ghost function Distinct(keys: set<Key>): (n: nat) {
    if keys == {} then 0
    else
      var key :| key in keys;
      key.length + Distinct(keys - {key})
  }

  /** Lengths of the keys that were seen before, in `seen` or earlier in `keys`. */
  function Repeated(seen: set<Key>, keys: seq<Key>): (n: nat) {
    if keys == [] then 0
    else
      var (before, last) := (keys[..|keys| - 1], keys[|keys| - 1]);
      Repeated(seen, before) + if last in seen || last in before then last.length else 0
  }

  function Total(f: Item -> nat, items: seq<Item>): (n: nat) {
    if items == [] then 0 else f(items[0]) + Total(f, items[1..])
  }

  function Blocks(item: Item): nat {
    item.blocks
  }

  function SharedLength(item: Item): nat {
    Length(KeysOf(item))
  }

  ghost function AllKeys(items: seq<Item>): (keys: set<Key>) {
    set item, key | item in items && key in KeysOf(item) :: key
  }

  // ---- The charge ----

  function ChargeOf(seen: set<Key>, item: Item): (charge: nat) {
    var repeated := Repeated(seen, KeysOf(item));
    if repeated <= item.blocks then item.blocks - repeated else 0
  }

  /** What a file's own blocks fall short of its repeated extents: the part the floor at zero hides. */
  function Shortfall(seen: set<Key>, item: Item): (n: nat) {
    var repeated := Repeated(seen, KeysOf(item));
    if repeated <= item.blocks then 0 else repeated - item.blocks
  }

  /** Files in order, each charged its blocks less the shared extents an earlier file has. */
  function Charged(seen: set<Key>, items: seq<Item>): (total: nat)
    decreases |items|
  {
    if items == [] then 0
    else ChargeOf(seen, items[0]) + Charged(seen + Elements(KeysOf(items[0])), items[1..])
  }

  function Shortfalls(seen: set<Key>, items: seq<Item>): (total: nat)
    decreases |items|
  {
    if items == [] then 0
    else Shortfall(seen, items[0]) + Shortfalls(seen + Elements(KeysOf(items[0])), items[1..])
  }

  function Allocated(items: seq<Item>): (r: (nat, bool)) {
    if Mapped(items) then (Charged({}, items), true) else (Total(Blocks, items), false)
  }

  method ResolveAllocated(items: seq<Item>) returns (total: nat, resolved: bool)
    ensures (total, resolved) == Allocated(items)
    ensures resolved <==> forall item :: item in items && item.regular ==> item.extents.Some?
    ensures !resolved ==> total == Total(Blocks, items)
  {
    if exists item :: item in items && item.regular && item.extents.None? {
      return Total(Blocks, items), false;
    }
    var seen: set<Key> := {};
    total := 0;
    TakeAll(items);
    for i := 0 to |items|
      invariant Charged({}, items) == total + Charged(seen, items[i..])
    {
      var charge;
      ChargedStep(seen, items, i);
      seen, charge := ChargeItem(seen, items[i]);
      total := total + charge;
    }
    return total, true;
  }

  lemma ChargedStep(seen: set<Key>, items: seq<Item>, i: nat)
    requires i < |items|
    ensures Charged(seen, items[i..])
         == ChargeOf(seen, items[i]) + Charged(seen + Elements(KeysOf(items[i])), items[i + 1..])
  {
    DropNext(items, i);
  }

  /** One file: its blocks, less the shared extents that were seen before. */
  method ChargeItem(seen: set<Key>, item: Item) returns (seen': set<Key>, charge: nat)
    requires item.regular ==> item.extents.Some?
    ensures seen' == seen + Elements(KeysOf(item)) && charge == ChargeOf(seen, item)
  {
    if !item.regular || !exists extent :: extent in item.extents.value && IsShared(extent) {
      if item.regular {
        NothingShared(item.device, item.extents.value);
      }
      assert KeysOf(item) == [] && seen + Elements([]) == seen;
      return seen, item.blocks;
    }
    var rest;
    seen', rest := ChargeShared(seen, item.device, item.blocks, item.extents.value);
    charge := if rest < 0 then 0 else rest;
  }

  /** The inner loop over one file's extents. */
  method ChargeShared(seen: set<Key>, device: nat, blocks: nat, extents: seq<Extent>)
    returns (seen': set<Key>, charge: int)
    ensures seen' == seen + Elements(SharedKeys(device, extents))
    ensures charge == blocks - Repeated(seen, SharedKeys(device, extents))
  {
    seen', charge := seen, blocks;
    ghost var keys: seq<Key> := [];
    for j := 0 to |extents|
      invariant keys == SharedKeys(device, extents[..j])
      invariant seen' == seen + Elements(keys) && charge == blocks - Repeated(seen, keys)
    {
      SharedStep(device, extents, j);
      if !IsShared(extents[j]) {
        continue;
      }
      var key := Key(device, extents[j].physical, extents[j].length);
      RepeatedSnoc(seen, keys, key);
      if key in seen' {
        charge := charge - key.length;
      } else {
        seen' := seen' + {key};
      }
      keys := keys + [key];
    }
    TakeAll(extents);
  }

  lemma SharedStep(device: nat, extents: seq<Extent>, j: nat)
    requires j < |extents|
    ensures SharedKeys(device, extents[..j + 1]) ==
      if IsShared(extents[j])
      then SharedKeys(device, extents[..j]) + [Key(device, extents[j].physical, extents[j].length)]
      else SharedKeys(device, extents[..j])
  {
    TakeNext(extents, j);
    AppendEmpty(SharedKeys(device, extents[..j]));
  }

  lemma RepeatedSnoc(seen: set<Key>, keys: seq<Key>, key: Key)
    ensures Repeated(seen, keys + [key])
         == Repeated(seen, keys) + if key in seen || key in keys then key.length else 0
    ensures Elements(keys + [key]) == Elements(keys) + {key}
  {
    SnocInit(keys, key);
  }

  lemma {:induction false} NothingShared(device: nat, extents: seq<Extent>)
    requires forall extent :: extent in extents ==> !IsShared(extent)
    ensures SharedKeys(device, extents) == []
  {
    if extents != [] {
      NothingShared(device, extents[..|extents| - 1]);
    }
  }

  // ---- Sums over sets ----

  lemma {:induction false} DistinctSplit(keys: set<Key>, key: Key)
    requires key in keys
    ensures Distinct(keys) == key.length + Distinct(keys - {key})
    decreases |keys|
  {
    var picked :| picked in keys && Distinct(keys) == picked.length + Distinct(keys - {picked});
    if picked != key {
      DistinctSplit(keys - {picked}, key);
      DistinctSplit(keys - {key}, picked);
      assert keys - {picked} - {key} == keys - {key} - {picked};
    }
  }

  lemma {:induction false} DistinctUnion(a: set<Key>, b: set<Key>)
    ensures Distinct(a + b) + Distinct(a * b) == Distinct(a) + Distinct(b)
    decreases |b|
  {
    if b == {} {
      assert a + b == a && a * b == {};
    } else {
      var key :| key in b;
      DistinctUnion(a, b - {key});
      DistinctSplit(b, key);
      UnionWithout(a, b, key);
      if key in a {
        DistinctSplit(a * b, key);
      } else {
        DistinctSplit(a + b, key);
      }
    }
  }

  lemma UnionWithout(a: set<Key>, b: set<Key>, key: Key)
    requires key in b
    ensures key in a ==> a + (b - {key}) == a + b && a * (b - {key}) == a * b - {key}
    ensures key !in a ==> a + (b - {key}) == a + b - {key} && a * (b - {key}) == a * b
  {
  }

  /** Repeated occurrences are all occurrences but the first of each extent not seen before. */
  lemma {:induction false} RepeatedIsRest(seen: set<Key>, keys: seq<Key>)
    ensures Repeated(seen, keys) + Distinct(Elements(keys) - seen) == Length(keys)
  {
    if keys == [] {
      assert Elements(keys) - seen == {};
    } else {
      var (before, last) := (keys[..|keys| - 1], keys[|keys| - 1]);
      RepeatedIsRest(seen, before);
      assert Elements(keys) == Elements(before) + {last};
      if last in seen || last in before {
        assert Elements(keys) - seen == Elements(before) - seen;
      } else {
        DistinctSplit(Elements(keys) - seen, last);
        assert Elements(keys) - seen - {last} == Elements(before) - seen;
      }
    }
  }

  // ---- What is charged ----

  /** With any extents already seen, the charge and what it leaves out add up. */
  lemma {:induction false} ChargedBalance(seen: set<Key>, items: seq<Item>)
    ensures Charged(seen, items) + Total(SharedLength, items)
         == Total(Blocks, items) + Distinct(AllKeys(items) - seen) + Shortfalls(seen, items)
    decreases |items|
  {
    if items == [] {
      assert AllKeys(items) - seen == {};
    } else {
      var (keys, rest) := (Elements(KeysOf(items[0])), items[1..]);
      RepeatedIsRest(seen, KeysOf(items[0]));
      ChargedBalance(seen + keys, rest);
      AllKeysStep(items);
      DistinctUnion(keys - seen, AllKeys(rest) - (seen + keys));
      assert (keys - seen) + (AllKeys(rest) - (seen + keys)) == AllKeys(items) - seen;
      assert (keys - seen) * (AllKeys(rest) - (seen + keys)) == {};
    }
  }

  lemma AllKeysStep(items: seq<Item>)
    requires items != []
    ensures AllKeys(items) == Elements(KeysOf(items[0])) + AllKeys(items[1..])
  {
    forall key
      ensures key in AllKeys(items) <==> key in Elements(KeysOf(items[0])) || key in AllKeys(items[1..])
    {
      if key in AllKeys(items) {
        var item :| item in items && key in KeysOf(item);
        assert item == items[0] || item in items[1..];
      }
    }
  }

  /** The charge is the block sum less all shared occurrences plus each shared extent once,
      exactly when no file repeats more than its own blocks. */
  lemma ChargeFormula(items: seq<Item>)
    requires Mapped(items)
    ensures Allocated(items).0 == Total(Blocks, items) - Total(SharedLength, items) + Distinct(AllKeys(items))
      <==> Shortfalls({}, items) == 0
  {
    BalanceFromNothing(items);
  }

  /** Every file's blocks cover its shared extents. */
  predicate Covered(items: seq<Item>) {
    forall item :: item in items ==> SharedLength(item) <= item.blocks
  }

  lemma {:induction false} CoveredHasNoShortfall(seen: set<Key>, items: seq<Item>)
    requires Covered(items)
    ensures Shortfalls(seen, items) == 0
    decreases |items|
  {
    if items != [] {
      assert items[0] in items;
      RepeatedIsRest(seen, KeysOf(items[0]));
      CoveredHasNoShortfall(seen + Elements(KeysOf(items[0])), items[1..]);
    }
  }

  // ---- Order ----

  lemma {:induction false} TotalWithout(f: Item -> nat, items: seq<Item>, i: nat)
    requires i < |items|
    ensures Total(f, items) == f(items[i]) + Total(f, items[..i] + items[i + 1..])
  {
    var without := items[..i] + items[i + 1..];
    if i == 0 {
      assert without == items[1..];
    } else {
      TotalWithout(f, items[1..], i - 1);
      assert without[1..] == items[1..][..i - 1] + items[1..][i..];
    }
  }

  lemma WithoutOne(items: seq<Item>, i: nat)
    requires i < |items|
    ensures multiset(items[..i] + items[i + 1..]) == multiset(items) - multiset{items[i]}
  {
    assert items == items[..i] + [items[i]] + items[i + 1..];
  }

  lemma {:induction false} TotalPermuted(f: Item -> nat, a: seq<Item>, b: seq<Item>)
    requires multiset(a) == multiset(b)
    ensures Total(f, a) == Total(f, b)
  {
    if a == [] {
      assert |b| == |multiset(b)|;
    } else {
      var i := FirstIn(a, b);
      TotalWithout(f, b, i);
      TotalPermuted(f, a[1..], b[..i] + b[i + 1..]);
    }
  }

  /** The first of some items has a place among the same items in another order; the others then match too. */
  lemma FirstIn(a: seq<Item>, b: seq<Item>) returns (i: nat)
    requires a != [] && multiset(a) == multiset(b)
    ensures i < |b| && b[i] == a[0] && multiset(a[1..]) == multiset(b[..i] + b[i + 1..])
  {
    assert a[0] in multiset(b);
    i :| 0 <= i < |b| && b[i] == a[0];
    WithoutOne(a, 0);
    WithoutOne(b, i);
    AppendEmpty(a[1..]);
  }

  lemma SameItems(a: seq<Item>, b: seq<Item>)
    requires multiset(a) == multiset(b)
    ensures forall item :: item in a <==> item in b
  {
    forall item
      ensures item in a <==> item in b
    {
      assert item in a <==> item in multiset(a);
      assert item in b <==> item in multiset(b);
    }
  }

  lemma SameKeys(a: seq<Item>, b: seq<Item>)
    requires forall item :: item in a <==> item in b
    ensures AllKeys(a) == AllKeys(b)
  {
  }

  lemma CoveredFormula(items: seq<Item>)
    requires Mapped(items) && Covered(items)
    ensures Allocated(items) == (Total(Blocks, items) + Distinct(AllKeys(items)) - Total(SharedLength, items), true)
  {
    ChargeFormula(items);
    CoveredHasNoShortfall({}, items);
  }

  /** Between two orders of the same files, the charges differ by as much as what the floor at zero hides. */
  lemma {:induction false} OrdersBalance(a: seq<Item>, b: seq<Item>)
    requires multiset(a) == multiset(b)
    ensures Charged({}, a) - Shortfalls({}, a) == Charged({}, b) - Shortfalls({}, b)
  {
    SameItems(a, b);
    SameKeys(a, b);
    TotalPermuted(Blocks, a, b);
    TotalPermuted(SharedLength, a, b);
    BalanceFromNothing(a);
    BalanceFromNothing(b);
  }

  lemma BalanceFromNothing(items: seq<Item>)
    ensures Charged({}, items) + Total(SharedLength, items)
         == Total(Blocks, items) + Distinct(AllKeys(items)) + Shortfalls({}, items)
  {
    ChargedBalance({}, items);
    assert AllKeys(items) - {} == AllKeys(items);
  }

  /** Two orders of the same mapped files are charged the same exactly when the floor hides as much in both. */
  lemma {:induction false} OrderMatters(a: seq<Item>, b: seq<Item>)
    requires multiset(a) == multiset(b) && Mapped(a)
    ensures Allocated(a) == Allocated(b) <==> Shortfalls({}, a) == Shortfalls({}, b)
  {
    OrdersBalance(a, b);
    MappedToo(a, b);
  }

  lemma MappedToo(a: seq<Item>, b: seq<Item>)
    requires multiset(a) == multiset(b) && Mapped(a)
    ensures Mapped(b)
  {
    SameItems(a, b);
  }

  /** When the blocks cover the shared extents, the order of the files does not matter. */
  lemma {:induction false} OrderDoesNotMatter(a: seq<Item>, b: seq<Item>)
    requires multiset(a) == multiset(b) && Covered(a)
    ensures Allocated(a) == Allocated(b)
  {
    SameItems(a, b);
    if Mapped(a) {
      OrderMatters(a, b);
      CoveredHasNoShortfall({}, a);
      CoveredHasNoShortfall({}, b);
    } else {
      TotalPermuted(Blocks, a, b);
    }
  }

  /** Two files with one and the same shared extent: the second pays for its blocks less the extent. */
  lemma PairCharge(first: Item, second: Item, key: Key)
    requires KeysOf(first) == [key] && KeysOf(second) == [key]
    ensures Charged({}, [first, second])
         == first.blocks + if second.blocks < key.length then 0 else second.blocks - key.length
  {
    AppendEmpty([key]);
    RepeatedSnoc({}, [], key);
    RepeatedSnoc({key}, [], key);
    assert {} + Elements([key]) == {key};
    ConsTail(first, [second]);
    Single([second]);
    assert Charged({key}, [second]) == ChargeOf({key}, second);
  }

  /** Two files with one shared extent: their order matters unless both can pay for it or both have as many blocks. */
  lemma PairOrder(first: Item, second: Item, key: Key)
    requires KeysOf(first) == [key] && KeysOf(second) == [key]
    ensures Allocated([first, second]) == Allocated([second, first])
       <==> first.blocks == second.blocks || (first.blocks >= key.length && second.blocks >= key.length)
  {
    PairCharge(first, second, key);
    PairCharge(second, first, key);
    PairMapped(first, second, key);
    PairMapped(second, first, key);
  }

  lemma PairMapped(first: Item, second: Item, key: Key)
    requires KeysOf(first) == [key] && KeysOf(second) == [key]
    ensures Mapped([first, second])
  {
  }

  /** So it can matter: the file that cannot pay for a shared extent may come first. */
  lemma OrderCanMatter(poor: Item, rich: Item)
    requires poor == Item(0, 0, Some([Extent(0, 10, 0x2000)]), true)
    requires rich == Item(0, 10, Some([Extent(0, 10, 0x2000)]), true)
    ensures Allocated([poor, rich]) == (0, true) && Allocated([rich, poor]) == (10, true)
  {
    OneShared(poor, Extent(0, 10, 0x2000));
    OneShared(rich, Extent(0, 10, 0x2000));
    PairCharge(poor, rich, Key(0, 0, 10));
    PairCharge(rich, poor, Key(0, 0, 10));
  }

  lemma OneShared(item: Item, extent: Extent)
    requires item.regular && item.extents == Some([extent]) && IsShared(extent)
    ensures KeysOf(item) == [Key(item.device, extent.physical, extent.length)]
  {
    var extents := [extent];
    Single(extents);
    assert SharedKeys(item.device, extents[..0]) == [];
  }

  // ---- Joined scopes, and the bound ----

  lemma {:induction false} MoreSeenMoreRepeated(seen: set<Key>, more: set<Key>, keys: seq<Key>)
    requires seen <= more
    ensures Repeated(seen, keys) <= Repeated(more, keys)
  {
    if keys != [] {
      MoreSeenMoreRepeated(seen, more, keys[..|keys| - 1]);
    }
  }

  lemma {:induction false} MoreSeenLessCharged(seen: set<Key>, more: set<Key>, items: seq<Item>)
    requires seen <= more
    ensures Charged(more, items) <= Charged(seen, items)
    decreases |items|
  {
    if items != [] {
      var keys := Elements(KeysOf(items[0]));
      MoreSeenMoreRepeated(seen, more, KeysOf(items[0]));
      MoreSeenLessCharged(seen + keys, more + keys, items[1..]);
    }
  }

  lemma {:induction false} ChargedAppend(seen: set<Key>, a: seq<Item>, b: seq<Item>)
    ensures Charged(seen, a + b) <= Charged(seen, a) + Charged({}, b)
    decreases |a|
  {
    if a == [] {
      assert a + b == b;
      MoreSeenLessCharged({}, seen, b);
    } else {
      assert (a + b)[1..] == a[1..] + b;
      ChargedAppend(seen + Elements(KeysOf(a[0])), a[1..], b);
    }
  }

  /** Joining two mapped scopes never costs more than the two apart. */
  lemma JoinedScopesCostNoMore(a: seq<Item>, b: seq<Item>)
    requires Mapped(a) && Mapped(b)
    ensures Allocated(a + b).0 <= Allocated(a).0 + Allocated(b).0
  {
    ChargedAppend({}, a, b);
  }

  /** When the blocks cover the shared extents, the saving is what the two scopes share. */
  lemma {:induction false} JoinedScopesSaving(a: seq<Item>, b: seq<Item>)
    requires Mapped(a) && Mapped(b) && Covered(a) && Covered(b)
    ensures Allocated(a + b).0 + Distinct(AllKeys(a) * AllKeys(b)) == Allocated(a).0 + Allocated(b).0
  {
    CoveredFormula(a);
    CoveredFormula(b);
    CoveredFormula(a + b);
    TotalAppend(Blocks, a, b);
    TotalAppend(SharedLength, a, b);
    DistinctUnion(AllKeys(a), AllKeys(b));
    assert AllKeys(a + b) == AllKeys(a) + AllKeys(b);
  }

  lemma {:induction false} TotalAppend(f: Item -> nat, a: seq<Item>, b: seq<Item>)
    ensures Total(f, a + b) == Total(f, a) + Total(f, b)
  {
    if a == [] {
      assert a + b == b;
    } else {
      assert (a + b)[1..] == a[1..] + b;
      TotalAppend(f, a[1..], b);
    }
  }

  lemma {:induction false} ChargedWithinBlocks(seen: set<Key>, items: seq<Item>)
    ensures Charged(seen, items) <= Total(Blocks, items)
    decreases |items|
  {
    if items != [] {
      ChargedWithinBlocks(seen + Elements(KeysOf(items[0])), items[1..]);
    }
  }

  /** Whatever the files, the charge never exceeds the block sum. */
  lemma AllocatedWithinBlocks(items: seq<Item>)
    ensures Allocated(items).0 <= Total(Blocks, items)
  {
    ChargedWithinBlocks({}, items);
  }
}
