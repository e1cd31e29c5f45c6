/** The topological sort that gives crates their publishing order. */
module TopoSort {
  import opened Text
  import opened Seqs
  import opened Lex
  import opened DependencyGraph

  /** No later crate has the same name, so this one is the one that counts. */
  predicate LastNamed(crates: seq<Crate>, k: nat) {
    k < |crates| && forall j :: k < j < |crates| ==> crates[j].name != crates[k].name
  }

  predicate Named(crates: seq<Crate>, name: string) {
    exists c :: c in crates && c.name == name
  }

  ghost predicate Distinct(crates: seq<Crate>) {
    forall i, j :: 0 <= i < j < |crates| ==> crates[i].name != crates[j].name
  }

  /** The crate called `name` depends on `dep`. */
  ghost predicate DependsOn(crates: seq<Crate>, name: string, dep: string) {
    exists k: nat :: LastNamed(crates, k) && crates[k].name == name && dep in crates[k].depNames
  }

  ghost predicate DependencyCycle(crates: seq<Crate>, path: seq<string>) {
    && |path| >= 2 && path[0] == path[|path| - 1]
    && forall i :: 0 <= i < |path| - 1 ==> StepAt(crates, path, i)
  }

  ghost predicate StepAt(crates: seq<Crate>, path: seq<string>, i: nat)
    requires i + 1 < |path|
  {
    DependsOn(crates, path[i], path[i + 1])
  }

  // ---- The index and the graph are those of the crates ----

  lemma {:induction false} IndexedBy(crates: seq<Crate>, name: string)
    ensures name in ByName(crates) <==> Named(crates, name)
  {
    if crates != [] {
      var (before, last) := (crates[..|crates| - 1], crates[|crates| - 1]);
      IndexedBy(before, name);
      TakeNext(crates, |crates| - 1);
      TakeAll(crates);
      assert forall c :: c in crates <==> c in before || c == last;
    }
  }

  lemma {:induction false} IndexedLast(crates: seq<Crate>, k: nat)
    requires LastNamed(crates, k)
    ensures crates[k].name in ByName(crates) && ByName(crates)[crates[k].name] == crates[k]
  {
    var before := crates[..|crates| - 1];
    if k < |crates| - 1 {
      assert before[k] == crates[k];
      IndexedLast(before, k);
    }
  }

  lemma {:induction false} LastOf(crates: seq<Crate>, name: string) returns (k: nat)
    requires Named(crates, name)
    ensures LastNamed(crates, k) && crates[k].name == name
  {
    k := |crates| - 1;
    if crates[k].name != name {
      var before := crates[..k];
      var c :| c in crates && c.name == name;
      var i :| 0 <= i < |crates| && crates[i] == c;
      assert before[i] == c;
      k := LastOf(before, name);
    }
  }

  lemma GraphIs(crates: seq<Crate>, name: string)
    ensures name in GraphOf(crates) <==> Named(crates, name)
    ensures forall dep :: DependsOn(crates, name, dep) <==> name in GraphOf(crates) && dep in GraphOf(crates)[name]
  {
    IndexedBy(crates, name);
    forall k: nat | LastNamed(crates, k)
      ensures crates[k].name in ByName(crates) && ByName(crates)[crates[k].name] == crates[k]
    {
      IndexedLast(crates, k);
    }
    if Named(crates, name) {
      var k := LastOf(crates, name);
    }
  }

  // ---- When there is an order ----

  lemma {:induction false} PathByIndex(g: Graph, path: seq<string>)
    ensures Path(g, path) <==> Edges(g, path)
  {
    if |path| >= 2 {
      PathByIndex(g, path[1..]);
      EdgesShift(g, path);
    }
  }

  ghost predicate Edges(g: Graph, path: seq<string>) {
    forall i :: 0 <= i < |path| - 1 ==> EdgeAt(g, path, i)
  }

  lemma EdgesShift(g: Graph, path: seq<string>)
    requires |path| >= 2
    ensures Edges(g, path) <==> EdgeAt(g, path, 0) && Edges(g, path[1..])
  {
    forall i | 0 <= i < |path| - 2
      ensures EdgeAt(g, path[1..], i) <==> EdgeAt(g, path, i + 1)
    {
    }
    if EdgeAt(g, path, 0) && Edges(g, path[1..]) {
      forall i | 1 <= i < |path| - 1
        ensures EdgeAt(g, path, i)
      {
        assert EdgeAt(g, path[1..], i - 1);
      }
    }
  }

  predicate EdgeAt(g: Graph, path: seq<string>, i: nat)
    requires i + 1 < |path|
  {
    path[i] in g && path[i + 1] in g[path[i]]
  }

  lemma CyclesAre(crates: seq<Crate>, path: seq<string>)
    ensures Cycle(GraphOf(crates), path) <==> DependencyCycle(crates, path)
  {
    var g := GraphOf(crates);
    PathByIndex(g, path);
    forall i | 0 <= i < |path| - 1
      ensures EdgeAt(g, path, i) <==> StepAt(crates, path, i)
    {
      GraphIs(crates, path[i]);
    }
  }

  /** Every dependency of every crate is a crate, and no dependencies go in a circle. */
  ghost predicate Publishable(crates: seq<Crate>) {
    && (forall name, dep :: DependsOn(crates, name, dep) ==> Named(crates, dep))
    && (forall path :: !DependencyCycle(crates, path))
  }

  lemma ClosedIs(crates: seq<Crate>)
    ensures Closed(GraphOf(crates)) <==> forall name, dep :: DependsOn(crates, name, dep) ==> Named(crates, dep)
  {
    var g := GraphOf(crates);
    if Closed(g) {
      forall name, dep | DependsOn(crates, name, dep)
        ensures Named(crates, dep)
      {
        GraphIs(crates, name);
        assert dep in g[name];
        GraphIs(crates, dep);
      }
    } else {
      var name :| name in g && !(g[name] <= g.Keys);
      var dep :| dep in g[name] && dep !in g;
      GraphIs(crates, name);
      GraphIs(crates, dep);
      assert DependsOn(crates, name, dep) && !Named(crates, dep);
    }
  }

  lemma OrderableIs(crates: seq<Crate>)
    ensures Orderable(GraphOf(crates)) <==> Publishable(crates)
  {
    ClosedIs(crates);
    forall path
      ensures Cycle(GraphOf(crates), path) <==> DependencyCycle(crates, path)
    {
      CyclesAre(crates, path);
    }
  }

  // ---- What the order is ----

  /** Each crate comes after one for every one of its dependencies. */
  ghost predicate AfterDependencies(ordered: seq<Crate>) {
    forall i, dep :: 0 <= i < |ordered| && dep in ordered[i].depNames ==> Named(ordered[..i], dep)
  }

  lemma {:induction false} NamesAt(ordered: seq<Crate>)
    ensures |NamesOf(ordered)| == |ordered|
    ensures forall i :: 0 <= i < |ordered| ==> NamesOf(ordered)[i] == ordered[i].name
  {
    if ordered != [] {
      NamesAt(ordered[..|ordered| - 1]);
    }
  }

  lemma NamesBefore(ordered: seq<Crate>, i: nat, name: string)
    requires i <= |ordered| <= |NamesOf(ordered)| && name in Elements(NamesOf(ordered)[..i])
    ensures Named(ordered[..i], name)
  {
    NamesAt(ordered);
    var j :| 0 <= j < i && NamesOf(ordered)[j] == name;
    assert ordered[..i][j] == ordered[j];
  }

  lemma OrderedAfter(crates: seq<Crate>, ordered: seq<Crate>)
    requires PublishingOrder(GraphOf(crates), NamesOf(ordered))
    requires forall c :: c in ordered ==> c.name in ByName(crates) && c == ByName(crates)[c.name]
    ensures AfterDependencies(ordered)
  {
    var (g, names) := (GraphOf(crates), NamesOf(ordered));
    NamesAt(ordered);
    forall i, dep | 0 <= i < |ordered| && dep in ordered[i].depNames
      ensures Named(ordered[..i], dep)
    {
      assert ordered[i] in ordered;
      assert names[i] in Ready(g, Elements(names[..i]));
      NamesBefore(ordered, i, dep);
    }
  }

  lemma OrderedOnce(g: Graph, ordered: seq<Crate>)
    requires PublishingOrder(g, NamesOf(ordered))
    ensures Distinct(ordered)
  {
    var names := NamesOf(ordered);
    NamesAt(ordered);
    forall i, j | 0 <= i < j < |ordered|
      ensures ordered[i].name != ordered[j].name
    {
      assert names[j] in Ready(g, Elements(names[..j]));
      assert names[..j][i] == names[i];
    }
  }

  /** The crates that count are exactly those ordered. */
  lemma OrderedAreLast(crates: seq<Crate>, ordered: seq<Crate>, k: nat)
    requires PublishingOrder(GraphOf(crates), NamesOf(ordered)) && LastNamed(crates, k)
    requires forall c :: c in ordered ==> c.name in ByName(crates) && c == ByName(crates)[c.name]
    ensures crates[k] in ordered
  {
    IndexedLast(crates, k);
    NamesAt(ordered);
    assert crates[k].name in Elements(NamesOf(ordered));
    var i :| 0 <= i < |ordered| && NamesOf(ordered)[i] == crates[k].name;
    assert ordered[i] in ordered;
  }

  lemma {:induction false} DistinctOnce(crates: seq<Crate>, c: Crate)
    requires Distinct(crates)
    ensures multiset(crates)[c] == if c in crates then 1 else 0
  {
    if crates != [] {
      var (before, last) := (crates[..|crates| - 1], crates[|crates| - 1]);
      DistinctOnce(before, c);
      TakeNext(crates, |crates| - 1);
      TakeAll(crates);
      assert c in crates <==> c in before || c == last;
      forall i | 0 <= i < |before|
        ensures before[i] != last
      {
        assert before[i] == crates[i];
      }
    }
  }

  lemma SameCrates(a: seq<Crate>, b: seq<Crate>)
    requires Distinct(a) && Distinct(b) && forall c :: c in a <==> c in b
    ensures multiset(a) == multiset(b)
  {
    forall c: Crate
      ensures multiset(a)[c] == multiset(b)[c]
    {
      DistinctOnce(a, c);
      DistinctOnce(b, c);
    }
  }

  /** Every ordered crate is one of the crates, and the last of its name. */
  ghost predicate IsLast(crates: seq<Crate>, c: Crate) {
    exists k: nat :: LastNamed(crates, k) && crates[k] == c
  }

  lemma OrderedIsLast(crates: seq<Crate>, name: string)
    requires name in ByName(crates)
    ensures IsLast(crates, ByName(crates)[name])
  {
    IndexedBy(crates, name);
    var k := LastOf(crates, name);
    IndexedLast(crates, k);
  }

  lemma OrderedAreExactly(crates: seq<Crate>, ordered: seq<Crate>)
    requires PublishingOrder(GraphOf(crates), NamesOf(ordered))
    requires forall c :: c in ordered ==> c.name in ByName(crates) && c == ByName(crates)[c.name]
    ensures forall c :: c in ordered <==> IsLast(crates, c)
  {
    forall c
      ensures c in ordered <==> IsLast(crates, c)
    {
      if c in ordered {
        OrderedIsLast(crates, c.name);
      }
      if k: nat :| LastNamed(crates, k) && crates[k] == c {
        OrderedAreLast(crates, ordered, k);
      }
    }
  }

  lemma OrderedPermutes(crates: seq<Crate>, ordered: seq<Crate>)
    requires Distinct(crates) && Distinct(ordered) && forall c :: c in ordered <==> IsLast(crates, c)
    ensures multiset(ordered) == multiset(crates)
  {
    forall c
      ensures c in crates <==> IsLast(crates, c)
    {
      if c in crates {
        var k :| 0 <= k < |crates| && crates[k] == c;
        assert LastNamed(crates, k);
      }
    }
    SameCrates(ordered, crates);
  }

  /**
   The sort succeeds exactly when every dependency is a crate and none go in a circle. Each crate then comes after
   all its dependencies, and with distinct names the result is the crates themselves in another order.
   */
  method TopoSort(crates: seq<Crate>) returns (r: Option<seq<Crate>>)
    ensures r.Some? <==> Publishable(crates)
    ensures r.Some? ==> PublishingOrder(GraphOf(crates), NamesOf(r.value))
    ensures r.Some? ==> AfterDependencies(r.value) && Distinct(r.value)
    ensures r.Some? ==> forall c :: c in r.value <==> IsLast(crates, c)
    ensures r.Some? && Distinct(crates) ==> multiset(r.value) == multiset(crates)
  {
    var byName, remaining := Index(crates);
    r := Place(byName, remaining);
    OrderableIs(crates);
    if r.Some? {
      OrderedAfter(crates, r.value);
      OrderedOnce(GraphOf(crates), r.value);
      OrderedAreExactly(crates, r.value);
      if Distinct(crates) {
        OrderedPermutes(crates, r.value);
      }
    }
  }
}
