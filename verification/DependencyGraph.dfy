/** Dependency graphs, and the loop that orders their names smallest ready name first. */
module DependencyGraph {
  import opened Text
  import opened Lex

  datatype Crate = Crate(name: string, version: string, directory: string, depNames: set<string>)

  /** The names each name waits for. */
  type Graph = map<string, set<string>>

  /** Crates by name; a later crate replaces an earlier one of the same name. */
  function ByName(crates: seq<Crate>): (byName: map<string, Crate>) {
    if crates == [] then map[]
    else var last := crates[|crates| - 1]; ByName(crates[..|crates| - 1])[last.name := last]
  }

  function GraphOf(crates: seq<Crate>): (g: Graph) {
    var byName := ByName(crates);
    map name | name in byName :: byName[name].depNames
  }

  // ---- What a publishing order is ----

  /** Every dependency is itself one of the crates. */
  ghost predicate Closed(g: Graph) {
    forall name :: name in g ==> g[name] <= g.Keys
  }

  /** Each name of `path` depends on the next. */
  ghost predicate Path(g: Graph, path: seq<string>) {
    |path| < 2 || (path[0] in g && path[1] in g[path[0]] && Path(g, path[1..]))
  }

  /** `path` follows dependencies from its first name back to it. */
  ghost predicate Cycle(g: Graph, path: seq<string>) {
    |path| >= 2 && path[0] == path[|path| - 1] && Path(g, path)
  }

  ghost predicate Acyclic(g: Graph) {
    forall path :: !Cycle(g, path)
  }

  /** The names not yet ordered whose dependencies all are. */
  function Ready(g: Graph, done: set<string>): (r: set<string>) {
    set name | name in g && name !in done && g[name] <= done
  }

  /** Each name comes once, and only after all its dependencies. */
  ghost predicate DependencyOrder(g: Graph, names: seq<string>) {
    forall k :: 0 <= k < |names| ==> names[k] in Ready(g, Elements(names[..k]))
  }

  /** Moreover each name is the smallest that could have come at its turn. */
  ghost predicate SmallestFirst(g: Graph, names: seq<string>) {
    forall k :: 0 <= k < |names| ==> Least(names[k], Ready(g, Elements(names[..k])))
  }

  ghost predicate PublishingOrder(g: Graph, names: seq<string>) {
    SmallestFirst(g, names) && Elements(names) == g.Keys && |names| == |g|
  }

  function NamesOf(ordered: seq<Crate>): (names: seq<string>) {
    if ordered == [] then [] else NamesOf(ordered[..|ordered| - 1]) + [ordered[|ordered| - 1].name]
  }

  /** The dependencies still to place, once the names `done` are placed. */
  function Remaining(g: Graph, done: set<string>): (remaining: Graph) {
    map name | name in g && name !in done :: g[name] - done
  }

  ghost predicate Orderable(g: Graph) {
    Closed(g) && Acyclic(g)
  }

  /** The loop over the crates still to place, each with the dependencies it still waits for. */
  method Place(byName: map<string, Crate>, g: Graph) returns (r: Option<seq<Crate>>)
    requires byName.Keys == g.Keys && forall name :: name in byName ==> byName[name].name == name
    ensures r.Some? <==> Orderable(g)
    ensures r.Some? ==> PublishingOrder(g, NamesOf(r.value))
    ensures r.Some? ==> forall c :: c in r.value ==> c.name in byName && c == byName[c.name]
  {
    var remaining := g;
    var ordered: seq<Crate> := [];
    NothingPlaced(g);
    while remaining != map[]
      invariant remaining == Remaining(g, Elements(NamesOf(ordered)))
      invariant Placed(g, NamesOf(ordered))
      invariant forall c :: c in ordered ==> c.name in byName && c == byName[c.name]
      decreases |remaining|
    {
      ghost var names := NamesOf(ordered);
      var ready := set name | name in remaining && remaining[name] == {};
      ReadyRemaining(g, Elements(names));
      if ready == {} {
        SomeNameLeft(g, Elements(names));
        StuckIsNotOrderable(g, Elements(names));
        return None;
      }
      var sorted := Sort(ready);
      var name := sorted[0];
      FirstIsLeast(sorted);
      PlaceOne(g, names, name);
      ordered := ordered + [byName[name]];
      remaining := map n | n in remaining && n != name :: remaining[n] - {name};
    }
    EveryNamePlaced(g, Elements(NamesOf(ordered)));
    OrderIsAcyclic(g, NamesOf(ordered));
    return Some(ordered);
  }

  lemma NothingPlaced(g: Graph)
    ensures Remaining(g, {}) == g && Elements([]) == {}
  {
    assert forall name :: name in g ==> g[name] - {} == g[name];
  }

  /** What holds of the names placed so far. */
  ghost predicate Placed(g: Graph, names: seq<string>) {
    && SmallestFirst(g, names) && Elements(names) <= g.Keys
    && |names| + |Remaining(g, Elements(names))| == |g|
  }

  lemma PlaceOne(g: Graph, names: seq<string>, name: string)
    requires Placed(g, names) && Least(name, Ready(g, Elements(names)))
    ensures Placed(g, names + [name])
    ensures Remaining(g, Elements(names + [name]))
         == map n | n in Remaining(g, Elements(names)) && n != name :: Remaining(g, Elements(names))[n] - {name}
  {
    SmallestFirstSnoc(g, names, name);
    RemainingStep(g, Elements(names), name);
  }

  lemma SomeNameLeft(g: Graph, done: set<string>)
    requires Remaining(g, done) != map[]
    ensures g.Keys - done != {}
  {
    assert Remaining(g, done).Keys == g.Keys - done;
  }

  method Index(crates: seq<Crate>) returns (byName: map<string, Crate>, remaining: Graph)
    ensures byName == ByName(crates) && remaining == GraphOf(crates)
    ensures forall name :: name in byName ==> byName[name].name == name
  {
    byName, remaining := map[], map[];
    for i := 0 to |crates|
      invariant byName == ByName(crates[..i]) && remaining == GraphOf(crates[..i])
      invariant forall name :: name in byName ==> byName[name].name == name
    {
      assert crates[..i + 1][..i] == crates[..i];
      byName := byName[crates[i].name := crates[i]];
      remaining := remaining[crates[i].name := crates[i].depNames];
    }
    assert crates[..|crates|] == crates;
  }

  lemma NothingLeft(deps: set<string>, done: set<string>)
    ensures deps - done == {} <==> deps <= done
  {
    if deps - done == {} {
      forall dep | dep in deps
        ensures dep in done
      {
        assert dep !in deps - done;
      }
    }
  }

  lemma ReadyRemaining(g: Graph, done: set<string>)
    ensures (set name | name in Remaining(g, done) && Remaining(g, done)[name] == {}) == Ready(g, done)
  {
    forall name | name in g
      ensures g[name] - done == {} <==> g[name] <= done
    {
      NothingLeft(g[name], done);
    }
  }

  lemma RemainingStep(g: Graph, done: set<string>, name: string)
    requires name in g && name !in done
    ensures (map n | n in Remaining(g, done) && n != name :: Remaining(g, done)[n] - {name})
         == Remaining(g, done + {name})
    ensures |Remaining(g, done)| == |Remaining(g, done + {name})| + 1
  {
    assert forall n :: n in g ==> g[n] - done - {name} == g[n] - (done + {name});
    assert Remaining(g, done).Keys == Remaining(g, done + {name}).Keys + {name};
  }

  lemma EveryNamePlaced(g: Graph, done: set<string>)
    requires Remaining(g, done) == map[] && done <= g.Keys
    ensures done == g.Keys
  {
    assert forall name :: name in g && name !in done ==> name in Remaining(g, done);
  }

  lemma FirstIsLeast(sorted: seq<string>)
    requires sorted != [] && Ascending(sorted)
    ensures Least(sorted[0], Elements(sorted))
  {
  }

  lemma SmallestFirstSnoc(g: Graph, names: seq<string>, name: string)
    requires SmallestFirst(g, names) && Least(name, Ready(g, Elements(names)))
    ensures SmallestFirst(g, names + [name]) && Elements(names + [name]) == Elements(names) + {name}
  {
    var longer := names + [name];
    forall k | 0 <= k < |longer|
      ensures Least(longer[k], Ready(g, Elements(longer[..k])))
    {
      assert longer[..k] == names[..k];
      assert names[..|names|] == names;
    }
  }

  // ---- Why it fails only on graphs that have no order ----

  lemma SubsetSize(a: set<string>, b: set<string>)
    requires a <= b
    ensures |a| <= |b|
  {
    assert b == a + (b - a);
  }

  /** When no name left is ready, each waits for another one left. */
  lemma WaitsForAnother(g: Graph, done: set<string>, name: string) returns (dep: string)
    requires Closed(g) && Ready(g, done) == {} && name in g.Keys - done
    ensures dep in g[name] && dep in g.Keys - done
  {
    assert name !in Ready(g, done);
    dep :| dep in g[name] && dep !in done;
  }

  /** A walk along names that wait for one another runs into itself. */
  lemma FindCycle(g: Graph, done: set<string>, path: seq<string>) returns (cycle: seq<string>)
    requires Closed(g) && Ready(g, done) == {}
    requires path != [] && Path(g, path) && Elements(path) <= g.Keys - done && |Elements(path)| == |path|
    ensures Cycle(g, cycle)
    decreases |g.Keys - done| - |path|
  {
    var last := path[|path| - 1];
    assert last in Elements(path);
    var next := WaitsForAnother(g, done, last);
    PathSnoc(g, path, next);
    var longer := path + [next];
    if next in path {
      var i :| 0 <= i < |path| && path[i] == next;
      PathDrop(g, longer, i);
      cycle := longer[i..];
    } else {
      assert Elements(longer) == Elements(path) + {next};
      SubsetSize(Elements(longer), g.Keys - done);
      cycle := FindCycle(g, done, longer);
    }
  }

  lemma {:induction false} PathSnoc(g: Graph, path: seq<string>, next: string)
    requires path != [] && Path(g, path) && path[|path| - 1] in g && next in g[path[|path| - 1]]
    ensures Path(g, path + [next])
  {
    assert (path + [next])[1..] == path[1..] + [next];
    if |path| > 1 {
      PathSnoc(g, path[1..], next);
    }
  }

  lemma {:induction false} PathDrop(g: Graph, path: seq<string>, i: nat)
    requires Path(g, path) && i <= |path|
    ensures Path(g, path[i..])
  {
    if i == 0 || |path| < 2 {
      assert path[0..] == path;
    } else {
      PathDrop(g, path[1..], i - 1);
      assert path[1..][i - 1..] == path[i..];
    }
  }

  lemma StuckIsNotOrderable(g: Graph, done: set<string>)
    requires g.Keys - done != {} && Ready(g, done) == {}
    ensures !Orderable(g)
  {
    if Closed(g) {
      var name :| name in g.Keys - done;
      assert Elements([name]) == {name};
      var cycle := FindCycle(g, done, [name]);
    }
  }

  // ---- Why an order rules cycles out ----

  /** Along a path the names move to ever earlier places of the order. */
  lemma {:induction false} PathMovesBack(g: Graph, names: seq<string>, path: seq<string>, k: nat)
    requires DependencyOrder(g, names) && k < |names|
    requires |path| >= 2 && Path(g, path) && path[0] == names[k]
    ensures path[|path| - 1] in Elements(names[..k])
    decreases |path|
  {
    assert names[k] in Ready(g, Elements(names[..k]));
    if |path| > 2 {
      var j :| 0 <= j < k && names[j] == path[1];
      PathMovesBack(g, names, path[1..], j);
      assert forall name :: name in names[..j] ==> name in names[..k];
    }
  }

  lemma OrderIsAcyclic(g: Graph, names: seq<string>)
    requires SmallestFirst(g, names) && Elements(names) == g.Keys
    ensures Orderable(g)
  {
    forall name | name in g
      ensures g[name] <= g.Keys
    {
      assert name in Elements(names);
      var k :| 0 <= k < |names| && names[k] == name;
      assert names[k] in Ready(g, Elements(names[..k]));
      assert forall n :: n in names[..k] ==> n in Elements(names);
    }
    forall path
      ensures !Cycle(g, path)
    {
      if Cycle(g, path) {
        assert path[0] in Elements(names);
        var k :| 0 <= k < |names| && names[k] == path[0];
        assert names[k] in Ready(g, Elements(names[..k]));
        PathMovesBack(g, names, path, k);
      }
    }
  }

  // ---- What the smallest-first rule gives ----

  /** Of all orders that respect the dependencies, the one computed is lexicographically first. */
  lemma {:induction false} SmallestFirstIsFirst(g: Graph, names: seq<string>, other: seq<string>)
    requires PublishingOrder(g, names)
    requires DependencyOrder(g, other) && |other| == |g|
    ensures names == other
         || exists k :: 0 <= k < |g| && names[..k] == other[..k] && Less(names[k], other[k])
  {
    var k := 0;
    while k < |g| && names[k] == other[k]
      invariant 0 <= k <= |g| && names[..k] == other[..k]
    {
      k := k + 1;
    }
    if k < |g| {
      assert other[k] in Ready(g, Elements(names[..k]));
      assert Least(names[k], Ready(g, Elements(names[..k])));
    } else {
      assert names == names[..k] && other == other[..k];
    }
  }
}
