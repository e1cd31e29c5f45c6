/** The order of strings by code point, and sorting of name sets by it. */
module Lex {

  predicate Less(a: string, b: string) {
    b != "" && (a == "" || a[0] < b[0] || (a[0] == b[0] && Less(a[1..], b[1..])))
  }

  /** The texts agree up to place `k`, where the first has the smaller character. */
  predicate DropsAt(a: string, b: string, k: nat) {
    k < |a| && k < |b| && a[..k] == b[..k] && a[k] < b[k]
  }

  /** A text is less than another exactly when it is cut from it, or smaller at the first place they differ. */
  lemma {:induction false} LessMeans(a: string, b: string)
    ensures Less(a, b) <==> a < b || exists k: nat :: DropsAt(a, b, k)
  {
    if a != "" && b != "" && a[0] == b[0] {
      LessMeans(a[1..], b[1..]);
      LessShift(a, b);
    } else if a != "" && b != "" && a[0] < b[0] {
      assert DropsAt(a, b, 0);
    } else if a != "" && b != "" {
      forall k: nat
        ensures !DropsAt(a, b, k)
      {
        if 0 < k < |a| && k < |b| {
          assert a[..k][0] != b[..k][0];
        }
      }
    }
  }

  lemma LessShift(a: string, b: string)
    requires a != "" && b != "" && a[0] == b[0]
    ensures a < b <==> a[1..] < b[1..]
    ensures (exists k: nat :: DropsAt(a, b, k)) <==> exists k: nat :: DropsAt(a[1..], b[1..], k)
  {
    assert a == [a[0]] + a[1..] && b == [b[0]] + b[1..];
    if k: nat :| DropsAt(a, b, k) {
      assert a[1..][..k - 1] == a[..k][1..] && b[1..][..k - 1] == b[..k][1..];
      assert DropsAt(a[1..], b[1..], k - 1);
    }
    if k: nat :| DropsAt(a[1..], b[1..], k) {
      assert a[..k + 1] == [a[0]] + a[1..][..k] && b[..k + 1] == [b[0]] + b[1..][..k];
      assert DropsAt(a, b, k + 1);
    }
  }

  predicate AtMost(a: string, b: string) {
    a == b || Less(a, b)
  }

  lemma {:induction false} Irreflexive(a: string)
    ensures !Less(a, a)
  {
    if a != "" {
      Irreflexive(a[1..]);
    }
  }

  lemma {:induction false} Transitive(a: string, b: string, c: string)
    requires Less(a, b) && Less(b, c)
    ensures Less(a, c)
  {
    if a != "" && a[0] == b[0] && b[0] == c[0] {
      Transitive(a[1..], b[1..], c[1..]);
    }
  }

  lemma {:induction false} Connected(a: string, b: string)
    ensures Less(a, b) || a == b || Less(b, a)
  {
    if a != "" && b != "" && a[0] == b[0] {
      Connected(a[1..], b[1..]);
      assert a == [a[0]] + a[1..] && b == [b[0]] + b[1..];
    }
  }

  ghost predicate Least(m: string, names: set<string>) {
    m in names && forall n :: n in names ==> AtMost(m, n)
  }

  predicate Ascending(s: seq<string>) {
    forall i, j :: 0 <= i < j < |s| ==> Less(s[i], s[j])
  }

  function Elements(s: seq<string>): set<string> {
    set x | x in s
  }

  /** The smallest name of a set. */
  method Smallest(names: set<string>) returns (m: string)
    requires names != {}
    ensures Least(m, names)
  {
    m :| m in names;
    var rest := names - {m};
    while rest != {}
      invariant rest <= names && Least(m, names - rest)
      decreases |rest|
    {
      var n :| n in rest;
      ghost var seen := names - rest;
      rest := rest - {n};
      assert names - rest == seen + {n};
      Connected(n, m);
      if Less(n, m) {
        forall x | x in seen
          ensures AtMost(n, x)
        {
          if x != m {
            Transitive(n, m, x);
          }
        }
        m := n;
      }
    }
    assert names - rest == names;
  }

  /** The names in ascending order. */
  method Sort(names: set<string>) returns (sorted: seq<string>)
    ensures Ascending(sorted) && Elements(sorted) == names
    ensures |sorted| == |names|
  {
    sorted := [];
    var rest := names;
    while rest != {}
      invariant rest <= names && Ascending(sorted) && Elements(sorted) == names - rest
      invariant forall a, b :: a in sorted && b in rest ==> Less(a, b)
      invariant |sorted| + |rest| == |names|
      decreases |rest|
    {
      var m := Smallest(rest);
      forall b | b in rest - {m}
        ensures Less(m, b)
      {
        assert AtMost(m, b);
      }
      assert Elements(sorted + [m]) == Elements(sorted) + {m};
      sorted := sorted + [m];
      rest := rest - {m};
    }
  }

  /** An ascending sequence is determined by its elements. */
  lemma {:induction false} AscendingIsUnique(a: seq<string>, b: seq<string>)
    requires Ascending(a) && Ascending(b) && Elements(a) == Elements(b)
    ensures a == b
  {
    if a == [] {
      assert forall i :: 0 <= i < |b| ==> b[i] in Elements(b);
    } else {
      assert a[0] in Elements(a) && a[0] in b;
      var x, y := a[0], b[0];
      assert y in Elements(b) && y in a;
      if x != y {
        assert Less(y, x) && Less(x, y);
        Transitive(x, y, x);
        Irreflexive(x);
      }
      TailElements(a);
      TailElements(b);
      AscendingIsUnique(a[1..], b[1..]);
      assert a == [x] + a[1..] && b == [y] + b[1..];
    }
  }

  lemma TailElements(a: seq<string>)
    requires a != [] && Ascending(a)
    ensures Ascending(a[1..]) && Elements(a[1..]) == Elements(a) - {a[0]}
  {
    assert a == [a[0]] + a[1..];
    Irreflexive(a[0]);
  }
}
