/** Strings as sequences of characters: the few operations the argv scanners share. */
module Text {

  datatype Option<+T> = None | Some(value: T)

  /** `str::starts_with`. */
  predicate StartsWith(s: string, prefix: string) {
    prefix <= s
  }

  /** `str::ends_with`. */
  predicate EndsWith(s: string, suffix: string) {
    |suffix| <= |s| && s[|s| - |suffix|..] == suffix
  }

  /** `str::split_once`: the parts around the first occurrence of `c`. */
  function SplitOnce(s: string, c: char): (r: Option<(string, string)>) {
    if s == [] then None
    else if s[0] == c then Some(([], s[1..]))
    else
      match SplitOnce(s[1..], c)
      case None => None
      case Some((before, after)) => Some(([s[0]] + before, after))
  }

  lemma {:induction false} SplitOnceParts(s: string, c: char)
    ensures SplitOnce(s, c).None? <==> c !in s
    ensures SplitOnce(s, c).Some? ==>
              var (before, after) := SplitOnce(s, c).value;
              c !in before && s == before + [c] + after
  {
    if s != [] {
      SplitOnceParts(s[1..], c);
      assert s == [s[0]] + s[1..];
    }
  }

  /** The split is determined by its left part holding no separator. */
  lemma {:induction false} SplitOnceOf(before: string, c: char, after: string)
    requires c !in before
    ensures SplitOnce(before + [c] + after, c) == Some((before, after))
  {
    var s := before + [c] + after;
    if before == [] {
      assert s[1..] == after;
    } else {
      assert s[1..] == before[1..] + [c] + after;
      SplitOnceOf(before[1..], c, after);
      assert before == [before[0]] + before[1..];
    }
  }

  /** Starting with `name` and a separator is the same as splitting into `name` and a rest. */
  lemma PrefixIsSplit(s: string, name: string, c: char)
    requires c !in name
    ensures StartsWith(s, name + [c]) <==> SplitOnce(s, c).Some? && SplitOnce(s, c).value.0 == name
    ensures StartsWith(s, name + [c]) ==> SplitOnce(s, c) == Some((name, s[|name| + 1..]))
  {
    SplitOnceParts(s, c);
    if StartsWith(s, name + [c]) {
      assert s == name + [c] + s[|name| + 1..];
      SplitOnceOf(name, c, s[|name| + 1..]);
    }
  }

  /** Among names without `=`, only the name itself starts its `name=value` spelling. */
  lemma JoinedPrefix(name: string, value: string, flag: string)
    requires '=' !in name && '=' !in flag
    ensures StartsWith(name + "=" + value, flag + "=") <==> name == flag
    ensures !StartsWith(name, flag + "=")
    ensures name + "=" + value != flag
  {
    var text := name + "=" + value;
    SplitOnceOf(name, '=', value);
    PrefixIsSplit(text, flag, '=');
    PrefixIsSplit(name, flag, '=');
    SplitOnceParts(name, '=');
    assert text[|name|] == '=';
  }

  /** The elements of `s` that satisfy `keep`, in order. */
  function Filter<T(!new)>(s: seq<T>, keep: T -> bool): (r: seq<T>)
    ensures forall x :: x in r <==> x in s && keep(x)
  {
    if s == [] then [] else (if keep(s[0]) then [s[0]] else []) + Filter(s[1..], keep)
  }

  lemma {:induction false} FilterAppend<T(!new)>(a: seq<T>, b: seq<T>, keep: T -> bool)
    ensures Filter(a + b, keep) == Filter(a, keep) + Filter(b, keep)
  {
    if a == [] {
      assert a + b == b;
    } else {
      assert (a + b)[1..] == a[1..] + b;
      FilterAppend(a[1..], b, keep);
    }
  }

  lemma FilterStep<T(!new)>(s: seq<T>, keep: T -> bool)
    requires s != []
    ensures Filter(s, keep) == if keep(s[0]) then [s[0]] + Filter(s[1..], keep) else Filter(s[1..], keep)
  {
  }

  lemma FilterSnoc<T(!new)>(s: seq<T>, x: T, keep: T -> bool)
    ensures Filter(s + [x], keep) == if keep(x) then Filter(s, keep) + [x] else Filter(s, keep)
  {
    FilterAppend(s, [x], keep);
    assert Filter(s, keep) + [] == Filter(s, keep);
  }
}
