/** Token-based listing of bucket keys, and the client that follows the tokens. */
module Listing {
  import opened Text
  import opened Seqs
  import opened Lex

  /** Object sizes by key. */
  type Objects = map<string, nat>

  /** The `max-keys` parameter: missing, an integer, or text that is none. */
  datatype MaxKeys = Absent | Number(n: int) | Malformed

  datatype Entry = CommonPrefix(key: string) | Contents(key: string, size: nat)

  datatype Reply = InvalidArgument | Page(content: seq<Entry>, limit: nat, next: Option<string>)

  function Limit(maxKeys: MaxKeys): (limit: nat)
    requires !maxKeys.Malformed?
    ensures 1 <= limit <= 1000
  {
    match maxKeys
    case Absent => 1000
    case Number(n) => if n < 1 then 1 else if n > 1000 then 1000 else n
  }

  // ---- What is listed ----

  /** Where `part` first occurs in `s`. */
  function Find(s: string, part: string): (r: Option<nat>)
    ensures r.Some? ==> r.value <= |s| && part <= s[r.value..]
  {
    if part <= s then Some(0)
    else if s == "" then None
    else
      match Find(s[1..], part)
      case None => None
      case Some(i) => assert s[1..][i..] == s[i + 1..]; Some(i + 1)
  }

  /** No occurrence is missed, and none is earlier. */
  lemma {:induction false} FindIsFirst(s: string, part: string, i: nat)
    requires i <= |s| && part <= s[i..]
    ensures Find(s, part).Some? && Find(s, part).value <= i
    decreases i
  {
    if i == 0 {
      TakeAll(s);
    } else if !(part <= s) {
      assert s[1..][i - 1..] == s[i..];
      FindIsFirst(s[1..], part, i - 1);
    }
  }

  predicate Grouped(prefix: string, delimiter: string, key: string) {
    prefix <= key && delimiter != "" && Find(key[|prefix|..], delimiter).Some?
  }

  /** The name a matching key is listed under: itself, or the group up to its first delimiter. */
  function ListedAs(prefix: string, delimiter: string, key: string): (name: string)
    ensures Grouped(prefix, delimiter, key) ==> name != ""
  {
    if Grouped(prefix, delimiter, key)
    then prefix + key[|prefix|..][..Find(key[|prefix|..], delimiter).value] + delimiter
    else key
  }

  /** `part` occurs in `s` at place `i`. */
  predicate OccursAt(s: string, part: string, i: nat) {
    i <= |s| && part <= s[i..]
  }

  /** A key with a delimiter after the prefix is listed as the group that ends with its first one. */
  lemma GroupListedAs(prefix: string, head: string, delimiter: string, tail: string)
    requires delimiter != "" && forall i: nat :: i < |head| ==> !OccursAt(head + delimiter + tail, delimiter, i)
    ensures ListedAs(prefix, delimiter, prefix + (head + delimiter + tail)) == prefix + head + delimiter
  {
    var rest := head + delimiter + tail;
    assert (prefix + rest)[|prefix|..] == rest;
    assert rest[|head|..] == delimiter + tail;
    FindIsFirst(rest, delimiter, |head|);
    assert OccursAt(rest, delimiter, Find(rest, delimiter).value);
    assert rest[..|head|] == head;
  }

  /** A key without one, or with no delimiter asked for, is listed as itself. */
  lemma ObjectListedAs(prefix: string, delimiter: string, rest: string)
    requires delimiter == "" || forall i: nat :: i <= |rest| ==> !OccursAt(rest, delimiter, i)
    ensures ListedAs(prefix, delimiter, prefix + rest) == prefix + rest
  {
    assert (prefix + rest)[|prefix|..] == rest;
    if Find(rest, delimiter).Some? {
      assert OccursAt(rest, delimiter, Find(rest, delimiter).value);
    }
  }

  function ListedNames(objects: Objects, prefix: string, delimiter: string): (names: set<string>) {
    set key | key in objects && prefix <= key :: ListedAs(prefix, delimiter, key)
  }

  /** Whether an entry is a group or an object shows on its name alone. */
  ghost predicate ShownAs(objects: Objects, prefix: string, delimiter: string, entry: Entry) {
    && entry.key in ListedNames(objects, prefix, delimiter)
    && (entry.CommonPrefix? <==> Grouped(prefix, delimiter, entry.key))
    && (entry.Contents? ==> entry.key in objects && entry.size == objects[entry.key])
  }

  function KeysOf(content: seq<Entry>): (keys: seq<string>)
    ensures |keys| == |content|
    ensures forall i :: 0 <= i < |content| ==> keys[i] == content[i].key
  {
    if content == [] then [] else KeysOf(content[..|content| - 1]) + [content[|content| - 1].key]
  }

  /** The names after `token`. */
  function Above(names: set<string>, token: string): set<string> {
    set name | name in names && Less(token, name)
  }

  /** The names after `token`, up to and including `last`. */
  function Between(names: set<string>, token: string, last: string): set<string> {
    set name | name in names && Less(token, name) && AtMost(name, last)
  }

  /** One page: the first `limit` names after `token`, with the last one as token if any remain. */
  ghost predicate PageOf(names: set<string>, token: string, limit: nat, keys: seq<string>, next: Option<string>) {
    && Ascending(keys) && |keys| <= limit
    && (next.None? ==> Elements(keys) == Above(names, token))
    && (next.Some? ==>
          && |keys| == limit > 0 && next.value == keys[limit - 1] && Above(names, next.value) != {}
          && Elements(keys) == Between(names, token, next.value))
  }

  // ---- The server ----

  /** Fills the entries, whatever order the objects come in. */
  method Entries(objects: Objects, prefix: string, delimiter: string)
    returns (entries: map<string, Option<nat>>)
    ensures entries.Keys == ListedNames(objects, prefix, delimiter)
    ensures forall name :: name in entries ==>
      ShownAs(objects, prefix, delimiter, Shown(name, entries[name]))
  {
    entries := map[];
    var rest := objects.Keys;
    ghost var done: set<string> := {};
    while rest != {}
      invariant rest <= objects.Keys && done == objects.Keys - rest
      invariant entries.Keys == set key | key in done && prefix <= key :: ListedAs(prefix, delimiter, key)
      invariant forall name :: name in entries ==>
        ShownAs(objects, prefix, delimiter, Shown(name, entries[name]))
      decreases |rest|
    {
      var key :| key in rest;
      rest, done := rest - {key}, done + {key};
      if prefix <= key {
        var tail := key[|prefix|..];
        ListedOnce(prefix, delimiter, key);
        var at := Find(tail, delimiter);
        if delimiter != "" && at.Some? {
          entries := entries[prefix + tail[..at.value] + delimiter := None];
        } else {
          entries := entries[key := Some(objects[key])];
        }
      }
    }
  }

  function Shown(key: string, size: Option<nat>): Entry {
    if size.None? then CommonPrefix(key) else Contents(key, size.value)
  }

  /** A group's own name falls in the same group, so no group and object share a name. */
  lemma ListedOnce(prefix: string, delimiter: string, key: string)
    requires prefix <= key
    ensures Grouped(prefix, delimiter, ListedAs(prefix, delimiter, key)) <==> Grouped(prefix, delimiter, key)
    ensures ListedAs(prefix, delimiter, ListedAs(prefix, delimiter, key)) == ListedAs(prefix, delimiter, key)
  {
    if Grouped(prefix, delimiter, key) {
      var tail := key[|prefix|..];
      var at := Find(tail, delimiter).value;
      var name := ListedAs(prefix, delimiter, key);
      assert name[|prefix|..] == tail[..at] + delimiter;
      FindInGroup(tail, delimiter);
      assert (tail[..at] + delimiter)[..at] == tail[..at];
    }
  }

  lemma FindInGroup(tail: string, delimiter: string)
    requires delimiter != "" && Find(tail, delimiter).Some?
    ensures var at := Find(tail, delimiter);
      Find(tail[..at.value] + delimiter, delimiter) == at
  {
    var at := Find(tail, delimiter).value;
    var part := tail[..at] + delimiter;
    assert part[at..] == delimiter;
    FindIsFirst(part, delimiter, at);
    var again := Find(part, delimiter).value;
    assert part == tail[..at + |delimiter|];
    assert part[again..] == tail[again..at + |delimiter|];
    FindIsFirst(tail, delimiter, again);
  }

  method List(objects: Objects, prefix: string, delimiter: string, token: string, maxKeys: MaxKeys)
    returns (reply: Reply)
    ensures reply.InvalidArgument? <==> maxKeys.Malformed?
    ensures reply.Page? && maxKeys.Absent? ==> reply.limit == 1000
    ensures reply.Page? && maxKeys.Number? ==>
      && (1 <= maxKeys.n <= 1000 ==> reply.limit == maxKeys.n)
      && (maxKeys.n < 1 ==> reply.limit == 1) && (maxKeys.n > 1000 ==> reply.limit == 1000)
    ensures reply.Page? ==>
      PageOf(ListedNames(objects, prefix, delimiter), token, reply.limit, KeysOf(reply.content), reply.next)
    ensures reply.Page? ==> forall entry :: entry in reply.content ==> ShownAs(objects, prefix, delimiter, entry)
  {
    if maxKeys.Malformed? {
      return InvalidArgument;
    }
    var limit := Limit(maxKeys);
    var entries := Entries(objects, prefix, delimiter);
    var page, next := Paginate(entries.Keys, token, limit);
    var content := Render(entries, page);
    forall entry | entry in content
      ensures ShownAs(objects, prefix, delimiter, entry)
    {
      assert entry == Shown(entry.key, entries[entry.key]);
    }
    return Page(content, limit, next);
  }

  method Render(entries: map<string, Option<nat>>, page: seq<string>) returns (content: seq<Entry>)
    requires Elements(page) <= entries.Keys
    ensures KeysOf(content) == page
    ensures forall entry :: entry in content ==> entry.key in entries && entry == Shown(entry.key, entries[entry.key])
  {
    content := [];
    for i := 0 to |page|
      invariant KeysOf(content) == page[..i]
      invariant forall entry :: entry in content ==>
        entry.key in entries && entry == Shown(entry.key, entries[entry.key])
    {
      assert page[i] in Elements(page);
      content := content + [Shown(page[i], entries[page[i]])];
    }
    assert page[..|page|] == page;
  }

  method Paginate(names: set<string>, token: string, limit: nat) returns (page: seq<string>, next: Option<string>)
    requires limit >= 1
    ensures PageOf(names, token, limit, page, next) && Elements(page) <= names
  {
    var keys := KeysAfter(names, token);
    var more := |keys| > limit;
    if more {
      FirstPage(names, token, keys, limit);
      page, next := keys[..limit], Some(keys[limit - 1]);
    } else {
      page, next := keys, None;
    }
  }

  /** `[key for key in sorted(entries) if key > token]`. */
  method KeysAfter(names: set<string>, token: string) returns (keys: seq<string>)
    ensures Ascending(keys) && Elements(keys) == Above(names, token)
  {
    var sorted := Sort(names);
    keys := [];
    for i := 0 to |sorted|
      invariant Ascending(keys)
      invariant forall key :: key in keys <==> key in sorted[..i] && Less(token, key)
    {
      assert sorted[..i + 1] == sorted[..i] + [sorted[i]];
      if Less(token, sorted[i]) {
        forall j | 0 <= j < |keys|
          ensures Less(keys[j], sorted[i])
        {
          assert keys[j] in sorted[..i];
        }
        keys := keys + [sorted[i]];
      }
    }
    assert sorted[..|sorted|] == sorted;
    assert forall key :: key in sorted <==> key in Elements(sorted);
  }

  lemma FirstPage(names: set<string>, token: string, keys: seq<string>, limit: nat)
    requires Ascending(keys) && Elements(keys) == Above(names, token) && 1 <= limit < |keys|
    ensures PageOf(names, token, limit, keys[..limit], Some(keys[limit - 1]))
  {
    var page, last := keys[..limit], keys[limit - 1];
    assert forall name :: name in page ==> name in Elements(keys);
    forall name
      ensures name in Elements(page) <==> name in Between(names, token, last)
    {
      if name in Above(names, token) {
        assert name in Elements(keys);
        var i :| 0 <= i < |keys| && keys[i] == name;
        if i < limit {
          assert page[i] == name;
          assert i < limit - 1 ==> Less(keys[i], last);
        } else {
          NotBelow(last, name);
          if name in page {
            var j :| 0 <= j < limit && page[j] == name;
            Irreflexive(name);
          }
        }
      }
    }
    assert keys[limit] in Elements(keys);
    assert keys[limit] in Above(names, last);
  }

  lemma NotBelow(a: string, b: string)
    requires Less(a, b)
    ensures !AtMost(b, a)
  {
    if Less(b, a) {
      Transitive(a, b, a);
    }
    Irreflexive(a);
  }

  // ---- The client ----

  /** Follows continuation tokens from the empty one, with any page limit on each request. */
  method ListAll(objects: Objects, prefix: string, delimiter: string, maxKeys: nat -> MaxKeys)
    returns (received: seq<Entry>)
    requires forall request :: !maxKeys(request).Malformed?
    ensures Ascending(KeysOf(received))
    ensures Elements(KeysOf(received)) == ListedNames(objects, prefix, delimiter) - {""}
    ensures forall entry :: entry in received ==> ShownAs(objects, prefix, delimiter, entry)
  {
    ghost var names := ListedNames(objects, prefix, delimiter);
    var token, request := "", 0;
    received := [];
    var more := true;
    NothingBetween(names);
    while more
      invariant Ascending(KeysOf(received))
      invariant Elements(KeysOf(received)) == if more then Between(names, "", token) else Above(names, "")
      invariant forall entry :: entry in received ==> ShownAs(objects, prefix, delimiter, entry)
      decreases more, |Above(names, token)|
    {
      var reply := List(objects, prefix, delimiter, token, maxKeys(request));
      KeysOfAppend(received, reply.content);
      NextPage(names, token, reply.limit, KeysOf(received), KeysOf(reply.content), reply.next);
      received, request := received + reply.content, request + 1;
      match reply.next {
        case None => more := false;
        case Some(last) => token := last;
      }
    }
    assert Above(names, "") == names - {""};
  }

  lemma {:induction false} KeysOfAppend(a: seq<Entry>, b: seq<Entry>)
    ensures KeysOf(a + b) == KeysOf(a) + KeysOf(b)
  {
  }

  lemma NothingBetween(names: set<string>)
    ensures Between(names, "", "") == {}
  {
  }

  /** A page continues an ascending prefix of the listing, and leaves less to list. */
  lemma NextPage(names: set<string>, token: string, limit: nat, before: seq<string>, keys: seq<string>,
                 next: Option<string>)
    requires Ascending(before) && Elements(before) == Between(names, "", token)
    requires PageOf(names, token, limit, keys, next)
    ensures Ascending(before + keys)
    ensures Elements(before + keys) == if next.Some? then Between(names, "", next.value) else Above(names, "")
    ensures next.Some? ==> |Above(names, next.value)| < |Above(names, token)|
  {
    assert Elements(before + keys) == Elements(before) + Elements(keys);
    forall name, key | name in before && key in keys
      ensures Less(name, key)
    {
      assert name in Elements(before) && key in Elements(keys);
      if name != token {
        Transitive(name, token, key);
      }
    }
    forall name
      ensures Less(token, name) ==> Less("", name)
      ensures AtMost(name, token) <==> !Less(token, name)
    {
      Connected(name, token);
      if Less(token, name) {
        NotBelow(token, name);
      }
    }
    if next.Some? {
      var last := next.value;
      assert last in Elements(keys);
      AboveShrinks(names, token, last);
    }
  }

  lemma AboveShrinks(names: set<string>, token: string, last: string)
    requires last in Above(names, token)
    ensures |Above(names, last)| < |Above(names, token)|
    ensures forall name :: AtMost(name, token) ==> AtMost(name, last)
  {
    forall name | name in Above(names, last)
      ensures name in Above(names, token)
    {
      Transitive(token, last, name);
    }
    forall name | AtMost(name, token)
      ensures AtMost(name, last)
    {
      if name != token {
        Transitive(name, token, last);
      }
    }
    Irreflexive(last);
    assert Above(names, token) == Above(names, last) + (Above(names, token) - Above(names, last));
    assert last in Above(names, token) - Above(names, last);
  }

  /** What a client receives is determined by the bucket: page limits do not show in it. */
  lemma {:induction false} ListingIsUnique(
      objects: Objects, prefix: string, delimiter: string, a: seq<Entry>, b: seq<Entry>)
    requires Ascending(KeysOf(a)) && Ascending(KeysOf(b)) && Elements(KeysOf(a)) == Elements(KeysOf(b))
    requires forall entry :: entry in a + b ==> ShownAs(objects, prefix, delimiter, entry)
    ensures a == b
  {
    AscendingIsUnique(KeysOf(a), KeysOf(b));
    forall i | 0 <= i < |a|
      ensures a[i] == b[i]
    {
      assert a[i] in a + b && b[i] in a + b;
      assert KeysOf(a)[i] == a[i].key && KeysOf(b)[i] == b[i].key;
    }
  }

  /** The empty name is never after a token: the one thing a client cannot receive. */
  lemma {:induction false} EveryNameReceived(objects: Objects, prefix: string, delimiter: string)
    ensures ListedNames(objects, prefix, delimiter) - {""} == ListedNames(objects, prefix, delimiter)
      <==> !(prefix == "" && "" in objects)
  {
    var names := ListedNames(objects, prefix, delimiter);
    if prefix == "" && "" in objects {
      assert Find("", delimiter).Some? ==> delimiter == "";
      assert ListedAs(prefix, delimiter, "") == "";
      assert "" in names;
    } else {
      assert "" !in names;
    }
  }
}
