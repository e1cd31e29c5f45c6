/** The changed-line diff with moved lines turned into context. */
module MutationDiff {
  import opened Text
  import opened Seqs

  datatype Header = Header(oldStart: nat, oldCount: Option<nat>, newStart: nat, newCount: Option<nat>, tail: string)

  /** A diff line: a `diff --git ` line, one the hunk pattern matches, or any other. */
  datatype Line = DiffGit(text: string) | Hunk(header: Header) | Other(text: string)

  // A membership test on a line's first character also holds of an empty line.

  predicate OldSide(text: string) {
    text == "" || text[0] == ' ' || text[0] == '-'
  }

  predicate NewSide(text: string) {
    text == "" || text[0] == ' ' || text[0] == '+'
  }

  predicate Changed(text: string) {
    text == "" || text[0] == '+' || text[0] == '-'
  }

  function Tally(p: string -> bool, texts: seq<string>): (n: nat) {
    if texts == [] then 0 else (if p(texts[0]) then 1 else 0) + Tally(p, texts[1..])
  }

  // ---- The moved lines ----

  /** A line of the colored diff: what it reads without escapes, and whether it starts with the moved color. */
  datatype Painted = Painted(line: Line, moved: bool)

  predicate Added(line: Line) {
    line.Other? && StartsWith(line.text, "+") && !StartsWith(line.text, "+++")
  }

  predicate LinedUp(plain: seq<Line>, colored: seq<Painted>) {
    |plain| == |colored| && forall i :: 0 <= i < |plain| ==> colored[i].line == plain[i]
  }

  /** The added lines that git colored as moved, none when the two diffs do not line up. */
  function MovedLines(plain: seq<Line>, colored: seq<Painted>): (moved: set<nat>)
    ensures MovedAreAdded(plain, moved)
  {
    if LinedUp(plain, colored)
    then set i | 0 <= i < |plain| && Added(plain[i]) && colored[i].moved
    else {}
  }

  method MovedAddedLines(plain: seq<Line>, colored: seq<Painted>) returns (moved: Option<set<nat>>)
    ensures moved.Some? <==> LinedUp(plain, colored)
    ensures moved.Some? ==> moved.value == MovedLines(plain, colored)
    ensures moved.Some? ==> forall i: nat :: i in moved.value <==>
      i < |plain| && plain[i].Other? && "+" <= plain[i].text && !("+++" <= plain[i].text) && colored[i].moved
  {
    if |plain| != |colored| {
      return None;
    }
    var found: set<nat> := {};
    for i := 0 to |plain|
      invariant forall k :: 0 <= k < i ==> colored[k].line == plain[k]
      invariant found == set k | 0 <= k < i && Added(plain[k]) && colored[k].moved
    {
      if colored[i].line != plain[i] {
        return None;
      }
      if Added(plain[i]) && colored[i].moved {
        found := found + {i};
      }
    }
    return Some(found);
  }

  /** What the rewriting may assume of the moved lines. */
  ghost predicate MovedAreAdded(plain: seq<Line>, moved: set<nat>) {
    forall i :: i in moved && i < |plain| && plain[i].Other? ==> StartsWith(plain[i].text, "+")
  }

  // ---- Diffs as blocks ----

  datatype Marked = Marked(line: Line, moved: bool)

  datatype BodyLine = BodyLine(text: string, moved: bool)

  /** A `diff --git ` line or a hunk header, with the other lines that follow it. */
  datatype Block = File(text: string, rest: seq<BodyLine>) | Change(header: Header, body: seq<BodyLine>)

  function Mark(plain: seq<Line>, moved: set<nat>): (lines: seq<Marked>) {
    seq(|plain|, i requires 0 <= i < |plain| => Marked(plain[i], i in moved))
  }

  function Unmarked(lines: seq<Line>): (r: seq<Marked>) {
    seq(|lines|, i requires 0 <= i < |lines| => Marked(lines[i], false))
  }

  /** The other lines `lines` begins with. */
  function Leading(lines: seq<Marked>): (r: seq<BodyLine>) {
    if lines == [] || !lines[0].line.Other? then []
    else [BodyLine(lines[0].line.text, lines[0].moved)] + Leading(lines[1..])
  }

  function Blocks(lines: seq<Marked>): (r: seq<Block>) {
    if lines == [] then []
    else
      match lines[0].line
      case Other(_) => Blocks(lines[1..])
      case DiffGit(text) => [File(text, Leading(lines[1..]))] + Blocks(lines[1..])
      case Hunk(header) => [Change(header, Leading(lines[1..]))] + Blocks(lines[1..])
  }

  /** A moved line loses its first character to a blank. */
  function Shown(line: BodyLine): (text: string) {
    if line.moved then " " + (if line.text == "" then "" else line.text[1..]) else line.text
  }

  function ShownAll(body: seq<BodyLine>): (texts: seq<string>)
    ensures |texts| == |body| && forall i :: 0 <= i < |body| ==> texts[i] == Shown(body[i])
  {
    seq(|body|, i requires 0 <= i < |body| => Shown(body[i]))
  }

  function Raw(body: seq<BodyLine>): (texts: seq<string>)
    ensures |texts| == |body| && forall i :: 0 <= i < |body| ==> texts[i] == body[i].text
  {
    seq(|body|, i requires 0 <= i < |body| => body[i].text)
  }

  function Others(texts: seq<string>): (lines: seq<Line>)
    ensures |lines| == |texts| && forall i :: 0 <= i < |texts| ==> lines[i] == Other(texts[i])
  {
    seq(|texts|, i requires 0 <= i < |texts| => Other(texts[i]))
  }

  function MovedCount(body: seq<BodyLine>): (n: nat) {
    if body == [] then 0 else (if body[0].moved then 1 else 0) + MovedCount(body[1..])
  }

  // ---- The rewriting ----

  predicate AnyChanged(texts: seq<string>) {
    exists text :: text in texts && Changed(text)
  }

  function Recount(header: Header, shift: nat, texts: seq<string>): (r: Header) {
    var (oldCount, newCount) := (Tally(OldSide, texts), Tally(NewSide, texts));
    Header(header.oldStart + shift, Some(oldCount), header.newStart, Some(newCount), header.tail)
  }

  /** Writes the hunks that still change something, each file's pending header before its first. */
  function Emit(header: seq<Line>, shift: nat, blocks: seq<Block>): (out: seq<Line>)
    decreases |blocks|
  {
    if blocks == [] then []
    else
      match blocks[0]
      case File(text, rest) => Emit([DiffGit(text)] + Others(Raw(rest)), 0, blocks[1..])
      case Change(h, body) =>
        var texts := ShownAll(body);
        if AnyChanged(texts)
        then header + [Hunk(Recount(h, shift, texts))] + Others(texts)
             + Emit([], shift + MovedCount(body), blocks[1..])
        else Emit(header, shift, blocks[1..])
  }

  function Rewritten(lines: seq<Marked>): (out: seq<Line>) {
    Emit(Others(Raw(Leading(lines))), 0, Blocks(lines))
  }

  /** What is still to be written once `header`, an open hunk and `shift` have been gathered. */
  ghost function Rest(header: seq<Line>, hunk: Option<(Header, seq<BodyLine>)>, shift: nat, lines: seq<Marked>)
    : (out: seq<Line>)
  {
    match hunk
    case None => Emit(header + Others(Raw(Leading(lines))), shift, Blocks(lines))
    case Some((h, body)) => Emit(header, shift, [Change(h, body + Leading(lines))] + Blocks(lines))
  }

  /** The lines and the moved count kept for an open hunk are those of `body`. */
  ghost predicate Holds(hunk: Option<(Header, seq<string>, nat)>, body: seq<BodyLine>) {
    hunk.Some? ==> hunk.value.1 == ShownAll(body) && hunk.value.2 == MovedCount(body)
  }

  method FlushHunk(out: seq<Line>, header: seq<Line>, hunk: Option<(Header, seq<string>, nat)>, shift: nat,
                   ghost body: seq<BodyLine>, ghost rest: seq<Marked>)
    returns (out': seq<Line>, header': seq<Line>, shift': nat)
    requires Holds(hunk, body) && (rest == [] || !rest[0].line.Other?)
    ensures out' + Rest(header', None, shift', rest) == out + Rest(header, Open(hunk, body), shift, rest)
  {
    out', header', shift' := out, header, shift;
    if hunk.None? {
      return;
    }
    var (start, texts, converted) := hunk.value;
    if !AnyChanged(texts) {
      FlushDropped(header, start, body, shift, rest);
      return;
    }
    FlushKept(header, start, body, shift, rest);
    AppendAssoc(out, WrittenFor(header, shift, start, texts), Rest([], None, shift + converted, rest));
    out' := WriteHunk(out, header, start, texts, shift);
    header', shift' := [], shift + converted;
  }

  method WriteHunk(out: seq<Line>, header: seq<Line>, start: Header, texts: seq<string>, shift: nat)
    returns (out': seq<Line>)
    ensures out' == out + WrittenFor(header, shift, start, texts)
  {
    var oldCount, newCount := Tally(OldSide, texts), Tally(NewSide, texts);
    out' := out + header;
    out' := out' + [Hunk(Header(start.oldStart + shift, Some(oldCount), start.newStart, Some(newCount), start.tail))];
    out' := out' + Others(texts);
  }

  method Rewrite(plain: seq<Line>, moved: set<nat>) returns (out: seq<Line>)
    ensures out == Rewritten(Mark(plain, moved))
  {
    ghost var lines := Mark(plain, moved);
    ghost var body: seq<BodyLine> := [];
    out := [];
    var header: seq<Line> := [];
    var hunk: Option<(Header, seq<string>, nat)> := None;
    var shift: nat := 0;
    TakeAll(lines);
    StartRest(lines);
    for i := 0 to |plain|
      invariant Holds(hunk, body)
      invariant out + Rest(header, Open(hunk, body), shift, lines[i..]) == Rewritten(lines)
    {
      var line := plain[i];
      ghost var rest := lines[i..];
      DropNext(lines, i);
      if !line.Other? {
        out, header, shift := FlushHunk(out, header, hunk, shift, body, rest);
        HeadRest(header, shift, rest);
        hunk, body := None, [];
        match line {
          case DiffGit(_) => header, shift := [line], 0;
          case Hunk(start) => hunk := Some((start, [], 0));
        }
      } else if hunk.None? {
        HeaderLine(header, shift, rest);
        header := header + [line];
      } else {
        BodyLineRest(header, hunk.value.0, body, shift, rest);
        ghost var next := BodyLine(line.text, i in moved);
        MovedSnoc(body, next);
        hunk := KeepLine(hunk.value, line.text, i in moved);
        body := body + [next];
      }
    }
    out, header, shift := FlushHunk(out, header, hunk, shift, body, []);
    AppendEmpty(out);
  }

  /** A body line joins the open hunk, a moved one as context. */
  method KeepLine(hunk: (Header, seq<string>, nat), text: string, moved: bool)
    returns (r: Option<(Header, seq<string>, nat)>)
    ensures r == Some((hunk.0, hunk.1 + [Shown(BodyLine(text, moved))], hunk.2 + if moved then 1 else 0))
  {
    if moved {
      return Some((hunk.0, hunk.1 + [" " + (if text == "" then "" else text[1..])], hunk.2 + 1));
    }
    return Some((hunk.0, hunk.1 + [text], hunk.2));
  }

  ghost function Open(hunk: Option<(Header, seq<string>, nat)>, body: seq<BodyLine>): Option<(Header, seq<BodyLine>)> {
    if hunk.None? then None else Some((hunk.value.0, body))
  }

  lemma StartRest(lines: seq<Marked>)
    ensures Rest([], None, 0, lines) == Rewritten(lines)
  {
    assert [] + Others(Raw(Leading(lines))) == Others(Raw(Leading(lines)));
  }

  lemma MovedSnoc(body: seq<BodyLine>, next: BodyLine)
    ensures MovedCount(body + [next]) == MovedCount(body) + (if next.moved then 1 else 0)
    ensures ShownAll(body + [next]) == ShownAll(body) + [Shown(next)]
  {
    if body == [] {
      AppendEmpty([next]);
    } else {
      MovedSnoc(body[1..], next);
      AppendTail(body, [next]);
    }
  }

  /** Closing an open hunk that changes something, at a line that begins a block or at the end. */
  lemma FlushKept(header: seq<Line>, start: Header, body: seq<BodyLine>, shift: nat, rest: seq<Marked>)
    requires (rest == [] || !rest[0].line.Other?) && AnyChanged(ShownAll(body))
    ensures Rest(header, Some((start, body)), shift, rest)
         == WrittenFor(header, shift, start, ShownAll(body)) + Rest([], None, shift + MovedCount(body), rest)
  {
    RestOpen(header, start, body, shift, rest);
    EmitChange(header, shift, start, body, Blocks(rest));
    RestBetween([], shift + MovedCount(body), rest);
  }

  /** Closing one that does not. */
  lemma FlushDropped(header: seq<Line>, start: Header, body: seq<BodyLine>, shift: nat, rest: seq<Marked>)
    requires (rest == [] || !rest[0].line.Other?) && !AnyChanged(ShownAll(body))
    ensures Rest(header, Some((start, body)), shift, rest) == Rest(header, None, shift, rest)
  {
    RestOpen(header, start, body, shift, rest);
    EmitChange(header, shift, start, body, Blocks(rest));
    RestBetween(header, shift, rest);
  }

  /** What a kept hunk adds to the output. */
  function WrittenFor(header: seq<Line>, shift: nat, start: Header, texts: seq<string>): (lines: seq<Line>) {
    header + [Hunk(Recount(start, shift, texts))] + Others(texts)
  }

  lemma EmitChange(header: seq<Line>, shift: nat, start: Header, body: seq<BodyLine>, blocks: seq<Block>)
    ensures Emit(header, shift, [Change(start, body)] + blocks) ==
      if AnyChanged(ShownAll(body))
      then WrittenFor(header, shift, start, ShownAll(body)) + Emit([], shift + MovedCount(body), blocks)
      else Emit(header, shift, blocks)
  {
    ConsTail(Change(start, body), blocks);
  }

  lemma RestOpen(header: seq<Line>, start: Header, body: seq<BodyLine>, shift: nat, rest: seq<Marked>)
    requires rest == [] || !rest[0].line.Other?
    ensures Rest(header, Some((start, body)), shift, rest) == Emit(header, shift, [Change(start, body)] + Blocks(rest))
  {
    AppendEmpty(body);
    assert Leading(rest) == [];
  }

  lemma RestBetween(header: seq<Line>, shift: nat, rest: seq<Marked>)
    requires rest == [] || !rest[0].line.Other?
    ensures Rest(header, None, shift, rest) == Emit(header, shift, Blocks(rest))
  {
    assert Others(Raw([])) == [];
    AppendEmpty(header);
  }

  /** A `diff --git ` line or hunk header with no hunk open. */
  lemma HeadRest(header: seq<Line>, shift: nat, rest: seq<Marked>)
    requires rest != [] && !rest[0].line.Other?
    ensures Rest(header, None, shift, rest) ==
      match rest[0].line
      case DiffGit(text) => Rest([DiffGit(text)], None, 0, rest[1..])
      case Hunk(h) => Rest(header, Some((h, [])), shift, rest[1..])
  {
    RestBetween(header, shift, rest);
    AppendEmpty(Leading(rest[1..]));
    match rest[0].line
    case DiffGit(text) =>
      ConsTail(File(text, Leading(rest[1..])), Blocks(rest[1..]));
    case Hunk(h) =>
  }

  lemma HeaderLine(header: seq<Line>, shift: nat, rest: seq<Marked>)
    requires rest != [] && rest[0].line.Other?
    ensures Rest(header, None, shift, rest) == Rest(header + [rest[0].line], None, shift, rest[1..])
  {
    assert header + Others(Raw(Leading(rest))) == header + [rest[0].line] + Others(Raw(Leading(rest[1..])));
  }

  lemma BodyLineRest(header: seq<Line>, start: Header, body: seq<BodyLine>, shift: nat, rest: seq<Marked>)
    requires rest != [] && rest[0].line.Other?
    ensures Rest(header, Some((start, body)), shift, rest)
         == Rest(header, Some((start, body + [BodyLine(rest[0].line.text, rest[0].moved)])), shift, rest[1..])
  {
    assert body + Leading(rest) == body + [BodyLine(rest[0].line.text, rest[0].moved)] + Leading(rest[1..]);
  }
}
