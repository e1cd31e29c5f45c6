/** What the rewriting of a diff keeps, and when its result is well formed. */
module DiffMeaning {
  import opened Text
  import opened Seqs
  import opened MutationDiff

  // ---- Well-formed diffs ----

  function CountOf(count: Option<nat>): nat {
    if count.None? then 1 else count.value
  }

  predicate StopsBody(line: Line) {
    line.DiffGit? || line.Hunk? || StartsWith(line.text, "@@")
  }

  /** The lines a hunk's counts are compared with: those before the first that begins with `@@`. */
  function Measured(texts: seq<string>): (r: seq<string>) {
    if texts == [] || StartsWith(texts[0], "@@") then [] else [texts[0]] + Measured(texts[1..])
  }

  predicate After(previous: Option<(nat, nat)>, h: Header) {
    previous.Some? ==> previous.value.0 <= h.oldStart && previous.value.1 <= h.newStart
  }

  function End(h: Header): (nat, nat) {
    (h.oldStart + CountOf(h.oldCount), h.newStart + CountOf(h.newCount))
  }

  predicate CountsOk(h: Header, texts: seq<string>) {
    CountOf(h.oldCount) == Tally(OldSide, Measured(texts)) && CountOf(h.newCount) == Tally(NewSide, Measured(texts))
  }

  predicate BlockOk(previous: Option<(nat, nat)>, block: Block) {
    block.Change? ==> CountsOk(block.header, Raw(block.body)) && After(previous, block.header)
  }

  function EndOf(block: Block): Option<(nat, nat)> {
    if block.File? then None else Some(End(block.header))
  }

  /** Every hunk counts its lines, and within a file starts after the one before it ended. */
  predicate Well(previous: Option<(nat, nat)>, blocks: seq<Block>)
    decreases |blocks|
  {
    blocks == [] || (BlockOk(previous, blocks[0]) && Well(EndOf(blocks[0]), blocks[1..]))
  }

  method WellFormed(diff: seq<Line>) returns (ok: bool)
    ensures ok <==> Well(None, Blocks(Unmarked(diff)))
  {
    ghost var lines := Unmarked(diff);
    var previous: Option<(nat, nat)> := None;
    assert lines[0..] == lines;
    for i := 0 to |diff|
      invariant Well(None, Blocks(lines)) <==> Well(previous, Blocks(lines[i..]))
    {
      ghost var rest := lines[i..];
      assert rest[0] == Marked(diff[i], false) && rest[1..] == lines[i + 1..];
      match diff[i] {
        case DiffGit(_) =>
          assert Blocks(rest)[1..] == Blocks(rest[1..]);
          previous := None;
        case Other(_) =>
        case Hunk(h) =>
          assert Blocks(rest)[1..] == Blocks(rest[1..]);
          var body := BodyAfter(diff, i + 1);
          if CountOf(h.oldCount) != Tally(OldSide, body) || CountOf(h.newCount) != Tally(NewSide, body) {
            return false;
          }
          if previous.Some? && (previous.value.0 > h.oldStart || previous.value.1 > h.newStart) {
            return false;
          }
          previous := Some((h.oldStart + CountOf(h.oldCount), h.newStart + CountOf(h.newCount)));
      }
    }
    return true;
  }

  method BodyAfter(diff: seq<Line>, start: nat) returns (body: seq<string>)
    requires start <= |diff|
    ensures body == Measured(Raw(Leading(Unmarked(diff)[start..])))
  {
    ghost var lines := Unmarked(diff);
    ghost var all := Measured(Raw(Leading(lines[start..])));
    body := [];
    for j := start to |diff|
      invariant all == body + Measured(Raw(Leading(lines[j..])))
    {
      assert lines[j..][0] == Marked(diff[j], false) && lines[j..][1..] == lines[j + 1..];
      MeasuredStep(lines[j..]);
      if StopsBody(diff[j]) {
        return;
      }
      AppendStep(body, diff[j].text, Measured(Raw(Leading(lines[j + 1..]))));
      body := body + [diff[j].text];
    }
  }

  lemma AppendStep(a: seq<string>, x: string, b: seq<string>)
    ensures a + ([x] + b) == (a + [x]) + b
  {
  }

  lemma MeasuredStep(rest: seq<Marked>)
    requires rest != []
    ensures Measured(Raw(Leading(rest))) ==
      if StopsBody(rest[0].line) then [] else [rest[0].line.text] + Measured(Raw(Leading(rest[1..])))
  {
    if rest[0].line.Other? {
      assert Raw(Leading(rest))[1..] == Raw(Leading(rest[1..]));
    }
  }

  // ---- The blocks of the rewritten diff ----

  function Plain(texts: seq<string>): (body: seq<BodyLine>)
    ensures |body| == |texts| && forall i :: 0 <= i < |texts| ==> body[i] == BodyLine(texts[i], false)
  {
    seq(|texts|, i requires 0 <= i < |texts| => BodyLine(texts[i], false))
  }

  /** A pending header: a file's line, if one was seen, and the other lines since. */
  function HeaderLines(file: Option<string>, texts: seq<string>): (header: seq<Line>) {
    (if file.Some? then [DiffGit(file.value)] else []) + Others(texts)
  }

  function HeaderBlocks(file: Option<string>, texts: seq<string>): (blocks: seq<Block>) {
    if file.Some? then [File(file.value, Plain(texts))] else []
  }

  /** What the walk over the blocks carries: the pending header, and the lines added to the old side. */
  datatype State = State(file: Option<string>, texts: seq<string>, shift: nat)

  /** A line that was not moved and is removed, added or empty. */
  predicate OwnChange(line: BodyLine) {
    !line.moved && (line.text == "" || StartsWith(line.text, "-") || StartsWith(line.text, "+"))
  }

  /** A hunk that still changes something once its moved lines are context. */
  predicate StillChanges(block: Block) {
    block.Change? && exists line :: line in block.body && OwnChange(line)
  }

  lemma ShownChange(line: BodyLine)
    ensures Changed(Shown(line)) <==> OwnChange(line)
  {
  }

  /** The test on the shown lines finds exactly the hunks with a change of their own. */
  lemma ChangesShow(body: seq<BodyLine>)
    ensures AnyChanged(ShownAll(body)) <==> exists line :: line in body && OwnChange(line)
  {
    if AnyChanged(ShownAll(body)) {
      var text :| text in ShownAll(body) && Changed(text);
      var i :| 0 <= i < |body| && ShownAll(body)[i] == text;
      ShownChange(body[i]);
      assert body[i] in body;
    }
    if line :| line in body && OwnChange(line) {
      var i :| 0 <= i < |body| && body[i] == line;
      ShownChange(line);
      assert ShownAll(body)[i] in ShownAll(body);
    }
  }

  function Next(s: State, block: Block): (r: State) {
    if block.File? then State(Some(block.text), Raw(block.rest), 0)
    else if StillChanges(block) then State(None, [], s.shift + MovedCount(block.body))
    else s
  }

  function RewrittenHunk(shift: nat, block: Block): (r: Block)
    requires block.Change?
  {
    Change(Recount(block.header, shift, ShownAll(block.body)), Plain(ShownAll(block.body)))
  }

  function Written(s: State, block: Block): (r: seq<Block>) {
    if StillChanges(block) then HeaderBlocks(s.file, s.texts) + [RewrittenHunk(s.shift, block)] else []
  }

  /** The blocks of the rewritten diff. */
  function Kept(s: State, blocks: seq<Block>): (r: seq<Block>)
    decreases |blocks|
  {
    if blocks == [] then [] else Written(s, blocks[0]) + Kept(Next(s, blocks[0]), blocks[1..])
  }

  function EmitFrom(s: State, blocks: seq<Block>): (out: seq<Line>) {
    Emit(HeaderLines(s.file, s.texts), s.shift, blocks)
  }

  function WrittenLines(s: State, block: Block): (out: seq<Line>) {
    if StillChanges(block)
    then HeaderLines(s.file, s.texts)
         + ([Hunk(Recount(block.header, s.shift, ShownAll(block.body)))] + Others(ShownAll(block.body)))
    else []
  }

  lemma EmitStep(s: State, blocks: seq<Block>)
    requires blocks != []
    ensures EmitFrom(s, blocks) == WrittenLines(s, blocks[0]) + EmitFrom(Next(s, blocks[0]), blocks[1..])
  {
    if blocks[0].Change? {
      ChangesShow(blocks[0].body);
    }
    assert HeaderLines(None, []) == [];
    assert [] + EmitFrom(Next(s, blocks[0]), blocks[1..]) == EmitFrom(Next(s, blocks[0]), blocks[1..]);
  }

  predicate Begins(lines: seq<Line>) {
    lines == [] || !lines[0].Other?
  }

  lemma UnmarkedTail(lines: seq<Line>)
    requires lines != []
    ensures Unmarked(lines)[1..] == Unmarked(lines[1..])
  {
  }

  lemma {:induction false} BlocksAfterOthers(texts: seq<string>, rest: seq<Line>)
    requires Begins(rest)
    ensures Blocks(Unmarked(Others(texts) + rest)) == Blocks(Unmarked(rest))
    ensures Leading(Unmarked(Others(texts) + rest)) == Plain(texts)
  {
    var lines := Others(texts) + rest;
    if texts == [] {
      assert lines == rest;
    } else {
      UnmarkedTail(lines);
      assert lines[1..] == Others(texts[1..]) + rest;
      BlocksAfterOthers(texts[1..], rest);
      assert Plain(texts) == [BodyLine(texts[0], false)] + Plain(texts[1..]);
    }
  }

  lemma BlocksOfHeaded(first: Line, texts: seq<string>, rest: seq<Line>)
    requires !first.Other? && Begins(rest)
    ensures Blocks(Unmarked([first] + Others(texts) + rest)) ==
      [if first.DiffGit? then File(first.text, Plain(texts)) else Change(first.header, Plain(texts))]
      + Blocks(Unmarked(rest))
  {
    var lines := [first] + Others(texts) + rest;
    UnmarkedTail(lines);
    assert lines[1..] == Others(texts) + rest;
    BlocksAfterOthers(texts, rest);
  }

  lemma BlocksAfterHeader(file: Option<string>, texts: seq<string>, rest: seq<Line>)
    requires Begins(rest)
    ensures Blocks(Unmarked(HeaderLines(file, texts) + rest)) == HeaderBlocks(file, texts) + Blocks(Unmarked(rest))
    ensures file.None? ==> Leading(Unmarked(HeaderLines(file, texts) + rest)) == Plain(texts)
  {
    if file.Some? {
      BlocksOfHeaded(DiffGit(file.value), texts, rest);
    } else {
      AppendEmpty(Others(texts));
      BlocksAfterOthers(texts, rest);
      AppendEmpty(Blocks(Unmarked(rest)));
    }
  }

  lemma {:induction false} EmitBegins(s: State, blocks: seq<Block>)
    requires s.file.Some? || s.texts == []
    ensures Begins(EmitFrom(s, blocks))
    decreases |blocks|
  {
    if blocks != [] {
      EmitStep(s, blocks);
      EmitBegins(Next(s, blocks[0]), blocks[1..]);
    }
  }

  lemma BlocksOfWritten(s: State, block: Block, tail: seq<Line>)
    requires StillChanges(block) ==> Begins(tail)
    ensures Blocks(Unmarked(WrittenLines(s, block) + tail)) == Written(s, block) + Blocks(Unmarked(tail))
    ensures StillChanges(block) && s.file.None? ==>
      Leading(Unmarked(WrittenLines(s, block) + tail)) == Plain(s.texts)
  {
    if StillChanges(block) {
      var shown := ShownAll(block.body);
      var hunk := [Hunk(Recount(block.header, s.shift, shown))] + Others(shown);
      BlocksOfHeaded(hunk[0], shown, tail);
      BlocksAfterHeader(s.file, s.texts, hunk + tail);
      AppendAssoc(HeaderLines(s.file, s.texts), hunk, tail);
      AppendAssoc(HeaderBlocks(s.file, s.texts), [RewrittenHunk(s.shift, block)], Blocks(Unmarked(tail)));
    } else {
      AppendEmpty(tail);
      AppendEmpty(Blocks(Unmarked(tail)));
    }
  }

  /** Reading the written lines back gives the kept blocks. */
  lemma {:induction false} BlocksOfEmit(s: State, blocks: seq<Block>)
    ensures Blocks(Unmarked(EmitFrom(s, blocks))) == Kept(s, blocks)
    decreases |blocks|
  {
    if blocks != [] {
      var (next, rest) := (Next(s, blocks[0]), blocks[1..]);
      EmitStep(s, blocks);
      BlocksOfEmit(next, rest);
      if StillChanges(blocks[0]) {
        EmitBegins(next, rest);
      }
      BlocksOfWritten(s, blocks[0], EmitFrom(next, rest));
    }
  }

  // ---- Rewriting again ----

  lemma {:induction false} PlainIsUnmoved(texts: seq<string>)
    ensures ShownAll(Plain(texts)) == texts && Raw(Plain(texts)) == texts && MovedCount(Plain(texts)) == 0
  {
    if texts != [] {
      PlainIsUnmoved(texts[1..]);
      assert Plain(texts)[1..] == Plain(texts[1..]);
    }
  }

  /** The pending header a second rewriting holds where the first held `s`. */
  ghost predicate HeaderAgain(s: State, header: seq<Line>, out: seq<Line>) {
    s.file.Some? || header == Others(Raw(Leading(Unmarked(out))))
  }

  /** A kept hunk is written again as it stands. */
  lemma EmitAgain(header: seq<Line>, shift: nat, block: Block, rest: seq<Block>)
    requires StillChanges(block)
    ensures Emit(header, 0, [RewrittenHunk(shift, block)] + rest)
         == header + ([Hunk(Recount(block.header, shift, ShownAll(block.body)))] + Others(ShownAll(block.body)))
            + Emit([], 0, rest)
  {
    var shown := ShownAll(block.body);
    PlainIsUnmoved(shown);
    ChangesShow(block.body);
    var blocks := [RewrittenHunk(shift, block)] + rest;
    assert blocks[1..] == rest;
    var hunk := [Hunk(Recount(block.header, shift, shown))];
    assert header + (hunk + Others(shown)) == header + hunk + Others(shown);
  }

  lemma EmitAfterHeader(s: State, header: seq<Line>, blocks: seq<Block>)
    requires s.file.Some? || header == Others(s.texts)
    ensures Emit(header, 0, HeaderBlocks(s.file, s.texts) + blocks) == Emit(HeaderLines(s.file, s.texts), 0, blocks)
  {
    PlainIsUnmoved(s.texts);
    if s.file.Some? {
      assert (HeaderBlocks(s.file, s.texts) + blocks)[1..] == blocks;
    } else {
      assert HeaderBlocks(s.file, s.texts) + blocks == blocks;
      assert HeaderLines(s.file, s.texts) == Others(s.texts);
    }
  }

  lemma EmitOfWritten(s: State, block: Block, rest: seq<Block>, header: seq<Line>)
    requires StillChanges(block)
    requires s.file.Some? || header == Others(s.texts)
    ensures Emit(header, 0, Written(s, block) + rest) == WrittenLines(s, block) + Emit([], 0, rest)
  {
    var hunk := [RewrittenHunk(s.shift, block)];
    assert Written(s, block) + rest == HeaderBlocks(s.file, s.texts) + (hunk + rest);
    EmitAfterHeader(s, header, hunk + rest);
    EmitAgain(HeaderLines(s.file, s.texts), s.shift, block, rest);
  }

  lemma {:induction false} EmitOfKept(s: State, blocks: seq<Block>, header: seq<Line>)
    requires HeaderAgain(s, header, EmitFrom(s, blocks))
    ensures Emit(header, 0, Kept(s, blocks)) == EmitFrom(s, blocks)
    decreases |blocks|
  {
    if blocks != [] {
      var (block, next, rest) := (blocks[0], Next(s, blocks[0]), blocks[1..]);
      EmitStep(s, blocks);
      var tail := EmitFrom(next, rest);
      if StillChanges(block) {
        EmitBegins(next, rest);
        BlocksOfWritten(s, block, tail);
        PlainIsUnmoved(s.texts);
        EmitOfWritten(s, block, Kept(next, rest), header);
        NothingLeads(tail);
        EmitOfKept(next, rest, []);
      } else {
        assert WrittenLines(s, block) + tail == tail;
        assert Written(s, block) + Kept(next, rest) == Kept(next, rest);
        EmitOfKept(next, rest, header);
      }
    }
  }

  lemma NothingLeads(lines: seq<Line>)
    requires Begins(lines)
    ensures Others(Raw(Leading(Unmarked(lines)))) == []
  {
  }

  /** Rewriting the result with nothing moved changes nothing. */
  lemma RewritingIsIdempotent(plain: seq<Line>, moved: set<nat>)
    ensures var out := Rewritten(Mark(plain, moved));
      Rewritten(Mark(out, {})) == out
  {
    var lines := Mark(plain, moved);
    var s := State(None, Raw(Leading(lines)), 0);
    assert HeaderLines(s.file, s.texts) == Others(s.texts);
    assert Mark(Rewritten(lines), {}) == Unmarked(Rewritten(lines));
    BlocksOfEmit(s, Blocks(lines));
    EmitOfKept(s, Blocks(lines), Others(Raw(Leading(Unmarked(Rewritten(lines))))));
  }
}
