/** The rewritten diff, told by the first characters of its lines. */
module DiffText {
  import opened Text
  import opened Seqs
  import opened MutationDiff
  import opened DiffMeaning
  import opened DiffTheorems

  // ---- Blocks are the diff ----

  function BlockLines(blocks: seq<Block>): (lines: seq<Line>) {
    if blocks == [] then []
    else
      (match blocks[0]
       case File(text, rest) => [DiffGit(text)] + Others(Raw(rest))
       case Change(h, body) => [Hunk(h)] + Others(Raw(body)))
      + BlockLines(blocks[1..])
  }

  function LinesOf(lines: seq<Marked>): (r: seq<Line>) {
    seq(|lines|, i requires 0 <= i < |lines| => lines[i].line)
  }

  /** The lines before the first block and the blocks are the whole diff, in order. */
  lemma {:induction false} BlocksAreTheDiff(lines: seq<Marked>)
    ensures Others(Raw(Leading(lines))) + BlockLines(Blocks(lines)) == LinesOf(lines)
  {
    if lines != [] {
      BlocksAreTheDiff(lines[1..]);
      assert LinesOf(lines) == [lines[0].line] + LinesOf(lines[1..]);
      var (texts, rest) := (Others(Raw(Leading(lines[1..]))), BlockLines(Blocks(lines[1..])));
      match lines[0].line
      case Other(text) =>
        assert Others(Raw(Leading(lines))) == [lines[0].line] + texts;
        AppendAssoc([lines[0].line], texts, rest);
      case DiffGit(text) =>
        ConsTail(File(text, Leading(lines[1..])), Blocks(lines[1..]));
        NoneLeads(lines);
        AppendAssoc([lines[0].line], texts, rest);
      case Hunk(h) =>
        ConsTail(Change(h, Leading(lines[1..])), Blocks(lines[1..]));
        NoneLeads(lines);
        AppendAssoc([lines[0].line], texts, rest);
    }
  }

  lemma NoneLeads(lines: seq<Marked>)
    requires lines != [] && !lines[0].line.Other?
    ensures Others(Raw(Leading(lines))) + BlockLines(Blocks(lines)) == BlockLines(Blocks(lines))
  {
    AppendEmpty(BlockLines(Blocks(lines)));
    assert Others(Raw([])) == [];
  }

  // ---- Headers ----

  /** How many of the lines start with `mark`. */
  function Starting(texts: seq<string>, mark: string): (n: nat) {
    if texts == [] then 0 else (if StartsWith(texts[0], mark) then 1 else 0) + Starting(texts[1..], mark)
  }

  function Empties(texts: seq<string>): (n: nat) {
    if texts == [] then 0 else (if texts[0] == "" then 1 else 0) + Empties(texts[1..])
  }

  function OldLines(texts: seq<string>): (n: nat) {
    Starting(texts, " ") + Starting(texts, "-") + Empties(texts)
  }

  function NewLines(texts: seq<string>): (n: nat) {
    Starting(texts, " ") + Starting(texts, "+") + Empties(texts)
  }

  function MovedLinesIn(body: seq<BodyLine>): (n: nat) {
    |Filter(body, (line: BodyLine) => line.moved)|
  }

  lemma {:induction false} TalliesCount(texts: seq<string>)
    ensures Tally(OldSide, texts) == OldLines(texts) && Tally(NewSide, texts) == NewLines(texts)
  {
    if texts != [] {
      TalliesCount(texts[1..]);
    }
  }

  lemma {:induction false} MovedCounts(body: seq<BodyLine>)
    ensures MovedCount(body) == MovedLinesIn(body)
  {
    if body != [] {
      MovedCounts(body[1..]);
      FilterStep(body, (line: BodyLine) => line.moved);
    }
  }

  function Hunks(blocks: seq<Block>): (r: seq<(Header, seq<string>)>) {
    if blocks == [] then []
    else (if blocks[0].Change? then [(blocks[0].header, Raw(blocks[0].body))] else []) + Hunks(blocks[1..])
  }

  /** A line with a blank for the `+` of a moved one. */
  function InContext(line: BodyLine): (text: string) {
    if line.moved && line.text != "" then [' '] + line.text[1..] else line.text
  }

  /** How a hunk with a change of its own is to be written, after `shift` moved lines of the hunks before it. */
  function HunkFor(shift: nat, block: Block): (r: (Header, seq<string>))
    requires block.Change?
  {
    var texts := Raw(block.body);
    (Header(block.header.oldStart + shift, Some(OldLines(texts) + MovedLinesIn(block.body)),
            block.header.newStart, Some(NewLines(texts)), block.header.tail),
     seq(|block.body|, i requires 0 <= i < |block.body| => InContext(block.body[i])))
  }

  /** The hunks with a change of their own; a file starts the shift again. */
  function HunksFor(shift: nat, blocks: seq<Block>): (r: seq<(Header, seq<string>)>)
    decreases |blocks|
  {
    if blocks == [] then []
    else if blocks[0].File? then HunksFor(0, blocks[1..])
    else if exists line :: line in blocks[0].body && OwnChange(line)
    then [HunkFor(shift, blocks[0])] + HunksFor(shift + MovedLinesIn(blocks[0].body), blocks[1..])
    else HunksFor(shift, blocks[1..])
  }

  lemma HunksAfter(s: State, hunk: Block, rest: seq<Block>)
    requires hunk.Change?
    ensures Hunks(HeaderBlocks(s.file, s.texts) + [hunk] + rest) == [(hunk.header, Raw(hunk.body))] + Hunks(rest)
  {
    ConsTail(hunk, rest);
    var all := HeaderBlocks(s.file, s.texts) + [hunk] + rest;
    if s.file.Some? {
      assert all[1..] == [hunk] + rest;
      AppendEmpty(Hunks([hunk] + rest));
    } else {
      assert all == [hunk] + rest;
    }
  }

  lemma HunkIs(shift: nat, block: Block)
    requires block.Change? && BodyOk(block.body)
    ensures (Recount(block.header, shift, ShownAll(block.body)), ShownAll(block.body)) == HunkFor(shift, block)
  {
    ShownTallies(block.body);
    TalliesCount(Raw(block.body));
    MovedCounts(block.body);
    assert ShownAll(block.body) == HunkFor(shift, block).1;
  }

  lemma WrittenHunk(s: State, block: Block, rest: seq<Block>)
    requires StillChanges(block) && BodyOk(block.body)
    ensures Hunks(Written(s, block) + rest) == [HunkFor(s.shift, block)] + Hunks(rest)
  {
    HunkIs(s.shift, block);
    PlainIsUnmoved(ShownAll(block.body));
    HunksAfter(s, RewrittenHunk(s.shift, block), rest);
  }

  lemma {:induction false} KeptHunks(s: State, blocks: seq<Block>)
    requires BlocksOk(blocks)
    ensures Hunks(Kept(s, blocks)) == HunksFor(s.shift, blocks)
    decreases |blocks|
  {
    if blocks != [] {
      var (block, next, rest) := (blocks[0], Next(s, blocks[0]), blocks[1..]);
      KeptHunks(next, rest);
      if StillChanges(block) {
        MovedCounts(block.body);
        WrittenHunk(s, block, Kept(next, rest));
      } else {
        AppendEmpty(Kept(next, rest));
      }
    }
  }

  /** Exactly the hunks with a change of their own are written, each shifted by the moved lines written before it. */
  lemma HunksAreRewritten(plain: seq<Line>, moved: set<nat>)
    requires MovedAreAdded(plain, moved)
    ensures Hunks(Blocks(Unmarked(Rewritten(Mark(plain, moved))))) == HunksFor(0, Blocks(Mark(plain, moved)))
  {
    PlainBlocks(plain, moved);
    RewrittenIsKept(plain, moved);
    KeptHunks(State(None, Raw(Leading(Mark(plain, moved))), 0), Blocks(Mark(plain, moved)));
  }

  // ---- Files ----

  /** Whether a hunk with a change of its own comes before the next file. */
  predicate HunkFollows(blocks: seq<Block>) {
    && blocks != [] && blocks[0].Change?
    && ((exists line :: line in blocks[0].body && OwnChange(line)) || HunkFollows(blocks[1..]))
  }

  function Files(blocks: seq<Block>): (r: seq<(string, seq<string>)>) {
    if blocks == [] then []
    else (if blocks[0].File? then [(blocks[0].text, Raw(blocks[0].rest))] else []) + Files(blocks[1..])
  }

  /** The files one of whose hunks is kept, with their header lines. */
  function FilesFor(blocks: seq<Block>): (r: seq<(string, seq<string>)>) {
    if blocks == [] then []
    else
      (if blocks[0].File? && HunkFollows(blocks[1..]) then [(blocks[0].text, Raw(blocks[0].rest))] else [])
      + FilesFor(blocks[1..])
  }

  lemma FilesAfter(s: State, hunk: Block, rest: seq<Block>)
    requires hunk.Change?
    ensures Files(HeaderBlocks(s.file, s.texts) + [hunk] + rest)
         == (if s.file.Some? then [(s.file.value, s.texts)] else []) + Files(rest)
  {
    ConsTail(hunk, rest);
    AppendEmpty(Files(rest));
    PlainIsUnmoved(s.texts);
    var all := HeaderBlocks(s.file, s.texts) + [hunk] + rest;
    if s.file.Some? {
      assert all[1..] == [hunk] + rest;
    } else {
      assert all == [hunk] + rest;
    }
  }

  function Pending(s: State, blocks: seq<Block>): (r: seq<(string, seq<string>)>) {
    if s.file.Some? && HunkFollows(blocks) then [(s.file.value, s.texts)] else []
  }

  lemma {:induction false} KeptFiles(s: State, blocks: seq<Block>)
    ensures Files(Kept(s, blocks)) == Pending(s, blocks) + FilesFor(blocks)
    decreases |blocks|
  {
    if blocks != [] {
      var (block, next, rest) := (blocks[0], Next(s, blocks[0]), blocks[1..]);
      KeptFiles(next, rest);
      AppendEmpty(FilesFor(rest));
      if StillChanges(block) {
        FilesAfter(s, RewrittenHunk(s.shift, block), Kept(next, rest));
      } else {
        AppendEmpty(Kept(next, rest));
      }
    }
  }

  /** Exactly the files with a kept hunk are written, with all their header lines. */
  lemma FilesAreKept(plain: seq<Line>, moved: set<nat>)
    ensures Files(Blocks(Unmarked(Rewritten(Mark(plain, moved))))) == FilesFor(Blocks(Mark(plain, moved)))
  {
    RewrittenIsKept(plain, moved);
    KeptFiles(State(None, Raw(Leading(Mark(plain, moved))), 0), Blocks(Mark(plain, moved)));
    AppendEmpty(FilesFor(Blocks(Mark(plain, moved))));
  }

  lemma {:induction false} KeptLeading(s: State, blocks: seq<Block>)
    requires s.file.None?
    ensures Raw(Leading(Unmarked(EmitFrom(s, blocks)))) == if HunkFollows(blocks) then s.texts else []
    decreases |blocks|
  {
    if blocks != [] {
      var (block, next, rest) := (blocks[0], Next(s, blocks[0]), blocks[1..]);
      EmitStep(s, blocks);
      if block.File? || StillChanges(block) {
        EmitBegins(next, rest);
      }
      AppendEmpty(EmitFrom(next, rest));
      if StillChanges(block) {
        BlocksOfWritten(s, block, EmitFrom(next, rest));
        PlainIsUnmoved(s.texts);
      } else if block.Change? {
        KeptLeading(s, rest);
      }
    }
  }

  /** The lines before the first file are written exactly when a hunk before it is. */
  lemma PreambleIsKept(plain: seq<Line>, moved: set<nat>)
    ensures var lines := Mark(plain, moved);
      Raw(Leading(Unmarked(Rewritten(lines)))) == if HunkFollows(Blocks(lines)) then Raw(Leading(lines)) else []
  {
    var lines := Mark(plain, moved);
    var s := State(None, Raw(Leading(lines)), 0);
    AppendEmpty(Others(s.texts));
    KeptLeading(s, Blocks(lines));
  }

  // ---- Well-formed diffs ----

  /** How many lines there are before the first that begins with `@@`. */
  function BeforeStray(texts: seq<string>): (k: nat)
    ensures k <= |texts| && (k < |texts| ==> StartsWith(texts[k], "@@"))
    ensures forall i :: 0 <= i < k ==> !StartsWith(texts[i], "@@")
  {
    if texts == [] || StartsWith(texts[0], "@@") then 0
    else
      var k := BeforeStray(texts[1..]);
      assert forall i :: 1 <= i < |texts| ==> texts[i] == texts[1..][i - 1];
      k + 1
  }

  lemma {:induction false} MeasuredIs(texts: seq<string>)
    ensures Measured(texts) == texts[..BeforeStray(texts)]
  {
    if texts != [] && !StartsWith(texts[0], "@@") {
      MeasuredIs(texts[1..]);
      assert texts[..BeforeStray(texts)] == [texts[0]] + texts[1..][..BeforeStray(texts[1..])];
    }
  }

  function Given(count: Option<nat>): nat {
    if count == None then 1 else count.value
  }

  /** The header's counts are those of the lines below it, up to a stray line. */
  predicate Counts(block: Block)
    requires block.Change?
  {
    var texts := Raw(block.body)[..BeforeStray(Raw(block.body))];
    Given(block.header.oldCount) == OldLines(texts) && Given(block.header.newCount) == NewLines(texts)
  }

  /** On both sides the first hunk ends before the second starts. */
  predicate Apart(first: Block, second: Block)
    requires first.Change? && second.Change?
  {
    && first.header.oldStart + Given(first.header.oldCount) <= second.header.oldStart
    && first.header.newStart + Given(first.header.newCount) <= second.header.newStart
  }

  predicate WellAt(blocks: seq<Block>, i: nat)
    requires i < |blocks|
  {
    blocks[i].Change? ==> Counts(blocks[i]) && (i > 0 && blocks[i - 1].Change? ==> Apart(blocks[i - 1], blocks[i]))
  }

  lemma CountsAre(block: Block)
    requires block.Change?
    ensures CountsOk(block.header, Raw(block.body)) <==> Counts(block)
  {
    var texts := Raw(block.body);
    MeasuredIs(texts);
    TalliesCount(texts[..BeforeStray(texts)]);
  }

  lemma {:induction false} WellFrom(blocks: seq<Block>, k: nat, previous: Option<(nat, nat)>)
    requires k <= |blocks|
    requires previous == if k > 0 && blocks[k - 1].Change? then Some(End(blocks[k - 1].header)) else None
    ensures Well(previous, blocks[k..]) <==> forall i: nat :: k <= i < |blocks| ==> WellAt(blocks, i)
    decreases |blocks| - k
  {
    if k < |blocks| {
      DropNext(blocks, k);
      WellFrom(blocks, k + 1, EndOf(blocks[k]));
      if blocks[k].Change? {
        CountsAre(blocks[k]);
      }
      assert WellAt(blocks, k) <==> BlockOk(previous, blocks[k]);
    }
  }

  predicate AllWell(blocks: seq<Block>) {
    forall i: nat :: i < |blocks| ==> WellAt(blocks, i)
  }

  /** A diff is well formed exactly when every hunk counts its lines and neighbours in a file are apart. */
  lemma WellFormedMeans(diff: seq<Line>)
    ensures WellFormedDiff(diff) <==> AllWell(Blocks(Unmarked(diff)))
  {
    var blocks := Blocks(Unmarked(diff));
    TakeAll(blocks);
    WellFrom(blocks, 0, None);
  }
}
