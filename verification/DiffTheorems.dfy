/** When a rewritten diff is well formed, and which lines it keeps. */
module DiffTheorems {
  import opened Text
  import opened Seqs
  import opened MutationDiff
  import opened DiffMeaning

  // ---- Bodies whose moved lines are added ones ----

  ghost predicate BodyOk(body: seq<BodyLine>) {
    forall line :: line in body && line.moved ==> StartsWith(line.text, "+")
  }

  ghost predicate BlocksOk(blocks: seq<Block>) {
    forall i :: 0 <= i < |blocks| && blocks[i].Change? ==> BodyOk(blocks[i].body)
  }

  predicate Counted(text: string) {
    OldSide(text) || NewSide(text)
  }

  /** No line from the first that begins with `@@` on counts on either side. */
  predicate Tidy(texts: seq<string>) {
    texts == []
    || (if StartsWith(texts[0], "@@") then forall text :: text in texts ==> !Counted(text) else Tidy(texts[1..]))
  }

  lemma ShownLine(line: BodyLine)
    requires line.moved ==> StartsWith(line.text, "+")
    ensures NewSide(Shown(line)) <==> NewSide(line.text)
    ensures OldSide(Shown(line)) <==> OldSide(line.text) || line.moved
    ensures line.moved ==> !OldSide(line.text)
    ensures StartsWith(Shown(line), "@@") <==> StartsWith(line.text, "@@")
    ensures line.moved ==> Counted(line.text) && !StartsWith(line.text, "@@")
  {
  }

  lemma {:induction false} ShownTallies(body: seq<BodyLine>)
    requires BodyOk(body)
    ensures Tally(NewSide, ShownAll(body)) == Tally(NewSide, Raw(body))
    ensures Tally(OldSide, ShownAll(body)) == Tally(OldSide, Raw(body)) + MovedCount(body)
  {
    if body != [] {
      ShownTallies(body[1..]);
      ShownLine(body[0]);
      assert ShownAll(body)[1..] == ShownAll(body[1..]) && Raw(body)[1..] == Raw(body[1..]);
    }
  }

  lemma {:induction false} ShownTidy(body: seq<BodyLine>)
    requires BodyOk(body)
    ensures Tidy(ShownAll(body)) <==> Tidy(Raw(body))
  {
    if body != [] {
      ShownLine(body[0]);
      ShownTidy(body[1..]);
      assert ShownAll(body)[1..] == ShownAll(body[1..]) && Raw(body)[1..] == Raw(body[1..]);
      if StartsWith(body[0].text, "@@") {
        forall i | 0 <= i < |body|
          ensures Counted(ShownAll(body)[i]) <==> Counted(Raw(body)[i])
        {
          ShownLine(body[i]);
        }
      }
    }
  }

  lemma {:induction false} TallyBounds(p: string -> bool, texts: seq<string>)
    ensures Tally(p, texts) == 0 <==> forall text :: text in texts ==> !p(text)
    ensures Tally(p, Measured(texts)) <= Tally(p, texts)
  {
    if texts != [] {
      TallyBounds(p, texts[1..]);
      assert forall text :: text in texts <==> text == texts[0] || text in texts[1..];
      if !StartsWith(texts[0], "@@") {
        assert Measured(texts)[1..] == Measured(texts[1..]);
      }
    }
  }

  /** A hunk's measured lines account for all of it on both sides exactly when it is tidy. */
  lemma {:induction false} TidyIsMeasured(texts: seq<string>)
    ensures Tidy(texts) <==>
      && Tally(OldSide, Measured(texts)) == Tally(OldSide, texts)
      && Tally(NewSide, Measured(texts)) == Tally(NewSide, texts)
  {
    if texts != [] {
      if StartsWith(texts[0], "@@") {
        TallyBounds(OldSide, texts);
        TallyBounds(NewSide, texts);
      } else {
        TidyIsMeasured(texts[1..]);
        assert Measured(texts)[1..] == Measured(texts[1..]);
      }
    }
  }

  // ---- Well-formedness ----

  lemma RecountOk(h: Header, shift: nat, body: seq<BodyLine>)
    requires BodyOk(body) && CountsOk(h, Raw(body))
    ensures CountsOk(Recount(h, shift, ShownAll(body)), ShownAll(body)) <==> Tidy(Raw(body))
    ensures Tidy(Raw(body)) ==>
      && End(Recount(h, shift, ShownAll(body))) == (End(h).0 + shift + MovedCount(body), End(h).1)
      && CountOf(Recount(h, shift, ShownAll(body)).newCount) == CountOf(h.newCount)
  {
    ShownTallies(body);
    ShownTidy(body);
    TidyIsMeasured(ShownAll(body));
    TidyIsMeasured(Raw(body));
  }

  /** If the hunk is kept, its measured lines are all its counted ones. */
  predicate TidyIfKept(block: Block) {
    StillChanges(block) ==> Tidy(Raw(block.body))
  }

  predicate KeptTidy(blocks: seq<Block>) {
    forall block :: block in blocks ==> TidyIfKept(block)
  }

  /** A hunk end seen in the output lies no later than the one seen in the input, shifted. */
  predicate NoLater(s: State, written: Option<(nat, nat)>, read: Option<(nat, nat)>) {
    s.file.None? && written.Some? ==>
      read.Some? && written.value.0 <= read.value.0 + s.shift && written.value.1 <= read.value.1
  }

  lemma WellAfterHeader(s: State, hunk: Block, rest: seq<Block>, written: Option<(nat, nat)>)
    requires hunk.Change?
    ensures Well(written, HeaderBlocks(s.file, s.texts) + [hunk] + rest) <==>
      BlockOk(if s.file.Some? then None else written, hunk) && Well(Some(End(hunk.header)), rest)
  {
    var tail := [hunk] + rest;
    assert tail[1..] == rest;
    var all := HeaderBlocks(s.file, s.texts) + [hunk] + rest;
    if s.file.Some? {
      assert all[1..] == tail;
    } else {
      assert all == tail;
    }
  }

  /** One block of the walk: the output stays well formed exactly if the block is tidy when kept. */
  lemma WellStep(s: State, block: Block, rest: seq<Block>, read: Option<(nat, nat)>, written: Option<(nat, nat)>)
    returns (written': Option<(nat, nat)>)
    requires block.Change? ==> BodyOk(block.body)
    requires BlockOk(read, block) && NoLater(s, written, read)
    ensures TidyIfKept(block) ==> NoLater(Next(s, block), written', EndOf(block))
    ensures Well(written, Written(s, block) + rest) <==> TidyIfKept(block) && Well(written', rest)
  {
    if StillChanges(block) {
      var hunk := RewrittenHunk(s.shift, block);
      RecountOk(block.header, s.shift, block.body);
      PlainIsUnmoved(ShownAll(block.body));
      WellAfterHeader(s, hunk, rest, written);
      written' := Some(End(hunk.header));
    } else {
      assert Written(s, block) + rest == rest;
      written' := written;
    }
  }

  lemma {:induction false} KeptIsWell(
      s: State, blocks: seq<Block>, read: Option<(nat, nat)>, written: Option<(nat, nat)>)
    requires BlocksOk(blocks) && Well(read, blocks) && NoLater(s, written, read)
    ensures Well(written, Kept(s, blocks)) <==> KeptTidy(blocks)
    decreases |blocks|
  {
    if blocks != [] {
      var (block, next, rest) := (blocks[0], Next(s, blocks[0]), blocks[1..]);
      assert forall b :: b in blocks <==> b == block || b in rest;
      var written' := WellStep(s, block, Kept(next, rest), read, written);
      if TidyIfKept(block) {
        KeptIsWell(next, rest, EndOf(block), written');
      }
    }
  }

  // ---- What the hunks keep ----

  function NewTexts(texts: seq<string>): (r: seq<string>) {
    if texts == [] then []
    else (if NewSide(texts[0]) then [if texts[0] == "" then "" else texts[0][1..]] else []) + NewTexts(texts[1..])
  }

  type FileHeader = Option<(string, seq<string>)>

  /** A hunk as a reader of the new side sees it, with the header of its file. Its count is looked at apart. */
  datatype View = View(file: FileHeader, newStart: nat, newTexts: seq<string>, tail: string)

  function ViewOf(file: FileHeader, block: Block): (v: View)
    requires block.Change?
  {
    View(file, block.header.newStart, NewTexts(Raw(block.body)), block.header.tail)
  }

  function FileAfter(file: FileHeader, block: Block): FileHeader {
    if block.File? then Some((block.text, Raw(block.rest))) else file
  }

  /** The views of the hunks that `keep` selects. */
  function Views(keep: Block -> bool, file: FileHeader, blocks: seq<Block>): (r: seq<View>)
    decreases |blocks|
  {
    if blocks == [] then []
    else (if blocks[0].Change? && keep(blocks[0]) then [ViewOf(file, blocks[0])] else [])
         + Views(keep, FileAfter(file, blocks[0]), blocks[1..])
  }

  predicate Every(block: Block) {
    true
  }

  lemma {:induction false} ShownNewTexts(body: seq<BodyLine>)
    requires BodyOk(body)
    ensures NewTexts(ShownAll(body)) == NewTexts(Raw(body))
  {
    if body != [] {
      ShownNewTexts(body[1..]);
      ShownLine(body[0]);
      assert ShownAll(body)[1..] == ShownAll(body[1..]) && Raw(body)[1..] == Raw(body[1..]);
    }
  }

  /** The file the next hunk written belongs to. */
  function FileOf(s: State, before: FileHeader): FileHeader {
    if s.file.Some? then Some((s.file.value, s.texts)) else before
  }

  lemma ViewsAfterHeader(s: State, hunk: Block, rest: seq<Block>, before: FileHeader)
    requires hunk.Change?
    ensures Views(Every, before, HeaderBlocks(s.file, s.texts) + [hunk] + rest)
         == [ViewOf(FileOf(s, before), hunk)] + Views(Every, FileOf(s, before), rest)
  {
    PlainIsUnmoved(s.texts);
    var tail := [hunk] + rest;
    assert tail[1..] == rest;
    var all := HeaderBlocks(s.file, s.texts) + [hunk] + rest;
    if s.file.Some? {
      assert all[1..] == tail;
    } else {
      assert all == tail;
    }
  }

  lemma SameView(shift: nat, block: Block, file: FileHeader)
    requires block.Change? && BodyOk(block.body)
    ensures ViewOf(file, RewrittenHunk(shift, block)) == ViewOf(file, block)
  {
    ShownNewTexts(block.body);
    PlainIsUnmoved(ShownAll(block.body));
  }

  lemma {:induction false} KeptViews(s: State, blocks: seq<Block>, before: FileHeader)
    requires BlocksOk(blocks)
    ensures Views(Every, before, Kept(s, blocks)) == Views(StillChanges, FileOf(s, before), blocks)
    decreases |blocks|
  {
    if blocks != [] {
      var (block, next, rest) := (blocks[0], Next(s, blocks[0]), blocks[1..]);
      if StillChanges(block) {
        ViewsAfterHeader(s, RewrittenHunk(s.shift, block), Kept(next, rest), before);
        SameView(s.shift, block, FileOf(s, before));
        KeptViews(next, rest, FileOf(s, before));
      } else {
        assert Written(s, block) + Kept(next, rest) == Kept(next, rest);
        KeptViews(next, rest, before);
      }
    }
  }

  /** The new counts in the headers of the hunks that `keep` selects. */
  function NewCounts(keep: Block -> bool, blocks: seq<Block>): (counts: seq<nat>) {
    if blocks == [] then []
    else (if blocks[0].Change? && keep(blocks[0]) then [CountOf(blocks[0].header.newCount)] else [])
         + NewCounts(keep, blocks[1..])
  }

  /** If the hunk is kept, its header counts every new-side line of its body. */
  predicate CountedIfKept(block: Block) {
    StillChanges(block) ==> CountOf(block.header.newCount) == Tally(NewSide, Raw(block.body))
  }

  predicate KeptCounted(blocks: seq<Block>) {
    forall block :: block in blocks ==> CountedIfKept(block)
  }

  lemma CountsAfterHeader(s: State, hunk: Block, rest: seq<Block>)
    requires hunk.Change?
    ensures NewCounts(Every, HeaderBlocks(s.file, s.texts) + [hunk] + rest)
         == [CountOf(hunk.header.newCount)] + NewCounts(Every, rest)
  {
    var tail := [hunk] + rest;
    assert tail[1..] == rest;
    var all := HeaderBlocks(s.file, s.texts) + [hunk] + rest;
    if s.file.Some? {
      assert all[1..] == tail;
      AppendEmpty(NewCounts(Every, tail));
    } else {
      assert all == tail;
    }
  }

  lemma ConsEqual(a: nat, b: nat, s: seq<nat>, t: seq<nat>)
    ensures [a] + s == [b] + t <==> a == b && s == t
  {
    ConsTail(a, s);
    ConsTail(b, t);
  }

  lemma WrittenCounts(s: State, block: Block, rest: seq<Block>)
    requires block.Change? ==> BodyOk(block.body)
    ensures NewCounts(Every, Written(s, block) + rest)
         == if StillChanges(block) then [Tally(NewSide, Raw(block.body))] + NewCounts(Every, rest)
            else NewCounts(Every, rest)
  {
    if StillChanges(block) {
      CountsAfterHeader(s, RewrittenHunk(s.shift, block), rest);
      ShownTallies(block.body);
    } else {
      AppendEmpty(rest);
    }
  }

  lemma NewCountsStep(blocks: seq<Block>)
    requires blocks != []
    ensures NewCounts(StillChanges, blocks)
         == if StillChanges(blocks[0]) then [CountOf(blocks[0].header.newCount)] + NewCounts(StillChanges, blocks[1..])
            else NewCounts(StillChanges, blocks[1..])
    ensures KeptCounted(blocks) <==> CountedIfKept(blocks[0]) && KeptCounted(blocks[1..])
  {
    AppendEmpty(NewCounts(StillChanges, blocks[1..]));
    assert forall b :: b in blocks <==> b == blocks[0] || b in blocks[1..];
  }

  lemma {:induction false} KeptCounts(s: State, blocks: seq<Block>)
    requires BlocksOk(blocks)
    ensures NewCounts(Every, Kept(s, blocks)) == NewCounts(StillChanges, blocks) <==> KeptCounted(blocks)
    decreases |blocks|
  {
    if blocks != [] {
      var (block, next, rest) := (blocks[0], Next(s, blocks[0]), blocks[1..]);
      KeptCounts(next, rest);
      WrittenCounts(s, block, Kept(next, rest));
      NewCountsStep(blocks);
      if StillChanges(block) {
        ConsEqual(Tally(NewSide, Raw(block.body)), CountOf(block.header.newCount),
                  NewCounts(Every, Kept(next, rest)), NewCounts(StillChanges, rest));
      }
    }
  }

  /** If the hunk is kept, no new-side line follows a line that begins with `@@`. */
  predicate NewTidyIfKept(block: Block) {
    StillChanges(block) ==> Tally(NewSide, Measured(Raw(block.body))) == Tally(NewSide, Raw(block.body))
  }

  lemma {:induction false} WellCounted(previous: Option<(nat, nat)>, blocks: seq<Block>)
    requires Well(previous, blocks)
    ensures KeptCounted(blocks) <==> forall block :: block in blocks ==> NewTidyIfKept(block)
    decreases |blocks|
  {
    if blocks != [] {
      WellCounted(EndOf(blocks[0]), blocks[1..]);
      assert forall b :: b in blocks <==> b == blocks[0] || b in blocks[1..];
      assert CountedIfKept(blocks[0]) <==> NewTidyIfKept(blocks[0]);
    }
  }

  // ---- Which lines survive ----

  function BodyOf(block: Block): (body: seq<BodyLine>) {
    if block.Change? then block.body else []
  }

  function BodyLines(blocks: seq<Block>): (r: seq<BodyLine>) {
    if blocks == [] then [] else BodyOf(blocks[0]) + BodyLines(blocks[1..])
  }

  predicate IsRemoved(line: BodyLine) {
    StartsWith(line.text, "-")
  }

  predicate IsAdded(line: BodyLine) {
    StartsWith(line.text, "+")
  }

  predicate IsAddedHere(line: BodyLine) {
    StartsWith(line.text, "+") && !line.moved
  }

  /** The texts of the body lines that `p` selects. */
  function TextsOf(p: BodyLine -> bool, body: seq<BodyLine>): (texts: seq<string>) {
    if body == [] then [] else (if p(body[0]) then [body[0].text] else []) + TextsOf(p, body[1..])
  }

  lemma {:induction false} TextsOfAppend(p: BodyLine -> bool, a: seq<BodyLine>, b: seq<BodyLine>)
    ensures TextsOf(p, a + b) == TextsOf(p, a) + TextsOf(p, b)
  {
    if a == [] {
      AppendEmpty(b);
      AppendEmpty(TextsOf(p, b));
    } else {
      TextsOfAppend(p, a[1..], b);
      AppendTail(a, b);
      AppendAssoc(if p(a[0]) then [a[0].text] else [], TextsOf(p, a[1..]), TextsOf(p, b));
    }
  }

  /** Exactly the lines that `was` selects are shown as lines that `shows` selects, with the same text. */
  ghost predicate Survives(was: BodyLine -> bool, shows: BodyLine -> bool, line: BodyLine) {
    var shown := BodyLine(Shown(line), false);
    (shows(shown) <==> was(line)) && (was(line) ==> shown.text == line.text && Changed(line.text))
  }

  ghost predicate AllSurvive(was: BodyLine -> bool, shows: BodyLine -> bool, body: seq<BodyLine>) {
    forall line :: line in body ==> Survives(was, shows, line)
  }

  lemma {:induction false} ShownSurvives(was: BodyLine -> bool, shows: BodyLine -> bool, body: seq<BodyLine>)
    requires AllSurvive(was, shows, body)
    ensures TextsOf(shows, Plain(ShownAll(body))) == TextsOf(was, body)
    ensures !AnyChanged(ShownAll(body)) ==> TextsOf(was, body) == []
  {
    if body != [] {
      ShownSurvives(was, shows, body[1..]);
      assert Survives(was, shows, body[0]);
      assert ShownAll(body)[1..] == ShownAll(body[1..]);
      assert Plain(ShownAll(body))[1..] == Plain(ShownAll(body[1..]));
      assert Shown(body[0]) == ShownAll(body)[0];
      assert forall text :: text in ShownAll(body)[1..] ==> text in ShownAll(body);
    }
  }

  lemma LinesAfterHeader(s: State, hunk: Block, rest: seq<Block>)
    requires hunk.Change?
    ensures BodyLines(HeaderBlocks(s.file, s.texts) + [hunk] + rest) == hunk.body + BodyLines(rest)
  {
    var tail := [hunk] + rest;
    assert tail[1..] == rest;
    var all := HeaderBlocks(s.file, s.texts) + [hunk] + rest;
    if s.file.Some? {
      assert all[1..] == tail;
      assert [] + BodyLines(tail) == BodyLines(tail);
    } else {
      assert all == tail;
    }
  }

  lemma WrittenSurvives(was: BodyLine -> bool, shows: BodyLine -> bool, s: State, block: Block, rest: seq<Block>)
    requires AllSurvive(was, shows, BodyOf(block))
    ensures TextsOf(shows, BodyLines(Written(s, block) + rest))
         == TextsOf(was, BodyOf(block)) + TextsOf(shows, BodyLines(rest))
  {
    ShownSurvives(was, shows, BodyOf(block));
    ChangesShow(BodyOf(block));
    if StillChanges(block) {
      var hunk := RewrittenHunk(s.shift, block);
      LinesAfterHeader(s, hunk, rest);
      TextsOfAppend(shows, hunk.body, BodyLines(rest));
    } else {
      assert Written(s, block) + rest == rest;
    }
  }

  lemma {:induction false} KeptSurvives(was: BodyLine -> bool, shows: BodyLine -> bool, s: State, blocks: seq<Block>)
    requires forall block :: block in blocks ==> AllSurvive(was, shows, BodyOf(block))
    ensures TextsOf(shows, BodyLines(Kept(s, blocks))) == TextsOf(was, BodyLines(blocks))
    decreases |blocks|
  {
    if blocks != [] {
      var (block, next, rest) := (blocks[0], Next(s, blocks[0]), blocks[1..]);
      assert AllSurvive(was, shows, BodyOf(block));
      WrittenSurvives(was, shows, s, block, Kept(next, rest));
      TextsOfAppend(was, BodyOf(block), BodyLines(rest));
      KeptSurvives(was, shows, next, rest);
    }
  }

  lemma BodySurvives(body: seq<BodyLine>)
    requires BodyOk(body)
    ensures AllSurvive(IsRemoved, IsRemoved, body) && AllSurvive(IsAddedHere, IsAdded, body)
  {
    forall line | line in body
      ensures Survives(IsRemoved, IsRemoved, line) && Survives(IsAddedHere, IsAdded, line)
    {
      if line.moved {
        assert Shown(line)[0] == ' ';
      }
    }
  }

  // ---- The whole rewriting ----

  ghost predicate LinesOk(lines: seq<Marked>) {
    forall m :: m in lines && m.line.Other? && m.moved ==> StartsWith(m.line.text, "+")
  }

  lemma {:induction false} LeadingOk(lines: seq<Marked>)
    requires LinesOk(lines)
    ensures BodyOk(Leading(lines))
  {
    if lines != [] && lines[0].line.Other? {
      LeadingOk(lines[1..]);
    }
  }

  lemma {:induction false} BlocksAreOk(lines: seq<Marked>)
    requires LinesOk(lines)
    ensures BlocksOk(Blocks(lines))
  {
    if lines != [] {
      LeadingOk(lines[1..]);
      BlocksAreOk(lines[1..]);
    }
  }

  function Forget(lines: seq<Marked>): (r: seq<Marked>)
    ensures |r| == |lines| && forall i :: 0 <= i < |lines| ==> r[i] == Marked(lines[i].line, false)
  {
    seq(|lines|, i requires 0 <= i < |lines| => Marked(lines[i].line, false))
  }

  lemma {:induction false} LeadingForgets(lines: seq<Marked>)
    ensures Raw(Leading(Forget(lines))) == Raw(Leading(lines))
  {
    if lines != [] && lines[0].line.Other? {
      LeadingForgets(lines[1..]);
      assert Forget(lines)[1..] == Forget(lines[1..]);
      assert forall ls: seq<Marked> :: ls != [] && ls[0].line.Other? ==>
        Raw(Leading(ls)) == [ls[0].line.text] + Raw(Leading(ls[1..]));
    }
  }

  /** Marks do not matter to well-formedness. */
  lemma {:induction false} WellForgets(previous: Option<(nat, nat)>, lines: seq<Marked>)
    ensures Well(previous, Blocks(Forget(lines))) <==> Well(previous, Blocks(lines))
    decreases |lines|
  {
    if lines != [] {
      assert Forget(lines)[1..] == Forget(lines[1..]);
      if lines[0].line.Other? {
        WellForgets(previous, lines[1..]);
      } else {
        LeadingForgets(lines[1..]);
        assert Blocks(lines)[1..] == Blocks(lines[1..]);
        assert Blocks(Forget(lines))[1..] == Blocks(Forget(lines[1..]));
        WellForgets(EndOf(Blocks(lines)[0]), lines[1..]);
      }
    }
  }

  ghost predicate WellFormedDiff(diff: seq<Line>) {
    Well(None, Blocks(Unmarked(diff)))
  }

  lemma RewrittenIsKept(plain: seq<Line>, moved: set<nat>)
    ensures Blocks(Unmarked(Rewritten(Mark(plain, moved))))
         == Kept(State(None, Raw(Leading(Mark(plain, moved))), 0), Blocks(Mark(plain, moved)))
  {
    var lines := Mark(plain, moved);
    var s := State(None, Raw(Leading(lines)), 0);
    assert HeaderLines(s.file, s.texts) == Others(s.texts);
    BlocksOfEmit(s, Blocks(lines));
  }

  lemma PlainBlocks(plain: seq<Line>, moved: set<nat>)
    requires MovedAreAdded(plain, moved)
    ensures BlocksOk(Blocks(Mark(plain, moved)))
    ensures WellFormedDiff(plain) <==> Well(None, Blocks(Mark(plain, moved)))
  {
    var lines := Mark(plain, moved);
    BlocksAreOk(lines);
    WellForgets(None, lines);
    assert Forget(lines) == Unmarked(plain);
  }

  /** A well-formed diff is rewritten to a well-formed one exactly when every hunk kept is tidy. */
  lemma RewrittenIsWellFormed(plain: seq<Line>, moved: set<nat>)
    requires WellFormedDiff(plain) && MovedAreAdded(plain, moved)
    ensures WellFormedDiff(Rewritten(Mark(plain, moved))) <==> KeptTidy(Blocks(Mark(plain, moved)))
  {
    PlainBlocks(plain, moved);
    RewrittenIsKept(plain, moved);
    KeptIsWell(State(None, Raw(Leading(Mark(plain, moved))), 0), Blocks(Mark(plain, moved)), None, None);
  }

  /** Whatever the diff, the kept hunks read the same on the new side, in the same files and order. */
  lemma NewSideIsKept(plain: seq<Line>, moved: set<nat>)
    requires MovedAreAdded(plain, moved)
    ensures Views(Every, None, Blocks(Unmarked(Rewritten(Mark(plain, moved)))))
         == Views(StillChanges, None, Blocks(Mark(plain, moved)))
  {
    PlainBlocks(plain, moved);
    RewrittenIsKept(plain, moved);
    KeptViews(State(None, Raw(Leading(Mark(plain, moved))), 0), Blocks(Mark(plain, moved)), None);
  }

  /** The new counts in the rewritten diff. */
  ghost function WrittenNewCounts(plain: seq<Line>, moved: set<nat>): (counts: seq<nat>) {
    NewCounts(Every, Blocks(Unmarked(Rewritten(Mark(plain, moved)))))
  }

  /** Their new counts stay exactly when each counted its whole body; a well-formed diff may not after a stray line. */
  lemma NewCountsAreKept(plain: seq<Line>, moved: set<nat>)
    requires MovedAreAdded(plain, moved)
    ensures var blocks := Blocks(Mark(plain, moved));
      var same := WrittenNewCounts(plain, moved) == NewCounts(StillChanges, blocks);
      && (same <==> KeptCounted(blocks))
      && (WellFormedDiff(plain) ==> (same <==> forall block :: block in blocks ==> NewTidyIfKept(block)))
  {
    PlainBlocks(plain, moved);
    RewrittenIsKept(plain, moved);
    KeptCounts(State(None, Raw(Leading(Mark(plain, moved))), 0), Blocks(Mark(plain, moved)));
    if WellFormedDiff(plain) {
      WellCounted(None, Blocks(Mark(plain, moved)));
    }
  }

  /** Every removed line survives, and of the added lines exactly those not moved. */
  lemma ChangedLinesSurvive(plain: seq<Line>, moved: set<nat>)
    requires MovedAreAdded(plain, moved)
    ensures var (before, after) := (BodyLines(Blocks(Mark(plain, moved))),
                                    BodyLines(Blocks(Unmarked(Rewritten(Mark(plain, moved))))));
      && TextsOf(IsRemoved, after) == TextsOf(IsRemoved, before)
      && TextsOf(IsAdded, after) == TextsOf(IsAddedHere, before)
  {
    var blocks := Blocks(Mark(plain, moved));
    var s := State(None, Raw(Leading(Mark(plain, moved))), 0);
    PlainBlocks(plain, moved);
    RewrittenIsKept(plain, moved);
    forall block | block in blocks
      ensures AllSurvive(IsRemoved, IsRemoved, BodyOf(block)) && AllSurvive(IsAddedHere, IsAdded, BodyOf(block))
    {
      BodySurvives(BodyOf(block));
    }
    KeptSurvives(IsRemoved, IsRemoved, s, blocks);
    KeptSurvives(IsAddedHere, IsAdded, s, blocks);
  }

  /** The program: the rewritten diff when it is well formed, and otherwise the plain one. */
  method Output(plain: seq<Line>, colored: seq<Painted>) returns (out: seq<Line>)
    ensures var rewritten := Rewritten(Mark(plain, MovedLines(plain, colored)));
      out == if WellFormedDiff(rewritten) then rewritten else plain
    ensures WellFormedDiff(plain) ==> WellFormedDiff(out)
    ensures WellFormedDiff(plain) && KeptTidy(Blocks(Mark(plain, MovedLines(plain, colored)))) ==>
      out == Rewritten(Mark(plain, MovedLines(plain, colored)))
  {
    var found := MovedAddedLines(plain, colored);
    var moved := if found.Some? then found.value else {};
    out := Rewrite(plain, moved);
    var ok := WellFormed(out);
    if WellFormedDiff(plain) {
      RewrittenIsWellFormed(plain, moved);
    }
    if !ok {
      out := plain;
    }
  }

  // ---- Stray lines ----

  /** A hunk that counts the lines before a stray one, and has lines after it. */
  predicate Strays(h: Header, before: seq<string>, stray: string, after: seq<string>) {
    && (forall text :: text in before ==> !StartsWith(text, "@@"))
    && StartsWith(stray, "@@")
    && (exists text :: text in before + after && (text == "" || StartsWith(text, "-") || StartsWith(text, "+")))
    && h.oldCount == Some(Tally(OldSide, before)) && h.newCount == Some(Tally(NewSide, before))
  }

  lemma {:induction false} TallyAppend(p: string -> bool, a: seq<string>, b: seq<string>)
    ensures Tally(p, a + b) == Tally(p, a) + Tally(p, b)
  {
    if a == [] {
      AppendEmpty(b);
    } else {
      AppendTail(a, b);
      TallyAppend(p, a[1..], b);
    }
  }

  lemma {:induction false} MeasuredBefore(before: seq<string>, rest: seq<string>)
    requires forall text :: text in before ==> !StartsWith(text, "@@")
    requires rest != [] && StartsWith(rest[0], "@@")
    ensures Measured(before + rest) == before
  {
    if before == [] {
      AppendEmpty(rest);
    } else {
      AppendTail(before, rest);
      MeasuredBefore(before[1..], rest);
    }
  }

  /** The lines of such a hunk, and what is counted of them on one side. */
  lemma StrayTallies(p: string -> bool, before: seq<string>, stray: string, after: seq<string>)
    requires (forall text :: text in before ==> !StartsWith(text, "@@")) && StartsWith(stray, "@@") && !p(stray)
    ensures Measured(before + ([stray] + after)) == before
    ensures Tally(p, before + ([stray] + after)) == Tally(p, before) + Tally(p, after)
  {
    MeasuredBefore(before, [stray] + after);
    TallyAppend(p, before, [stray] + after);
    ConsTail(stray, after);
  }

  function StrayLines(h: Header, before: seq<string>, stray: string, after: seq<string>): (diff: seq<Line>) {
    [Hunk(h)] + Others(before + ([stray] + after))
  }

  lemma StrayBlock(h: Header, texts: seq<string>)
    ensures var plain := [Hunk(h)] + Others(texts);
      Mark(plain, {}) == Unmarked(plain) && Blocks(Mark(plain, {})) == [Change(h, Plain(texts))]
  {
    var plain := [Hunk(h)] + Others(texts);
    AppendEmpty(plain);
    BlocksOfHeaded(Hunk(h), texts, []);
    AppendEmpty([Change(h, Plain(texts))]);
    assert Mark(plain, {}) == Unmarked(plain);
  }

  lemma StrayIsWell(h: Header, before: seq<string>, stray: string, after: seq<string>)
    requires Strays(h, before, stray, after)
    ensures WellFormedDiff(StrayLines(h, before, stray, after))
    ensures Blocks(Mark(StrayLines(h, before, stray, after), {})) == [Change(h, Plain(before + ([stray] + after)))]
    ensures StillChanges(Change(h, Plain(before + ([stray] + after))))
  {
    var texts := before + ([stray] + after);
    StrayBlock(h, texts);
    PlainIsUnmoved(texts);
    StrayTallies(OldSide, before, stray, after);
    Single([Change(h, Plain(texts))]);
    StrayChanges(h, before, stray, after);
  }

  lemma StrayChanges(h: Header, before: seq<string>, stray: string, after: seq<string>)
    requires Strays(h, before, stray, after)
    ensures StillChanges(Change(h, Plain(before + ([stray] + after))))
  {
    var texts := before + ([stray] + after);
    var text :| text in before + after && (text == "" || StartsWith(text, "-") || StartsWith(text, "+"));
    assert text in before || text in after;
    assert text in texts;
    var i :| 0 <= i < |texts| && texts[i] == text;
    assert Plain(texts)[i] in Plain(texts) && OwnChange(Plain(texts)[i]);
  }

  /** A counted line after a stray one makes the rewriting ill formed, even with nothing moved. */
  lemma StrayLineBreaksCounts(h: Header, before: seq<string>, stray: string, after: seq<string>)
    requires Strays(h, before, stray, after) && exists text :: text in after && Counted(text)
    ensures var plain := StrayLines(h, before, stray, after);
      WellFormedDiff(plain) && !WellFormedDiff(Rewritten(Mark(plain, {})))
  {
    var (plain, texts) := (StrayLines(h, before, stray, after), before + ([stray] + after));
    StrayIsWell(h, before, stray, after);
    StrayTallies(OldSide, before, stray, after);
    StrayTallies(NewSide, before, stray, after);
    TallyBounds(OldSide, after);
    TallyBounds(NewSide, after);
    TidyIsMeasured(texts);
    PlainIsUnmoved(texts);
    RewrittenIsWellFormed(plain, {});
    assert Change(h, Plain(texts)) in Blocks(Mark(plain, {}));
  }

  /** A new-side line after a stray one changes the new count. */
  lemma StrayLineChangesCount(h: Header, before: seq<string>, stray: string, after: seq<string>)
    requires Strays(h, before, stray, after) && exists text :: text in after && NewSide(text)
    ensures var plain := StrayLines(h, before, stray, after);
      && WellFormedDiff(plain)
      && WrittenNewCounts(plain, {}) != NewCounts(StillChanges, Blocks(Mark(plain, {})))
  {
    var (plain, texts) := (StrayLines(h, before, stray, after), before + ([stray] + after));
    StrayIsWell(h, before, stray, after);
    StrayTallies(NewSide, before, stray, after);
    TallyBounds(NewSide, after);
    PlainIsUnmoved(texts);
    NewCountsAreKept(plain, {});
    assert Change(h, Plain(texts)) in Blocks(Mark(plain, {}));
  }

  lemma TallyThree(p: string -> bool, a: string, b: string, c: string)
    ensures Tally(p, [a, b, c]) == (if p(a) then 1 else 0) + (if p(b) then 1 else 0) + (if p(c) then 1 else 0)
  {
    ConsTail(a, [b, c]);
    ConsTail(b, [c]);
    Single([c]);
    assert [a] + [b, c] == [a, b, c] && [b] + [c] == [b, c];
    assert Tally(p, [c]) == if p(c) then 1 else 0;
    assert Tally(p, [b, c]) == (if p(b) then 1 else 0) + Tally(p, [c]);
  }

  /** Cut at its form feeds, a context line that holds `@@` and an added line between them is such a diff. */
  lemma StrayExample(removed: string, added: string, context: string, stray: string, last: string)
    requires removed == "-x" && added == "+y" && context == " a" && stray == "@@" && last == "+b"
    ensures var plain := StrayLines(Header(1, Some(2), 1, Some(2), ""), [removed, added, context], stray, [last]);
      && WellFormedDiff(plain) && !WellFormedDiff(Rewritten(Mark(plain, {})))
      && WrittenNewCounts(plain, {}) != NewCounts(StillChanges, Blocks(Mark(plain, {})))
  {
    var (h, before) := (Header(1, Some(2), 1, Some(2), ""), [removed, added, context]);
    assert removed[0] == '-' && added[0] == '+' && context[0] == ' ' && last[0] == '+';
    TallyThree(OldSide, removed, added, context);
    TallyThree(NewSide, removed, added, context);
    assert removed in before + [last] && last in [last];
    StrayLineBreaksCounts(h, before, stray, [last]);
    StrayLineChangesCount(h, before, stray, [last]);
  }
}
