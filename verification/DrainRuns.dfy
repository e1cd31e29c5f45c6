/** Which runs of the drain loop there are, and how they end. */
module DrainRuns {
  import opened Text
  import opened Seqs
  import opened CargoFraming
  import opened CargoDrain

  // ---- Lines, written out ----

  /** Line by line, what is observed: a line of at most four mebibytes as it is, a longer one as the marker. */
  lemma {:induction false} ObservationsAre(lines: seq<string>, i: nat)
    requires i < |lines|
    ensures |Observations(lines)| == |lines|
    ensures Observations(lines)[i] == if |lines[i]| <= 4194304 then lines[i] else "\0kache-invalid-cargo-stream\n"
  {
    if |lines| > 1 {
      ObservationsAre(lines[..|lines| - 1], if i < |lines| - 1 then i else 0);
    }
  }

  /** The lines without those that are kept from a human reader: the protocol lines within the cap. */
  function Readable(lines: seq<string>, human: bool, protocol: string -> bool): (r: seq<string>) {
    seq(|lines|, i requires 0 <= i < |lines| =>
      if human && |lines[i]| <= 4194304 && protocol(lines[i]) then "" else lines[i])
  }

  lemma {:induction false} ForwardsAre(lines: seq<string>, human: bool, protocol: string -> bool)
    ensures Forwards(lines, human, protocol) == Concat(Readable(lines, human, protocol))
    ensures !human ==> Forwards(lines, human, protocol) == Concat(lines)
  {
    if lines != [] {
      var front := lines[..|lines| - 1];
      ForwardsAre(front, human, protocol);
      var shown := Readable(lines, human, protocol);
      assert shown[..|shown| - 1] == Readable(front, human, protocol);
      assert !human ==> shown == lines;
    }
  }

  // ---- Every stream can be certified ----

  /** However a stream goes on, what was observed of it stays. */
  lemma {:induction false} ObservedGrows(stream: string, chunk: string) returns (lines: seq<string>)
    ensures ObservedSoFar(stream + chunk) == ObservedSoFar(stream) + lines
    decreases |chunk|
  {
    if chunk == "" {
      AppendEmpty(stream);
      AppendEmpty(ObservedSoFar(stream));
      return [];
    }
    var front, last := chunk[..|chunk| - 1], [chunk[|chunk| - 1]];
    lines := ObservedGrows(stream, front);
    PartObserved(stream + front, last);
    AppendAssoc(stream, front, last);
    assert front + last == chunk;
    var more :| ObservedSoFar(stream + front + last) == ObservedSoFar(stream + front) + more;
    AppendAssoc(ObservedSoFar(stream), lines, more);
    lines := lines + more;
  }

  lemma Extends(stdout: string, states: seq<System>, next: System)
    requires Run(stdout, states) && Next(stdout, states[|states| - 1], next)
    ensures Run(stdout, states + [next])
  {
    var all := states + [next];
    forall i | 0 <= i < |all| - 1
      ensures StepAt(stdout, all, i)
    {
      if i < |states| - 1 {
        assert StepAt(stdout, states, i);
      }
    }
  }

  /** The chunks of stdout that the reader put into the channel. */
  function Sends(stdout: string, states: seq<System>): (chunks: seq<string>) {
    if |states| <= 1 then []
    else
      Sends(stdout, states[..|states| - 1])
      + Sent(stdout, states[|states| - 2].sent, states[|states| - 1].sent)
  }

  function Sent(stdout: string, before: nat, after: nat): (chunks: seq<string>) {
    if before < after <= |stdout| then [stdout[before..after]] else []
  }

  lemma SendsStep(stdout: string, states: seq<System>, next: System)
    requires states != []
    ensures Sends(stdout, states + [next])
         == Sends(stdout, states) + Sent(stdout, states[|states| - 1].sent, next.sent)
  {
    SnocInit(states, next);
  }

  /** A step that sends nothing leaves the chunks as they are. */
  lemma Quietly(stdout: string, states: seq<System>, next: System)
    requires Run(stdout, states) && Next(stdout, states[|states| - 1], next)
    requires next.sent == states[|states| - 1].sent
    ensures Run(stdout, states + [next]) && Sends(stdout, states + [next]) == Sends(stdout, states)
  {
    Extends(stdout, states, next);
    SendsStep(stdout, states, next);
    AppendEmpty(Sends(stdout, states));
  }

  /** The loop at the top of an iteration, with the first `sent` bytes read, framed and observed. */
  function Caught(stdout: string, sent: nat): (s: System)
    requires sent <= |stdout|
  {
    System(sent, true, [], Polling, 0, None, stdout[..sent], ObservedSoFar(stdout[..sent]), false)
  }

  /** The steps that take one more chunk through the channel. */
  lemma ChunkSteps(stdout: string, from: nat, to: nat) returns (sending: System, waiting: System, received: System)
    requires from < to <= |stdout|
    ensures Next(stdout, Caught(stdout, from), sending) && Next(stdout, sending, waiting)
    ensures Next(stdout, waiting, received) && Next(stdout, received, Caught(stdout, to))
    ensures sending.sent == waiting.sent == received.sent == to
  {
    var start, chunk := Caught(stdout, from), stdout[from..to];
    var lines := ObservedGrows(stdout[..from], chunk);
    assert stdout[..from] + chunk == stdout[..to];
    AppendEmpty([Bytes(chunk)]);
    AppendEmpty(ObservedSoFar(stdout[..to]));
    sending := start.(sent := to, channel := [Bytes(chunk)]);
    waiting := sending.(phase := Receiving);
    received := Caught(stdout, to).(phase := Checking);
    assert ReaderSends(stdout, start, sending);
    assert Polls(sending, waiting);
    assert Noted(start.observed, lines, false) == ObservedSoFar(stdout[..to]);
    assert ReceivesBytes(waiting, received);
    assert Checks(received, Caught(stdout, to));
  }

  lemma OneChunk(stdout: string, states: seq<System>, from: nat, to: nat) returns (states': seq<System>)
    requires from < to <= |stdout|
    requires Run(stdout, states) && states[|states| - 1] == Caught(stdout, from)
    ensures Run(stdout, states') && states'[|states'| - 1] == Caught(stdout, to)
    ensures Sends(stdout, states') == Sends(stdout, states) + [stdout[from..to]]
  {
    var sending, waiting, received := ChunkSteps(stdout, from, to);
    Extends(stdout, states, sending);
    SendsStep(stdout, states, sending);
    states' := states + [sending];
    Quietly(stdout, states', waiting);
    states' := states' + [waiting];
    Quietly(stdout, states', received);
    states' := states' + [received];
    Quietly(stdout, states', Caught(stdout, to));
    states' := states' + [Caught(stdout, to)];
  }

  /** The last of some chunks that begin a stream. */
  lemma LastChunk(stdout: string, chunks: seq<string>)
    requires chunks != [] && Concat(chunks) <= stdout
    ensures var (front, last) := (chunks[..|chunks| - 1], chunks[|chunks| - 1]);
      && Concat(front) <= stdout && |Concat(chunks)| == |Concat(front)| + |last|
      && stdout[|Concat(front)|..|Concat(chunks)|] == last && chunks == front + [last]
  {
    TakeNext(chunks, |chunks| - 1);
    TakeAll(chunks);
    PrefixParts(stdout, Concat(chunks[..|chunks| - 1]), chunks[|chunks| - 1]);
  }

  lemma PrefixParts(whole: string, a: string, b: string)
    requires a + b <= whole
    ensures a <= whole && whole[|a|..|a + b|] == b
  {
    assert whole[..|a|] == (a + b)[..|a|] == a;
    assert whole[|a|..|a + b|] == (a + b)[|a|..] == b;
  }

  /** A run in which the reader has sent exactly `chunks` and the loop has taken them all. */
  lemma {:induction false} ChunksGoThrough(stdout: string, chunks: seq<string>) returns (states: seq<System>)
    requires Concat(chunks) <= stdout && forall i :: 0 <= i < |chunks| ==> chunks[i] != ""
    ensures Run(stdout, states) && states[|states| - 1] == Caught(stdout, |Concat(chunks)|)
    ensures Sends(stdout, states) == chunks
    decreases |chunks|
  {
    if chunks == [] {
      states := [Caught(stdout, 0)];
      return;
    }
    LastChunk(stdout, chunks);
    states := ChunksGoThrough(stdout, chunks[..|chunks| - 1]);
    states := OneChunk(stdout, states, |Concat(chunks[..|chunks| - 1])|, |Concat(chunks)|);
  }

  /** The steps that take `Finished` through the channel. */
  lemma FinishSteps(stdout: string) returns (finishing: System, waiting: System, ended: System)
    ensures Next(stdout, Caught(stdout, |stdout|), finishing) && Next(stdout, finishing, waiting)
    ensures Next(stdout, waiting, ended)
    ensures finishing.sent == waiting.sent == ended.sent == |stdout|
    ensures ended.phase == Done(AtFinished) && !ended.writeFailed && ended.observed == Observations(Lines(stdout))
  {
    var caught := Caught(stdout, |stdout|);
    TakeAll(stdout);
    AppendEmpty([Finished]);
    finishing := caught.(reading := false, channel := [Finished]);
    waiting := finishing.(phase := Receiving);
    ended := waiting.(phase := Done(AtFinished), channel := [], observed := Observations(Lines(stdout)));
    assert ReaderFinishes(stdout, caught, finishing);
    assert Polls(finishing, waiting);
    FinishStep(stdout, false, (line: string) => false);
    var lines :| Observations(Lines(stdout)) == ObservedSoFar(stdout) + lines;
    AppendEmpty(Observations(Lines(stdout)));
    assert Noted(waiting.observed, lines, false) == Observations(Lines(stdout));
    assert ReceivesFinished(waiting, ended);
  }

  lemma Finishes(stdout: string, states: seq<System>) returns (states': seq<System>)
    requires Run(stdout, states) && states[|states| - 1] == Caught(stdout, |stdout|)
    ensures Run(stdout, states') && Sends(stdout, states') == Sends(stdout, states)
    ensures var s := states'[|states'| - 1];
      s.phase == Done(AtFinished) && !s.writeFailed && s.observed == Observations(Lines(stdout))
    ensures Certified(states'[|states'| - 1]) <==> Certifiable(Lines(stdout))
  {
    var finishing, waiting, ended := FinishSteps(stdout);
    Quietly(stdout, states, finishing);
    states' := states + [finishing];
    Quietly(stdout, states', waiting);
    states' := states' + [waiting];
    Quietly(stdout, states', ended);
    states' := states' + [ended];
    CertifiedIsComplete(stdout, states', |states'| - 1);
  }

  /**
   However stdout is cut into chunks, some run sends exactly those, ends on `Finished` with no write failed and has
   observed every line; so it is certified exactly when every line can be.
   */
  lemma EveryCutCompletes(stdout: string, chunks: seq<string>) returns (states: seq<System>)
    requires Concat(chunks) == stdout && forall i :: 0 <= i < |chunks| ==> chunks[i] != ""
    ensures Run(stdout, states) && Sends(stdout, states) == chunks
    ensures var s := states[|states| - 1];
      s.phase == Done(AtFinished) && !s.writeFailed && s.observed == Observations(Lines(stdout))
    ensures Certified(states[|states| - 1]) <==> Certifiable(Lines(stdout))
  {
    states := ChunksGoThrough(stdout, chunks);
    states := Finishes(stdout, states);
  }

  // ---- Why a run ends as it does ----

  /** A step in which nothing goes wrong: no read error, no reader gone, no expiry, no failed status check. */
  ghost predicate Smooth(stdout: string, s: System, s': System) {
    || ReaderSends(stdout, s, s') || ReaderFinishes(stdout, s, s')
    || ReceiptStep(s, s') || FindsDisconnected(s, s') || TimesOut(s, s') || TimePasses(s, s')
    || (Polls(s, s') && s'.phase == Receiving)
    || (Checks(s, s') && s'.phase == Polling)
  }

  ghost predicate SmoothAt(stdout: string, states: seq<System>, i: nat)
    requires i + 1 < |states|
  {
    Smooth(stdout, states[i], states[i + 1])
  }

  /** A reader that is gone has left `Finished` behind, in the channel or already taken. */
  ghost predicate LeftFinished(s: System) {
    && (forall m :: m in s.channel ==> m != Failed)
    && (s.phase.Done? ==> s.phase == Done(AtFinished))
    && (!s.reading ==> s.phase.Done? || Finished in s.channel)
  }

  lemma SmoothKeeps(stdout: string, s: System, s': System)
    requires LeftFinished(s) && ChannelOrdered(stdout, s) && Smooth(stdout, s, s')
    ensures LeftFinished(s')
  {
    if |s'.channel| < |s.channel| {
      assert s.channel == [s.channel[0]] + s'.channel;
    } else if |s'.channel| > |s.channel| {
      assert s'.channel[|s.channel|] in s'.channel;
    }
  }

  /** A run in which nothing goes wrong can only end on `Finished`, and is then certified if the lines can be. */
  lemma {:induction false} SmoothRunsFinish(stdout: string, states: seq<System>, k: nat)
    requires Run(stdout, states) && k < |states|
    requires forall i :: 0 <= i < k ==> SmoothAt(stdout, states, i)
    ensures LeftFinished(states[k])
    ensures states[k].phase.Done? ==> states[k].phase == Done(AtFinished)
    ensures states[k].phase.Done? ==> (Certified(states[k]) <==> !states[k].writeFailed && Certifiable(Lines(stdout)))
    decreases k
  {
    CertifiedIsComplete(stdout, states, k);
    if k > 0 {
      SmoothRunsFinish(stdout, states, k - 1);
      assert SmoothAt(stdout, states, k - 1);
      RunInv(stdout, states, k - 1);
      SmoothKeeps(stdout, states[k - 1], states[k]);
    }
  }

  /** The channel holds at most eight messages, and the drain is given up only two seconds after Cargo's exit. */
  ghost predicate Bounded(s: System) {
    && |s.channel| <= 8
    && (s.exitedAt.Some? ==> s.exitedAt.value <= s.clock)
    && (s.phase == Done(AtExpiry) ==> s.exitedAt.Some? && s.clock >= s.exitedAt.value + 2000)
  }

  lemma BoundedStep(stdout: string, s: System, s': System)
    requires Bounded(s) && Next(stdout, s, s')
    ensures Bounded(s')
  {
  }

  lemma {:induction false} RunsAreBounded(stdout: string, states: seq<System>, k: nat)
    requires Run(stdout, states) && k < |states|
    ensures Bounded(states[k])
    decreases k
  {
    if k > 0 {
      RunsAreBounded(stdout, states, k - 1);
      assert StepAt(stdout, states, k - 1);
      BoundedStep(stdout, states[k - 1], states[k]);
    }
  }
}
