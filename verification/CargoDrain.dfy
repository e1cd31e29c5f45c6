/**
 The reader thread and the drain loop around Cargo's stdout, as one system of interleaved steps over a bounded
 first-in-first-out channel. `stdout` is everything the pipe will ever deliver.
 */
module CargoDrain {
  import opened Text
  import opened Seqs
  import opened CargoFraming

  const CHANNEL_CAPACITY: nat := 8
  const CARGO_DRAIN_TIMEOUT: nat := 2000

  datatype Message = Bytes(chunk: string) | Finished | Failed

  datatype Ending = AtFinished | AtFailed | AtDisconnected | AtExpiry | AtPollError

  /** Where the drain loop stands: before `try_wait`, before `recv_timeout`, before the expiry test, or out. */
  datatype Phase = Polling | Receiving | Checking | Done(ending: Ending)

  datatype System = System(
    sent: nat,               // bytes of stdout the reader has put into the channel
    reading: bool,           // the reader thread is still there
    channel: seq<Message>,
    phase: Phase,
    clock: nat,
    exitedAt: Option<nat>,   // when the loop first saw Cargo's exit status
    consumed: string,        // bytes the framer has been given
    observed: seq<string>,   // every line given to the capture, in order
    writeFailed: bool)

  predicate Marked(observed: seq<string>) {
    INVALID_CARGO_STREAM in observed
  }

  ghost predicate Init(s: System) {
    s == System(0, true, [], Polling, s.clock, None, "", [], false)
  }

  // ---- The reader thread ----

  /** `fill_buf` returned some bytes, and the channel has room for them. */
  ghost predicate ReaderSends(stdout: string, s: System, s': System) {
    && s.reading && |s.channel| < CHANNEL_CAPACITY && s.sent < s'.sent <= |stdout|
    && s' == s.(sent := s'.sent, channel := s.channel + [Bytes(stdout[s.sent..s'.sent])])
  }

  /** `fill_buf` returned nothing: the pipe is drained and closed. */
  ghost predicate ReaderFinishes(stdout: string, s: System, s': System) {
    && s.reading && |s.channel| < CHANNEL_CAPACITY && s.sent == |stdout|
    && s' == s.(reading := false, channel := s.channel + [Finished])
  }

  ghost predicate ReaderFails(s: System, s': System) {
    && s.reading && |s.channel| < CHANNEL_CAPACITY
    && s' == s.(reading := false, channel := s.channel + [Failed])
  }

  /** The thread goes away without a last message. */
  ghost predicate ReaderDies(s: System, s': System) {
    s.reading && s' == s.(reading := false)
  }

  // ---- The drain loop ----

  ghost predicate Polls(s: System, s': System) {
    && s.phase == Polling
    && (|| s' == s.(phase := Receiving)
        || (s.exitedAt.None? && s' == s.(phase := Receiving, exitedAt := Some(s.clock)))
        || (s.exitedAt.None? && s' == s.(phase := Done(AtPollError))))
  }

  /** The lines the framer hands over, and the marker after them when forwarding failed. */
  function Noted(observed: seq<string>, lines: seq<string>, writeFailed: bool): (r: seq<string>) {
    observed + lines + if writeFailed then [INVALID_CARGO_STREAM] else []
  }

  ghost predicate ReceivesBytes(s: System, s': System) {
    && s.phase == Receiving && s.channel != [] && s.channel[0].Bytes?
    && var consumed := s.consumed + s.channel[0].chunk;
       exists lines: seq<string>, failed: bool ::
         && ObservedSoFar(consumed) == ObservedSoFar(s.consumed) + lines
         && s' == s.(phase := Checking, channel := s.channel[1..], consumed := consumed,
                     observed := Noted(s.observed, lines, failed), writeFailed := s.writeFailed || failed)
  }

  ghost predicate ReceivesFinished(s: System, s': System) {
    && s.phase == Receiving && s.channel != [] && s.channel[0].Finished?
    && exists lines: seq<string>, failed: bool ::
         && Observations(Lines(s.consumed)) == ObservedSoFar(s.consumed) + lines
         && s' == s.(phase := Done(AtFinished), channel := s.channel[1..],
                     observed := Noted(s.observed, lines, failed), writeFailed := s.writeFailed || failed)
  }

  ghost predicate ReceivesFailed(s: System, s': System) {
    && s.phase == Receiving && s.channel != [] && s.channel[0].Failed?
    && s' == s.(phase := Done(AtFailed), channel := s.channel[1..], observed := s.observed + [INVALID_CARGO_STREAM])
  }

  ghost predicate FindsDisconnected(s: System, s': System) {
    && s.phase == Receiving && s.channel == [] && !s.reading
    && s' == s.(phase := Done(AtDisconnected), observed := s.observed + [INVALID_CARGO_STREAM])
  }

  ghost predicate TimesOut(s: System, s': System) {
    s.phase == Receiving && s' == s.(phase := Checking)
  }

  predicate DrainExpired(exitedAt: Option<nat>, now: nat) {
    exitedAt.Some? && now >= exitedAt.value + CARGO_DRAIN_TIMEOUT
  }

  ghost predicate Checks(s: System, s': System) {
    && s.phase == Checking
    && s' == if DrainExpired(s.exitedAt, s.clock)
             then s.(phase := Done(AtExpiry), observed := s.observed + [INVALID_CARGO_STREAM])
             else s.(phase := Polling)
  }

  ghost predicate TimePasses(s: System, s': System) {
    s.clock <= s'.clock && s' == s.(clock := s'.clock)
  }

  ghost predicate ReaderStep(stdout: string, s: System, s': System) {
    ReaderSends(stdout, s, s') || ReaderFinishes(stdout, s, s') || ReaderFails(s, s') || ReaderDies(s, s')
  }

  /** A message leaves the channel. */
  ghost predicate ReceiptStep(s: System, s': System) {
    ReceivesBytes(s, s') || ReceivesFinished(s, s') || ReceivesFailed(s, s')
  }

  ghost predicate Next(stdout: string, s: System, s': System) {
    || ReaderStep(stdout, s, s')
    || ReceiptStep(s, s')
    || Polls(s, s') || FindsDisconnected(s, s') || TimesOut(s, s') || Checks(s, s') || TimePasses(s, s')
  }

  // ---- The invariant ----

  /** The bytes still in the channel. */
  function Pending(channel: seq<Message>): (r: string) {
    if channel == [] then ""
    else Pending(channel[..|channel| - 1]) + Carried(channel[|channel| - 1])
  }

  function Carried(m: Message): (r: string) {
    match m
    case Bytes(chunk) => chunk
    case _ => ""
  }

  /** A last message is only ever the last one, the reader is then gone, and `Finished` means all of stdout was sent. */
  ghost predicate ChannelOrdered(stdout: string, s: System) {
    && (forall i :: 0 <= i < |s.channel| && !s.channel[i].Bytes? ==> i == |s.channel| - 1 && !s.reading)
    && (forall i :: 0 <= i < |s.channel| && s.channel[i].Finished? ==> s.sent == |stdout|)
  }

  ghost predicate Accounted(stdout: string, s: System) {
    && s.sent <= |stdout|
    && s.consumed + Pending(s.channel) == stdout[..s.sent]
    && (s.phase == Done(AtFinished) ==> s.consumed == stdout)
  }

  /** Without the marker the capture has seen exactly the framer's lines; the marker has a reason. */
  ghost predicate ObservedFaithfully(s: System) {
    match s.phase
    case Done(AtFinished) => FaithfulTo(s, Observations(Lines(s.consumed)))
    case Done(AtPollError) => FaithfulTo(s, ObservedSoFar(s.consumed))
    case Done(_) => Marked(s.observed)
    case _ => FaithfulTo(s, ObservedSoFar(s.consumed))
  }

  ghost predicate FaithfulTo(s: System, lines: seq<string>) {
    && (!s.writeFailed ==> s.observed == lines)
    && (s.writeFailed ==> Marked(s.observed))
  }

  ghost predicate Inv(stdout: string, s: System) {
    ChannelOrdered(stdout, s) && Accounted(stdout, s) && ObservedFaithfully(s)
  }

  lemma InitInv(stdout: string, s: System)
    requires Init(s)
    ensures Inv(stdout, s)
  {
  }

  lemma PendingSnoc(channel: seq<Message>, m: Message)
    ensures Pending(channel + [m]) == Pending(channel) + Carried(m)
  {
    SnocInit(channel, m);
  }

  lemma {:induction false} PendingCons(channel: seq<Message>)
    requires channel != []
    ensures Pending(channel) == Carried(channel[0]) + Pending(channel[1..])
    decreases |channel|
  {
    if |channel| == 1 {
      Single(channel);
      AppendEmpty(Carried(channel[0]));
    } else {
      var front, last := channel[..|channel| - 1], channel[|channel| - 1];
      PendingCons(front);
      PendingSnoc(front[1..], last);
      TailLast(channel);
      AppendAssoc(Carried(channel[0]), Pending(front[1..]), Carried(last));
    }
  }

  lemma OrderedStep(stdout: string, s: System, s': System)
    requires ChannelOrdered(stdout, s) && Next(stdout, s, s')
    ensures ChannelOrdered(stdout, s')
  {
    if s'.channel == s.channel {
    } else if |s'.channel| < |s.channel| {
      assert s'.channel == s.channel[1..];
    } else {
      assert s'.channel[..|s.channel|] == s.channel;
    }
  }

  /** Sending moves the next bytes of stdout to the end of what is consumed or pending. */
  lemma AccountedSend(stdout: string, consumed: string, channel: seq<Message>, from: nat, to: nat)
    requires from <= to <= |stdout| && consumed + Pending(channel) == stdout[..from]
    ensures consumed + Pending(channel + [Bytes(stdout[from..to])]) == stdout[..to]
  {
    PendingSnoc(channel, Bytes(stdout[from..to]));
    AppendAssoc(consumed, Pending(channel), stdout[from..to]);
    assert stdout[..to] == stdout[..from] + stdout[from..to];
  }

  /** Receiving moves the first message from pending to consumed. */
  lemma AccountedReceive(consumed: string, channel: seq<Message>)
    requires channel != []
    ensures channel[0].Bytes? ==> consumed + channel[0].chunk + Pending(channel[1..]) == consumed + Pending(channel)
    ensures !channel[0].Bytes? ==> Pending(channel[1..]) == Pending(channel)
  {
    PendingCons(channel);
    if channel[0].Bytes? {
      AppendAssoc(consumed, channel[0].chunk, Pending(channel[1..]));
    }
  }

  lemma AccountedFinish(stdout: string, s: System)
    requires ChannelOrdered(stdout, s) && Accounted(stdout, s) && s.channel != [] && s.channel[0].Finished?
    ensures s.channel[1..] == [] && s.consumed == stdout && stdout[..s.sent] == stdout
  {
    AccountedReceive(s.consumed, s.channel);
    assert s.channel[1..] == [] && stdout[..s.sent] == stdout && s.consumed + "" == s.consumed;
  }

  lemma AccountedReader(stdout: string, s: System, s': System)
    requires Accounted(stdout, s) && ReaderStep(stdout, s, s')
    ensures Accounted(stdout, s')
  {
    if ReaderSends(stdout, s, s') {
      AccountedSend(stdout, s.consumed, s.channel, s.sent, s'.sent);
    } else {
      PendingSnoc(s.channel, Finished);
      PendingSnoc(s.channel, Failed);
    }
  }

  lemma AccountedReceipt(stdout: string, s: System, s': System)
    requires ChannelOrdered(stdout, s) && Accounted(stdout, s) && ReceiptStep(s, s')
    ensures Accounted(stdout, s')
  {
    if ReceivesFinished(s, s') {
      AccountedFinish(stdout, s);
    } else {
      AccountedReceive(s.consumed, s.channel);
    }
  }

  lemma AccountedStep(stdout: string, s: System, s': System)
    requires ChannelOrdered(stdout, s) && Accounted(stdout, s) && Next(stdout, s, s')
    ensures Accounted(stdout, s')
  {
    if ReaderStep(stdout, s, s') {
      AccountedReader(stdout, s, s');
    } else if ReceiptStep(s, s') {
      AccountedReceipt(stdout, s, s');
    }
  }

  lemma NotedFaithfully(s: System, s': System, from: seq<string>, to: seq<string>, lines: seq<string>, failed: bool)
    requires FaithfulTo(s, from) && to == from + lines
    requires s'.observed == Noted(s.observed, lines, failed) && s'.writeFailed == (s.writeFailed || failed)
    ensures FaithfulTo(s', to)
  {
    if failed {
      assert s'.observed[|s.observed| + |lines|] == INVALID_CARGO_STREAM;
    } else {
      assert s'.observed == s.observed + lines;
    }
  }

  lemma FaithfulStep(stdout: string, s: System, s': System)
    requires ObservedFaithfully(s) && Next(stdout, s, s')
    ensures ObservedFaithfully(s')
  {
    var seen := ObservedSoFar(s.consumed);
    if ReceivesBytes(s, s') {
      var lines: seq<string>, failed: bool :|
        ObservedSoFar(s'.consumed) == seen + lines && s'.observed == Noted(s.observed, lines, failed)
        && s'.writeFailed == (s.writeFailed || failed);
      NotedFaithfully(s, s', seen, ObservedSoFar(s'.consumed), lines, failed);
    } else if ReceivesFinished(s, s') {
      var lines: seq<string>, failed: bool :|
        Observations(Lines(s.consumed)) == seen + lines && s'.observed == Noted(s.observed, lines, failed)
        && s'.writeFailed == (s.writeFailed || failed);
      NotedFaithfully(s, s', seen, Observations(Lines(s.consumed)), lines, failed);
    } else if s'.observed != s.observed {
      assert s'.observed[|s.observed|] == INVALID_CARGO_STREAM;
    }
  }

  lemma NextInv(stdout: string, s: System, s': System)
    requires Inv(stdout, s) && Next(stdout, s, s')
    ensures Inv(stdout, s')
  {
    OrderedStep(stdout, s, s');
    AccountedStep(stdout, s, s');
    FaithfulStep(stdout, s, s');
  }

  // ---- Whole runs ----

  ghost predicate StepAt(stdout: string, states: seq<System>, i: nat)
    requires i + 1 < |states|
  {
    Next(stdout, states[i], states[i + 1])
  }

  ghost predicate Run(stdout: string, states: seq<System>) {
    && states != [] && Init(states[0])
    && forall i :: 0 <= i < |states| - 1 ==> StepAt(stdout, states, i)
  }

  lemma {:induction false} RunInv(stdout: string, states: seq<System>, k: nat)
    requires Run(stdout, states) && k < |states|
    ensures Inv(stdout, states[k])
    decreases k
  {
    if k == 0 {
      InitInv(stdout, states[0]);
    } else {
      RunInv(stdout, states, k - 1);
      assert StepAt(stdout, states, k - 1);
      NextInv(stdout, states[k - 1], states[k]);
    }
  }

  /** No line is over the cap or spelled like the marker. */
  ghost predicate Certifiable(lines: seq<string>) {
    forall line :: line in lines ==> |line| <= MAX_CARGO_PROTOCOL_LINE && line != INVALID_CARGO_STREAM
  }

  lemma {:induction false} MarkedObservations(lines: seq<string>)
    ensures !Marked(Observations(lines)) <==> Certifiable(lines)
    ensures Certifiable(lines) ==> Observations(lines) == lines
  {
    if lines != [] {
      var front, last := lines[..|lines| - 1], lines[|lines| - 1];
      MarkedObservations(front);
      assert lines == front + [last];
      MarkedSnoc(Observations(front), Observation(last));
    }
  }

  lemma MarkedSnoc(observed: seq<string>, last: string)
    ensures Marked(observed + [last]) <==> Marked(observed) || last == INVALID_CARGO_STREAM
  {
  }

  /** The loop has returned a status, so the capture is finished, and it holds no marker. */
  predicate Certified(s: System) {
    s.phase.Done? && s.phase.ending != AtPollError && !Marked(s.observed)
  }

  /**
   Over every interleaving, a stream is certified exactly when the loop ended on `Finished`, no write failed and every
   line of the complete stdout can be certified; and then the capture saw exactly those lines, in order.
   */
  lemma CertifiedIsComplete(stdout: string, states: seq<System>, k: nat)
    requires Run(stdout, states) && k < |states|
    ensures var s := states[k];
            Certified(s) <==> s.phase == Done(AtFinished) && !s.writeFailed && Certifiable(Lines(stdout))
    ensures Certified(states[k]) ==> states[k].observed == Lines(stdout)
  {
    RunInv(stdout, states, k);
    MarkedObservations(Lines(stdout));
  }

  /** The absence of the marker alone does not certify: a failed status check leaves without one. */
  lemma PollErrorIsUnmarked(stdout: string) returns (states: seq<System>)
    ensures Run(stdout, states)
    ensures var s := states[|states| - 1];
            s.phase == Done(AtPollError) && !Marked(s.observed) && s.consumed == ""
  {
    var start := System(0, true, [], Polling, 0, None, "", [], false);
    states := [start, start.(phase := Done(AtPollError))];
    assert Polls(states[0], states[1]);
    assert StepAt(stdout, states, 0);
  }

  /** While the loop runs, what it has observed without a write failure is the stream's own prefix, nothing more. */
  lemma UnmarkedIsPrefix(stdout: string, states: seq<System>, k: nat)
    requires Run(stdout, states) && k < |states|
    requires !states[k].phase.Done? && !Marked(states[k].observed)
    ensures states[k].consumed <= stdout
    ensures states[k].observed == ObservedSoFar(states[k].consumed)
  {
    RunInv(stdout, states, k);
  }

  /** How far the current iteration has still to go. */
  function StagesLeft(phase: Phase): (n: nat) {
    match phase
    case Polling => 3
    case Receiving => 2
    case Checking => 1
    case Done(_) => 0
  }

  lemma ExpiredStep(stdout: string, s: System, s': System)
    requires Next(stdout, s, s') && DrainExpired(s.exitedAt, s.clock)
    ensures DrainExpired(s'.exitedAt, s'.clock)
    ensures s'.phase != s.phase ==> StagesLeft(s'.phase) < StagesLeft(s.phase)
  {
  }

  /** How many steps of the loop lie between two states of a run. */
  function LoopSteps(states: seq<System>, i: nat, j: nat): (count: nat)
    requires i <= j < |states|
  {
    if i == j then 0 else LoopSteps(states, i, j - 1) + if states[j].phase != states[j - 1].phase then 1 else 0
  }

  /** A pipe that stays open cannot hold the loop: after the timeout, no run has more steps of it than stages left. */
  lemma {:induction false} ExpiredIterationIsLast(stdout: string, states: seq<System>, i: nat, j: nat)
    requires Run(stdout, states) && i <= j < |states|
    requires states[i].exitedAt.Some? && states[i].clock >= states[i].exitedAt.value + 2000
    ensures DrainExpired(states[j].exitedAt, states[j].clock)
    ensures LoopSteps(states, i, j) + StagesLeft(states[j].phase) <= StagesLeft(states[i].phase) <= 3
    decreases j
  {
    if i < j {
      ExpiredIterationIsLast(stdout, states, i, j - 1);
      assert StepAt(stdout, states, j - 1);
      ExpiredStep(stdout, states[j - 1], states[j]);
    }
  }
}
