/**
 Bounded line framing of Cargo's stdout. Bytes are characters here. `protocol` answers what the capture answers for
 a line; `fails(k)` says whether the k-th write of a call fails.
 */
module CargoFraming {
  import opened Seqs

  /** The longest protocol line that is retained. */
  const MAX_CARGO_PROTOCOL_LINE: nat := 4 * 1024 * 1024

  /** Observed in place of anything that cannot establish a complete receipt. */
  const INVALID_CARGO_STREAM := "\0kache-invalid-cargo-stream\n"

  // ---- The whole-stream meaning ----

  /** The complete lines of a stream, each with its line feed, and the unfinished rest. */
  datatype Framed = Framed(records: seq<string>, tail: string)

  function Frame(stream: string): (f: Framed) {
    if stream == "" then Framed([], "")
    else
      var f, c := Frame(stream[..|stream| - 1]), stream[|stream| - 1];
      if c == '\n' then Framed(f.records + [f.tail + [c]], "") else Framed(f.records, f.tail + [c])
  }

  function Concat(parts: seq<string>): (r: string) {
    if parts == [] then "" else Concat(parts[..|parts| - 1]) + parts[|parts| - 1]
  }

  /** A text whose only line feed, if any, is its last character. */
  predicate Part(part: string) {
    part != "" && forall i :: 0 <= i < |part| - 1 ==> part[i] != '\n'
  }

  predicate Terminated(part: string) {
    part != "" && part[|part| - 1] == '\n'
  }

  /** All lines of a stream that has ended; the last may lack its line feed. */
  function Lines(stream: string): (r: seq<string>) {
    var f := Frame(stream);
    if f.tail == "" then f.records else f.records + [f.tail]
  }

  /** The lines are the stream cut after every line feed. */
  lemma {:induction false} FrameCuts(stream: string)
    ensures var f := Frame(stream);
            && Concat(f.records) + f.tail == stream
            && '\n' !in f.tail
            && forall line :: line in f.records ==> Part(line) && Terminated(line)
  {
    if stream != "" {
      var shorter, c := stream[..|stream| - 1], stream[|stream| - 1];
      FrameCuts(shorter);
      var f := Frame(shorter);
      TakeNext(stream, |stream| - 1);
      TakeAll(stream);
      AppendAssoc(Concat(f.records), f.tail, [c]);
      if c == '\n' {
        ConcatSnoc(f.records, f.tail + [c]);
        AppendEmpty(Concat(f.records + [f.tail + [c]]));
        LineIsPart(f.tail);
      }
    }
  }

  lemma LineIsPart(tail: string)
    requires '\n' !in tail
    ensures Part(tail + ['\n']) && Terminated(tail + ['\n'])
  {
  }

  lemma {:induction false} FramePart(stream: string, part: string)
    requires Part(part)
    ensures var f := Frame(stream);
            Frame(stream + part) ==
              if Terminated(part) then Framed(f.records + [f.tail + part], "") else Framed(f.records, f.tail + part)
    decreases |part|
  {
    var whole := stream + part;
    var shorter, c := part[..|part| - 1], part[|part| - 1];
    assert whole[..|whole| - 1] == stream + shorter;
    if shorter == "" {
      assert stream + shorter == stream && part == [c];
    } else {
      assert shorter[|shorter| - 1] == part[|part| - 2];
      FramePart(stream, shorter);
      assert part == shorter + [c];
      assert Frame(stream).tail + part == Frame(stream).tail + shorter + [c];
    }
  }

  // ---- What is observed and forwarded ----

  /** A line within the cap is observed as it is, a longer one as the marker. */
  function Observation(line: string): (r: string) {
    if |line| <= MAX_CARGO_PROTOCOL_LINE then line else INVALID_CARGO_STREAM
  }

  /** Every line is forwarded verbatim, except a protocol line in human mode. */
  function Forward(line: string, human: bool, protocol: string -> bool): (r: string) {
    if |line| <= MAX_CARGO_PROTOCOL_LINE && human && protocol(line) then "" else line
  }

  function Observations(lines: seq<string>): (r: seq<string>) {
    if lines == [] then [] else Observations(lines[..|lines| - 1]) + [Observation(lines[|lines| - 1])]
  }

  function Forwards(lines: seq<string>, human: bool, protocol: string -> bool): (r: string) {
    if lines == [] then ""
    else Forwards(lines[..|lines| - 1], human, protocol) + Forward(lines[|lines| - 1], human, protocol)
  }

  /** What has been observed of a stream so far: its complete lines, and the marker once the rest is over the cap. */
  function ObservedSoFar(stream: string): (r: seq<string>) {
    var f := Frame(stream);
    Observations(f.records) + if |f.tail| > MAX_CARGO_PROTOCOL_LINE then [INVALID_CARGO_STREAM] else []
  }

  function ForwardedSoFar(stream: string, human: bool, protocol: string -> bool): (r: string) {
    var f := Frame(stream);
    Forwards(f.records, human, protocol) + Held(f.tail)
  }

  lemma ObservationsSnoc(lines: seq<string>, line: string)
    ensures Observations(lines + [line]) == Observations(lines) + [Observation(line)]
  {
    assert (lines + [line])[..|lines|] == lines;
  }

  lemma ForwardsSnoc(lines: seq<string>, line: string, human: bool, protocol: string -> bool)
    ensures Forwards(lines + [line], human, protocol)
            == Forwards(lines, human, protocol) + Forward(line, human, protocol)
  {
    assert (lines + [line])[..|lines|] == lines;
  }

  lemma ConcatSnoc(parts: seq<string>, part: string)
    ensures Concat(parts + [part]) == Concat(parts) + part
  {
    assert (parts + [part])[..|parts|] == parts;
  }

  // ---- The incremental framer ----

  /** The end of the part of `bytes` that starts at `i`, as `split_inclusive` cuts it. */
  function PartEnd(bytes: string, i: nat): (end: nat)
    requires i < |bytes|
    ensures i < end <= |bytes| && Part(bytes[i..end])
    ensures end < |bytes| ==> Terminated(bytes[i..end])
    decreases |bytes| - i
  {
    if bytes[i] == '\n' || i + 1 == |bytes| then i + 1
    else
      var end := PartEnd(bytes, i + 1);
      assert bytes[i..end] == [bytes[i]] + bytes[i + 1..end];
      end
  }

  class CargoOutput {
    var line: string
    var oversized: bool
    const human: bool
    /** Everything pushed so far. */
    ghost var stream: string

    ghost predicate Valid()
      reads this
    {
      var tail := Frame(stream).tail;
      && oversized == (|tail| > MAX_CARGO_PROTOCOL_LINE)
      && line == if oversized then "" else tail
    }

    constructor (human: bool)
      ensures Valid() && stream == "" && this.human == human
    {
      this.human, line, oversized, stream := human, "", false, "";
    }

    /** Observe and forward the buffered line. */
    method Emit(protocol: string -> bool, fails: bool)
        returns (observed: seq<string>, writes: seq<string>, ok: bool)
      modifies this`line
      ensures line == ""
      ensures observed == [old(line)]
      ensures writes == if human && protocol(old(line)) then [] else [old(line)]
      ensures ok <==> writes == [] || !fails
    {
      observed := [line];
      if human && protocol(line) {
        writes, ok := [], true;
      } else {
        writes, ok := [line], !fails;
      }
      line := "";
    }

    /** One part of a pushed buffer. An oversized line streams through until its line feed. */
    method PushPart(part: string, protocol: string -> bool, fails: nat -> bool, calls: nat)
        returns (observed: seq<string>, writes: seq<string>, ok: bool)
      requires Valid() && Part(part)
      modifies this
      ensures Valid() && stream == old(stream) + part && |line| <= MAX_CARGO_PROTOCOL_LINE
      ensures ObservedSoFar(stream) == ObservedSoFar(old(stream)) + observed
      ensures ok ==>
        ForwardedSoFar(stream, human, protocol) == ForwardedSoFar(old(stream), human, protocol) + Concat(writes)
      ensures (forall k :: !fails(k)) ==> ok
    {
      PartObserved(stream, part);
      PartForwarded(stream, part, human, protocol);
      FramePart(stream, part);
      stream := stream + part;
      if oversized {
        oversized := !Terminated(part);
        observed, writes, ok := [], [part], !fails(calls);
      } else if |part| > MAX_CARGO_PROTOCOL_LINE - |line| {
        observed := [INVALID_CARGO_STREAM];
        if fails(calls) {
          writes, ok := [line], false;
        } else {
          writes, ok := [line, part], !fails(calls + 1);
        }
        line := "";
        oversized := !Terminated(part);
      } else {
        line := line + part;
        if Terminated(part) {
          observed, writes, ok := Emit(protocol, fails(calls));
        } else {
          observed, writes, ok := [], [], true;
        }
      }
      ConcatShort(writes);
    }

    /** Frame a buffer. Every part is framed even after a write fails; the first failure is reported at the end. */
    method Push(bytes: string, protocol: string -> bool, fails: nat -> bool)
        returns (observed: seq<string>, writes: seq<string>, ok: bool)
      requires Valid()
      modifies this
      ensures Valid() && stream == old(stream) + bytes && |line| <= MAX_CARGO_PROTOCOL_LINE
      ensures ObservedSoFar(stream) == ObservedSoFar(old(stream)) + observed
      ensures ok ==>
        ForwardedSoFar(stream, human, protocol) == ForwardedSoFar(old(stream), human, protocol) + Concat(writes)
      ensures (forall k :: !fails(k)) ==> ok
    {
      observed, writes, ok := [], [], true;
      var i := 0;
      ghost var seen, sent := ObservedSoFar(stream), ForwardedSoFar(stream, human, protocol);
      assert stream + bytes[..0] == stream && seen + [] == seen && sent + "" == sent;
      while i < |bytes|
        invariant i <= |bytes| && Valid() && stream == old(stream) + bytes[..i]
        invariant ObservedSoFar(stream) == seen + observed
        invariant ok ==> ForwardedSoFar(stream, human, protocol) == sent + Concat(writes)
        invariant (forall k :: !fails(k)) ==> ok
      {
        var end := PartEnd(bytes, i);
        var o, w, k := PushPart(bytes[i..end], protocol, fails, |writes|);
        AppendSlice(old(stream), bytes, i, end);
        ConcatAppend(writes, w);
        AppendAssoc(seen, observed, o);
        AppendAssoc(sent, Concat(writes), Concat(w));
        observed, writes, ok, i := observed + o, writes + w, ok && k, end;
      }
      assert bytes[..i] == bytes;
    }

    /** Observe and forward what is left at the end of the stream. */
    method Finish(protocol: string -> bool, fails: bool)
        returns (observed: seq<string>, writes: seq<string>, ok: bool)
      requires Valid()
      modifies this`line
      ensures line == ""
      ensures Observations(Lines(stream)) == ObservedSoFar(stream) + observed
      ensures ok ==>
        Forwards(Lines(stream), human, protocol) == ForwardedSoFar(stream, human, protocol) + Concat(writes)
      ensures !fails ==> ok
    {
      FinishStep(stream, human, protocol);
      if line == "" {
        observed, writes, ok := [], [], true;
      } else {
        observed, writes, ok := Emit(protocol, fails);
      }
      ConcatShort(writes);
    }
  }

  lemma AppendSlice(stream: string, bytes: string, i: nat, end: nat)
    requires i <= end <= |bytes|
    ensures stream + bytes[..i] + bytes[i..end] == stream + bytes[..end]
  {
  }

  lemma ConcatShort(writes: seq<string>)
    ensures writes == [] ==> Concat(writes) == ""
    ensures |writes| == 1 ==> Concat(writes) == writes[0]
    ensures |writes| == 2 ==> Concat(writes) == writes[0] + writes[1]
  {
    if |writes| == 1 {
      ConcatSnoc([], writes[0]);
      assert writes == [] + [writes[0]];
    } else if |writes| == 2 {
      ConcatSnoc([writes[0]], writes[1]);
      ConcatSnoc([], writes[0]);
      assert [writes[0]] == [] + [writes[0]] && writes == [writes[0]] + [writes[1]];
    }
  }

  lemma {:induction false} ConcatAppend(a: seq<string>, b: seq<string>)
    ensures Concat(a + b) == Concat(a) + Concat(b)
    decreases |b|
  {
    if b == [] {
      assert a + b == a;
    } else {
      var shorter, last := b[..|b| - 1], b[|b| - 1];
      assert (a + b)[..|a + b| - 1] == a + shorter;
      ConcatAppend(a, shorter);
    }
  }

  /** How one part changes what has been observed. */
  lemma PartObserved(stream: string, part: string)
    requires Part(part)
    ensures var tail := Frame(stream).tail;
            var over, now := |tail| > MAX_CARGO_PROTOCOL_LINE, |tail + part| > MAX_CARGO_PROTOCOL_LINE;
            ObservedSoFar(stream + part) == ObservedSoFar(stream)
              + (if over then [] else if now then [INVALID_CARGO_STREAM]
                 else if Terminated(part) then [tail + part] else [])
  {
    FramePart(stream, part);
    var f := Frame(stream);
    if Terminated(part) {
      ObservationsSnoc(f.records, f.tail + part);
    }
  }

  function Held(tail: string): (r: string) {
    if |tail| > MAX_CARGO_PROTOCOL_LINE then tail else ""
  }

  lemma HeldGrows(sent: string, tail: string, part: string)
    ensures |tail| > MAX_CARGO_PROTOCOL_LINE ==> sent + (tail + part) == sent + Held(tail) + part
    ensures |tail| <= MAX_CARGO_PROTOCOL_LINE ==> sent + Held(tail) == sent
  {
  }

  /** How one part changes what has been forwarded. */
  lemma PartForwarded(stream: string, part: string, human: bool, protocol: string -> bool)
    requires Part(part)
    ensures var tail := Frame(stream).tail;
            var over, now := |tail| > MAX_CARGO_PROTOCOL_LINE, |tail + part| > MAX_CARGO_PROTOCOL_LINE;
            ForwardedSoFar(stream + part, human, protocol) == ForwardedSoFar(stream, human, protocol)
              + (if over then part else if now then tail + part
                 else if Terminated(part) then Forward(tail + part, human, protocol) else "")
  {
    FramePart(stream, part);
    var f := Frame(stream);
    var sent := Forwards(f.records, human, protocol);
    HeldGrows(sent, f.tail, part);
    if Terminated(part) {
      ForwardsSnoc(f.records, f.tail + part, human, protocol);
      AppendEmpty(Forwards(f.records + [f.tail + part], human, protocol));
    } else {
      AppendEmpty(sent);
    }
  }

  lemma FinishStep(stream: string, human: bool, protocol: string -> bool)
    ensures var tail := Frame(stream).tail;
            var emits := tail != "" && |tail| <= MAX_CARGO_PROTOCOL_LINE;
            && Observations(Lines(stream)) == ObservedSoFar(stream) + (if emits then [tail] else [])
            && Forwards(Lines(stream), human, protocol)
               == ForwardedSoFar(stream, human, protocol) + (if emits then Forward(tail, human, protocol) else "")
  {
    var f := Frame(stream);
    ObservationsSnoc(f.records, f.tail);
    ForwardsSnoc(f.records, f.tail, human, protocol);
  }

  /**
   Any split of a stream into chunks gives the whole-stream meaning: each line observed once, or as one marker when
   over the cap, whatever the writes do; and everything forwarded as specified when no write fails.
   */
  method FrameChunks(chunks: seq<string>, human: bool, protocol: string -> bool, fails: (nat, nat) -> bool)
      returns (observed: seq<string>, writes: seq<string>, ok: bool)
    ensures observed == Observations(Lines(Concat(chunks)))
    ensures ok ==> Concat(writes) == Forwards(Lines(Concat(chunks)), human, protocol)
    ensures (forall i, k :: !fails(i, k)) ==> ok
  {
    var output := new CargoOutput(human);
    observed, writes, ok := [], [], true;
    for i := 0 to |chunks|
      invariant output.Valid() && output.human == human && output.stream == Concat(chunks[..i])
      invariant observed == ObservedSoFar(output.stream)
      invariant ok ==> Concat(writes) == ForwardedSoFar(output.stream, human, protocol)
      invariant (forall i, k :: !fails(i, k)) ==> ok
    {
      var o, w, k := output.Push(chunks[i], protocol, (k: nat) => fails(i, k));
      TakeNext(chunks, i);
      ConcatSnoc(chunks[..i], chunks[i]);
      ConcatAppend(writes, w);
      observed, writes, ok := observed + o, writes + w, ok && k;
    }
    TakeAll(chunks);
    var o, w, k := output.Finish(protocol, fails(|chunks|, 0));
    ConcatAppend(writes, w);
    observed, writes, ok := observed + o, writes + w, ok && k;
  }
}
