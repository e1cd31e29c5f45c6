/**
 Draining rustc's two pipes while either reader may have to kill the child: a stdout thread, the calling thread on
 stderr, and the child, interleaved around the mutex that guards the child handle.
 */
module RustcCapture {
  import opened Text
  import opened Seqs

  datatype Owner = StdoutThread | MainThread

  /** The stdout thread: reading, wanting the lock to kill, holding it, or over. A panic ends it without a kill. */
  datatype StdoutPhase = OutReading | OutWanting | OutKilling | OutEnded

  /** The calling thread: the same for stderr, then joining, then waiting for the child under the lock. */
  datatype MainPhase = ErrReading | ErrWanting | ErrKilling | Joining | WaitWanting | Waiting | Finished

  /** The child: running, blocked on a full pipe, or dead. */
  datatype Child = Running | StuckOnStdout | StuckOnStderr | Dead

  datatype System = System(
    out: StdoutPhase,
    main: MainPhase,
    child: Child,
    closedStdout: bool,      // the child has closed its own end
    closedStderr: bool,
    lock: Option<Owner>,
    reaped: nat,
    panicked: bool)

  const INITIAL := System(OutReading, ErrReading, Running, false, false, None, 0, false)

  // ---- Steps that happen unless something else happens first ----

  /** The child reaches its end, or a reader makes room in the pipe it is blocked on. */
  ghost predicate ChildMoves(s: System, s': System) {
    || (s.child == Running && s' == s.(child := Dead))
    || (s.child == StuckOnStdout && s.out == OutReading && s' == s.(child := Running))
    || (s.child == StuckOnStderr && s.main == ErrReading && s' == s.(child := Running))
  }

  /** A pipe reads as ended once the child is dead or has closed it. */
  ghost predicate StdoutMoves(s: System, s': System) {
    || (s.out == OutReading && (s.child == Dead || s.closedStdout) && s' == s.(out := OutEnded))
    || (s.out == OutWanting && s.lock == None && s' == s.(out := OutKilling, lock := Some(StdoutThread)))
    || (s.out == OutKilling && s' == s.(out := OutEnded, lock := None, child := Dead))
  }

  ghost predicate MainMoves(s: System, s': System) {
    || (s.main == ErrReading && (s.child == Dead || s.closedStderr) && s' == s.(main := Joining))
    || (s.main == ErrWanting && s.lock == None && s' == s.(main := ErrKilling, lock := Some(MainThread)))
    || (s.main == ErrKilling && s' == s.(main := Joining, lock := None, child := Dead))
    || (s.main == Joining && s.out == OutEnded && s' == s.(main := WaitWanting))
    || (s.main == WaitWanting && s.lock == None && s' == s.(main := Waiting, lock := Some(MainThread)))
    || (s.main == Waiting && s.child == Dead && s' == s.(main := Finished, lock := None, reaped := s.reaped + 1))
  }

  ghost predicate Moves(s: System, s': System) {
    ChildMoves(s, s') || StdoutMoves(s, s') || MainMoves(s, s')
  }

  // ---- Steps that may happen ----

  ghost predicate ChildChanges(s: System, s': System) {
    && s.child == Running
    && (|| (!s.closedStdout && s' == s.(child := StuckOnStdout))
        || (!s.closedStderr && s' == s.(child := StuckOnStderr))
        || s' == s.(closedStdout := true)
        || s' == s.(closedStderr := true))
  }

  /** A read fails, stderr asks to stop, or the stdout thread panics. */
  ghost predicate ReaderBreaks(s: System, s': System) {
    || (s.out == OutReading && s' == s.(out := OutWanting))
    || (s.main == ErrReading && s' == s.(main := ErrWanting))
    || (s.out == OutReading && s' == s.(out := OutEnded, panicked := true))
  }

  ghost predicate Next(s: System, s': System) {
    Moves(s, s') || ChildChanges(s, s') || ReaderBreaks(s, s')
  }

  // ---- The invariant ----

  ghost predicate LockHeldByUsers(s: System) {
    && !(s.out == OutKilling && (s.main == ErrKilling || s.main == Waiting))
    && s.lock == (if s.out == OutKilling then Some(StdoutThread)
                  else if s.main == ErrKilling || s.main == Waiting then Some(MainThread)
                  else None)
  }

  /** The child is waited for once, at the very end, and nobody can still need to kill it then. */
  ghost predicate ReapedOnceLast(s: System) {
    && s.reaped == (if s.main == Finished then 1 else 0)
    && (s.main == Finished ==> s.child == Dead)
    && (s.main == WaitWanting || s.main == Waiting || s.main == Finished ==> s.out == OutEnded)
  }

  /** A pipe whose reader is gone does not block a living child, except after a panic. */
  ghost predicate PipesServed(s: System) {
    && (s.out == OutEnded ==> s.child == Dead || s.closedStdout || s.panicked)
    && (s.main != ErrReading && s.main != ErrWanting && s.main != ErrKilling ==> s.child == Dead || s.closedStderr)
    && (s.child == StuckOnStdout ==> !s.closedStdout)
    && (s.child == StuckOnStderr ==> !s.closedStderr)
    && (s.panicked ==> s.out == OutEnded)
  }

  ghost predicate Inv(s: System) {
    LockHeldByUsers(s) && ReapedOnceLast(s) && PipesServed(s)
  }

  lemma MovesInv(s: System, s': System)
    requires Inv(s) && Moves(s, s')
    ensures Inv(s')
  {
    if ChildMoves(s, s') {
    } else if StdoutMoves(s, s') {
    } else {
      assert MainMoves(s, s');
    }
  }

  lemma NextInv(s: System, s': System)
    requires Inv(s) && Next(s, s')
    ensures Inv(s')
  {
    if Moves(s, s') {
      MovesInv(s, s');
    }
  }

  ghost predicate StepAt(states: seq<System>, i: nat)
    requires i + 1 < |states|
  {
    Next(states[i], states[i + 1])
  }

  ghost predicate Run(states: seq<System>) {
    && states != [] && states[0] == INITIAL
    && forall i :: 0 <= i < |states| - 1 ==> StepAt(states, i)
  }

  lemma {:induction false} RunInv(states: seq<System>, k: nat)
    requires Run(states) && k < |states|
    ensures Inv(states[k])
  {
    if k > 0 {
      RunInv(states, k - 1);
      assert StepAt(states, k - 1);
      NextInv(states[k - 1], states[k]);
    }
  }

  /**
   In every interleaving the child is reaped at most once, only when it is dead and both readers have ended, and no
   thread waits under the lock while the other could still need it to kill.
   */
  lemma ReapedSafely(states: seq<System>, k: nat)
    requires Run(states) && k < |states|
    ensures var s := states[k];
            && s.reaped <= 1
            && (s.reaped == 1 <==> s.main == Finished)
            && (s.reaped == 1 ==> s.child == Dead && s.out == OutEnded)
            && (s.main == Waiting ==> s.lock == Some(MainThread) && s.out == OutEnded)
            && !(s.out == OutKilling && (s.main == ErrKilling || s.main == Waiting))
  {
    RunInv(states, k);
  }

  ghost predicate OutBroken(s: System) {
    s.out == OutWanting || s.out == OutKilling
  }

  ghost predicate ErrBroken(s: System) {
    s.main == ErrWanting || s.main == ErrKilling
  }

  /** A read can fail and a child can close or fill a pipe whenever there is one to do it. */
  lemma AnythingCanHappen(s: System)
    ensures s.out == OutReading ==> Next(s, s.(out := OutWanting)) && Next(s, s.(out := OutEnded, panicked := true))
    ensures s.main == ErrReading ==> Next(s, s.(main := ErrWanting))
    ensures s.child == Running ==> Next(s, s.(closedStdout := true)) && Next(s, s.(closedStderr := true))
    ensures s.child == Running && !s.closedStdout ==> Next(s, s.(child := StuckOnStdout))
    ensures s.child == Running && !s.closedStderr ==> Next(s, s.(child := StuckOnStderr))
  {
  }

  lemma BrokenStep(s: System, s': System)
    requires Next(s, s')
    ensures OutBroken(s) ==> OutBroken(s') || s'.child == Dead
    ensures ErrBroken(s) ==> ErrBroken(s') || s'.child == Dead
    ensures s.child == Dead ==> s'.child == Dead
  {
  }

  /** A reader that broke is over only once the child is dead, in every interleaving. */
  lemma {:induction false} BrokenReadersKill(states: seq<System>, i: nat, j: nat)
    requires Run(states) && i <= j < |states|
    ensures OutBroken(states[i]) ==> OutBroken(states[j]) || states[j].child == Dead
    ensures ErrBroken(states[i]) ==> ErrBroken(states[j]) || states[j].child == Dead
    decreases j
  {
    if i < j {
      BrokenReadersKill(states, i, j - 1);
      assert StepAt(states, j - 1);
      BrokenStep(states[j - 1], states[j]);
    }
  }

  // ---- Progress ----

  /** The one way to get stuck: the stdout thread panicked, so nobody drains or kills a child blocked on stdout. */
  ghost predicate Stalled(s: System) {
    && s.panicked && s.child == StuckOnStdout
    && (s.main == Waiting || (s.main == ErrReading && !s.closedStderr))
  }

  function Rank(s: System): (n: nat) {
    (match s.out case OutReading => 3 case OutWanting => 2 case OutKilling => 1 case OutEnded => 0)
    + (match s.main case ErrReading => 6 case ErrWanting => 5 case ErrKilling => 4 case Joining => 3
       case WaitWanting => 2 case Waiting => 1 case Finished => 0)
    + (match s.child case StuckOnStdout => 2 case StuckOnStderr => 2 case Running => 1 case Dead => 0)
  }

  /** The move available in an unfinished state that is not stalled. */
  function NextMove(s: System): (s': System)
    requires s.main != Finished
  {
    if s.out == OutKilling then s.(out := OutEnded, lock := None, child := Dead)
    else if s.main == ErrKilling then s.(main := Joining, lock := None, child := Dead)
    else if s.child == Running then s.(child := Dead)
    else if s.child == StuckOnStdout && s.out == OutReading then s.(child := Running)
    else if s.child == StuckOnStderr && s.main == ErrReading then s.(child := Running)
    else if s.main == ErrWanting then s.(main := ErrKilling, lock := Some(MainThread))
    else if s.out == OutWanting then s.(out := OutKilling, lock := Some(StdoutThread))
    else if s.out == OutReading then s.(out := OutEnded)
    else if s.main == ErrReading then s.(main := Joining)
    else if s.main == Joining then s.(main := WaitWanting)
    else if s.main == WaitWanting then s.(main := Waiting, lock := Some(MainThread))
    else s.(main := Finished, lock := None, reaped := s.reaped + 1)
  }

  /** No unfinished state is deadlocked: some move is possible and brings the end closer, except when stalled. */
  lemma MoveOrStall(s: System)
    requires Inv(s) && s.main != Finished
    ensures !Stalled(s) ==> Moves(s, NextMove(s)) && Rank(NextMove(s)) < Rank(s)
    ensures Stalled(s) ==> forall s' :: !Moves(s, s')
  {
  }

  /** The stall is real: the child fills the stdout pipe, then the thread that should drain it panics. */
  lemma PanicCanStall() returns (states: seq<System>)
    ensures Run(states) && Stalled(states[|states| - 1])
  {
    var stuck := INITIAL.(child := StuckOnStdout);
    states := [INITIAL, stuck, stuck.(out := OutEnded, panicked := true)];
    assert ChildChanges(states[0], states[1]);
    assert ReaderBreaks(states[1], states[2]);
    assert StepAt(states, 0) && StepAt(states, 1);
  }

  ghost predicate MoveAt(states: seq<System>, i: nat)
    requires i + 1 < |states|
  {
    Moves(states[i], states[i + 1])
  }

  ghost predicate MovesTo(states: seq<System>) {
    && states != []
    && forall i :: 0 <= i < |states| - 1 ==> MoveAt(states, i)
  }

  lemma MovesCons(s: System, rest: seq<System>)
    requires MovesTo(rest) && Moves(s, rest[0])
    ensures MovesTo([s] + rest)
  {
    var states := [s] + rest;
    forall i | 0 <= i < |states| - 1
      ensures MoveAt(states, i)
    {
      if i > 0 {
        assert MoveAt(rest, i - 1);
      }
    }
  }

  /** Without a panic, every reachable state leads to the end by moves alone, however the child behaved before. */
  lemma {:induction false} EndIsReachable(s: System) returns (states: seq<System>)
    requires Inv(s) && !s.panicked
    ensures MovesTo(states) && states[0] == s
    ensures states[|states| - 1].main == Finished && states[|states| - 1].reaped == 1
    decreases Rank(s)
  {
    if s.main == Finished {
      states := [s];
    } else {
      MoveOrStall(s);
      var next := NextMove(s);
      MovesInv(s, next);
      var rest := EndIsReachable(next);
      states := [s] + rest;
      MovesCons(s, rest);
    }
  }

  lemma MovesDescend(s: System, s': System)
    requires Moves(s, s')
    ensures Rank(s') < Rank(s)
  {
    if ChildMoves(s, s') {
    } else if StdoutMoves(s, s') {
    } else {
      MainDescends(s, s');
    }
  }

  lemma MainDescends(s: System, s': System)
    requires MainMoves(s, s')
    ensures Rank(s') < Rank(s)
  {
    assert s'.out == s.out;
  }

  /** Without a panic no schedule of moves goes on for ever, and each that can go no further has ended and reaped. */
  lemma {:induction false} EveryScheduleEnds(states: seq<System>)
    requires MovesTo(states) && Inv(states[0]) && !states[0].panicked
    ensures |states| <= Rank(states[0]) + 1
    ensures var last := states[|states| - 1];
            (forall s' :: !Moves(last, s')) <==> last.main == Finished
    ensures states[|states| - 1].main == Finished ==> states[|states| - 1].reaped == 1
    decreases |states|
  {
    if |states| == 1 {
      LastHasNoMoves(states[0]);
    } else {
      assert MoveAt(states, 0);
      MovesInv(states[0], states[1]);
      MovesDescend(states[0], states[1]);
      MovesTail(states);
      EveryScheduleEnds(states[1..]);
    }
  }

  lemma MovesTail(states: seq<System>)
    requires MovesTo(states) && |states| > 1
    ensures MovesTo(states[1..])
  {
    forall i | 0 <= i < |states| - 2
      ensures MoveAt(states[1..], i)
    {
      assert MoveAt(states, i + 1);
    }
  }

  lemma LastHasNoMoves(s: System)
    requires Inv(s) && !s.panicked
    ensures (forall s' :: !Moves(s, s')) <==> s.main == Finished
  {
    if s.main != Finished {
      MoveOrStall(s);
      assert Moves(s, NextMove(s));
    }
  }

  /** The child blocks on a full pipe. */
  ghost predicate Blocks(s: System, s': System) {
    s.child == Running && (s'.child == StuckOnStdout || s'.child == StuckOnStderr)
  }

  ghost function MovesTaken(states: seq<System>, n: nat): (count: nat)
    requires n < |states|
  {
    if n == 0 then 0 else MovesTaken(states, n - 1) + if Moves(states[n - 1], states[n]) then 1 else 0
  }

  ghost function Blockings(states: seq<System>, n: nat): (count: nat)
    requires n < |states|
  {
    if n == 0 then 0 else Blockings(states, n - 1) + if Blocks(states[n - 1], states[n]) then 1 else 0
  }

  /** Only a blocking adds to what is left, and a move always takes from it. */
  lemma RankStep(s: System, s': System)
    requires Next(s, s')
    ensures Rank(s') + (if Moves(s, s') then 1 else 0) <= Rank(s) + (if Blocks(s, s') then 1 else 0)
  {
    if Moves(s, s') {
      MovesDescend(s, s');
    } else if ChildChanges(s, s') {
    } else {
      assert ReaderBreaks(s, s');
    }
  }

  /** In every run, panics and failed reads included, at most ten moves and one for each time the child blocked. */
  lemma {:induction false} MovesAreBounded(states: seq<System>, n: nat)
    requires Run(states) && n < |states|
    ensures MovesTaken(states, n) + Rank(states[n]) <= 10 + Blockings(states, n)
  {
    if n > 0 {
      MovesAreBounded(states, n - 1);
      assert StepAt(states, n - 1);
      RankStep(states[n - 1], states[n]);
    }
  }

  // ---- Capturing stderr ----

  /** What a stderr line reports having been emitted, if it is an artifact notification. */
  datatype Emit = DepInfo | Metadata | OtherArtifact | NoArtifact

  datatype CapturedStderr = CapturedStderr(
    verbatim: seq<string>, undelivered: seq<string>, delivered: seq<string>, artifacts: seq<string>, stopped: bool)

  /** What the caller plugs in: how lines parse, whether a sink or a dep-info decision is attached, and its answers. */
  datatype Hooks = Hooks(
    emit: string -> Emit, artifact: string -> Option<string>, hasSink: bool, hasDecider: bool, goOn: nat -> bool)
  {
    /** The decision is asked for at this line. */
    predicate Asks(line: string) {
      hasDecider && emit(line).DepInfo?
    }

    predicate ToSink(line: string) {
      hasSink && emit(line).Metadata?
    }

    predicate Retained(line: string) {
      !ToSink(line)
    }
  }

  /** The reported artifact paths of some lines. */
  function Artifacts(lines: seq<string>, artifact: string -> Option<string>): (r: seq<string>) {
    if lines == [] then []
    else Artifacts(lines[..|lines| - 1], artifact)
         + (match artifact(lines[|lines| - 1]) case Some(path) => [path] case None => [])
  }

  /** How many times the decision is asked for in some lines. */
  function Questions(lines: seq<string>, hooks: Hooks): (n: nat) {
    if lines == [] then 0
    else Questions(lines[..|lines| - 1], hooks) + if hooks.Asks(lines[|lines| - 1]) then 1 else 0
  }

  /** The decision asked for at line `k`, after those before it, is not to go on. */
  predicate Refused(lines: seq<string>, k: nat, hooks: Hooks)
    requires k < |lines|
  {
    hooks.Asks(lines[k]) && !hooks.goOn(Questions(lines[..k], hooks))
  }

  /** What the loop has gathered from the lines it handled completely. */
  function Gathered(lines: seq<string>, hooks: Hooks): (c: CapturedStderr) {
    var (retained, sunk) := (Filter(lines, hooks.Retained), Filter(lines, hooks.ToSink));
    CapturedStderr(lines, retained, sunk, Artifacts(lines, hooks.artifact), false)
  }

  function WithPath(paths: seq<string>, path: Option<string>): (r: seq<string>) {
    if path.Some? then paths + [path.value] else paths
  }

  lemma CountLine(lines: seq<string>, line: string, hooks: Hooks)
    ensures Artifacts(lines + [line], hooks.artifact)
         == WithPath(Artifacts(lines, hooks.artifact), hooks.artifact(line))
    ensures Questions(lines + [line], hooks) == Questions(lines, hooks) + if hooks.Asks(line) then 1 else 0
  {
    SnocInit(lines, line);
    AppendEmpty(Artifacts(lines, hooks.artifact));
  }

  lemma GatherLine(lines: seq<string>, line: string, hooks: Hooks)
    ensures var c, c' := Gathered(lines, hooks), Gathered(lines + [line], hooks);
            && c'.verbatim == c.verbatim + [line]
            && c'.artifacts == WithPath(c.artifacts, hooks.artifact(line))
            && c'.undelivered == (if hooks.ToSink(line) then c.undelivered else c.undelivered + [line])
            && c'.delivered == (if hooks.ToSink(line) then c.delivered + [line] else c.delivered)
            && Questions(lines + [line], hooks) == Questions(lines, hooks) + if hooks.Asks(line) then 1 else 0
  {
    CountLine(lines, line, hooks);
    FilterSnoc(lines, line, hooks.Retained);
    FilterSnoc(lines, line, hooks.ToSink);
  }

  ghost predicate NoneRefused(lines: seq<string>, n: nat, hooks: Hooks) {
    n <= |lines| && forall j: nat :: j < n ==> !Refused(lines, j, hooks)
  }

  lemma NoneRefusedNext(lines: seq<string>, n: nat, hooks: Hooks)
    requires n < |lines| && NoneRefused(lines, n, hooks) && !Refused(lines, n, hooks)
    ensures NoneRefused(lines, n + 1, hooks)
  {
  }

  /** What is left when the run stops at line `k`: the line is kept verbatim, but neither sent nor retained. */
  function StoppedAt(lines: seq<string>, k: nat, hooks: Hooks): (c: CapturedStderr)
    requires k < |lines|
  {
    Gathered(lines[..k], hooks).(
      verbatim := lines[..k + 1], artifacts := Artifacts(lines[..k + 1], hooks.artifact), stopped := true)
  }

  /**
   The stderr loop over the lines that arrive before the pipe ends or, if `fails`, before a read fails. Everything
   read is kept verbatim. A line goes to the sink or is retained for replay, never both and never neither, except a
   line the run stops at. A failed read is an error, unless the run stopped before it.
   */
  method CaptureRustcStderr(lines: seq<string>, fails: bool, hooks: Hooks)
      returns (c: CapturedStderr, read: nat, ok: bool)
    ensures ok <==> c.stopped || !fails
    ensures read <= |lines| && NoneRefused(lines, if c.stopped && read > 0 then read - 1 else read, hooks)
    ensures !c.stopped ==> read == |lines| && c == Gathered(lines, hooks)
    ensures c.stopped ==> read > 0 && Refused(lines, read - 1, hooks) && c == StoppedAt(lines, read - 1, hooks)
  {
    c := CapturedStderr([], [], [], [], false);
    var asked := 0;
    read, ok := 0, true;
    ghost var seen: seq<string> := [];
    while read < |lines|
      invariant read <= |lines| && seen == lines[..read]
      invariant asked == Questions(seen, hooks) && c == Gathered(seen, hooks)
      invariant NoneRefused(lines, read, hooks)
    {
      GatherLine(seen, lines[read], hooks);
      TakeNext(lines, read);
      c, asked := HandleLine(c, asked, lines[read], hooks);
      read := read + 1;
      if c.stopped {
        return;
      }
      seen := seen + [lines[read - 1]];
      NoneRefusedNext(lines, read - 1, hooks);
    }
    TakeAll(lines);
    ok := !fails;
  }

  /** One line: kept verbatim, then the decision, then the sink or the replay. */
  method HandleLine(c: CapturedStderr, asked: nat, line: string, hooks: Hooks)
      returns (c': CapturedStderr, asked': nat)
    requires !c.stopped
    ensures c'.stopped <==> hooks.hasDecider && hooks.emit(line) == DepInfo && !hooks.goOn(asked)
    ensures c'.verbatim == c.verbatim + [line]
    ensures c'.artifacts == WithPath(c.artifacts, hooks.artifact(line))
    ensures c'.undelivered == if c'.stopped || hooks.ToSink(line) then c.undelivered else c.undelivered + [line]
    ensures c'.delivered == if !c'.stopped && hooks.ToSink(line) then c.delivered + [line] else c.delivered
    ensures !c'.stopped ==> asked' == asked + if hooks.Asks(line) then 1 else 0
  {
    c', asked' := c.(verbatim := c.verbatim + [line]), asked;
    var path := hooks.artifact(line);
    if path.Some? {
      c' := c'.(artifacts := c'.artifacts + [path.value]);
    }
    if hooks.hasDecider && hooks.emit(line).DepInfo? {
      if !hooks.goOn(asked) {
        c' := c'.(stopped := true);
        return;
      }
      asked' := asked + 1;
    }
    if hooks.hasSink && hooks.emit(line).Metadata? {
      c' := c'.(delivered := c'.delivered + [line]);
    } else {
      c' := c'.(undelivered := c'.undelivered + [line]);
    }
  }

  function HasPath(artifact: string -> Option<string>): (r: string -> bool) {
    (line: string) => artifact(line).Some?
  }

  /** The paths that the lines of one list report, line by line. */
  ghost predicate ReportedBy(paths: seq<string>, lines: seq<string>, artifact: string -> Option<string>) {
    |paths| == |lines| && forall i :: 0 <= i < |lines| ==> artifact(lines[i]) == Some(paths[i])
  }

  lemma ReportedNext(paths: seq<string>, lines: seq<string>, line: string, artifact: string -> Option<string>)
    requires ReportedBy(paths, lines, artifact) && artifact(line).Some?
    ensures ReportedBy(paths + [artifact(line).value], lines + [line], artifact)
  {
  }

  /** The paths are those of the lines that report one, in order. */
  lemma {:induction false} PathsReported(lines: seq<string>, artifact: string -> Option<string>)
    ensures ReportedBy(Artifacts(lines, artifact), Filter(lines, HasPath(artifact)), artifact)
  {
    if lines != [] {
      var (before, last) := (lines[..|lines| - 1], lines[|lines| - 1]);
      PathsReported(before, artifact);
      TakeNext(lines, |lines| - 1);
      TakeAll(lines);
      FilterSnoc(before, last, HasPath(artifact));
      AppendEmpty(Artifacts(before, artifact));
      if artifact(last).Some? {
        ReportedNext(Artifacts(before, artifact), Filter(before, HasPath(artifact)), last, artifact);
      }
    }
  }

  lemma {:induction false} QuestionsAsked(lines: seq<string>, hooks: Hooks)
    ensures Questions(lines, hooks) == |Filter(lines, hooks.Asks)|
  {
    if lines != [] {
      var (before, last) := (lines[..|lines| - 1], lines[|lines| - 1]);
      QuestionsAsked(before, hooks);
      TakeNext(lines, |lines| - 1);
      TakeAll(lines);
      FilterSnoc(before, last, hooks.Asks);
    }
  }

  /** A decision is asked for at each dep-info line when there is a decider; the sink takes the metadata lines. */
  lemma NotificationsAre(lines: seq<string>, hooks: Hooks)
    ensures Questions(lines, hooks) == |Filter(lines, hooks.Asks)|
    ensures forall line :: line in Filter(lines, hooks.Asks) <==>
      line in lines && hooks.hasDecider && hooks.emit(line) == DepInfo
    ensures forall line :: line in Filter(lines, hooks.ToSink) <==>
      line in lines && hooks.hasSink && hooks.emit(line) == Metadata
  {
    QuestionsAsked(lines, hooks);
  }

  /** Sink and replay together hold every handled line once. */
  lemma {:induction false} DeliveredOrReplayed(lines: seq<string>, hooks: Hooks)
    ensures multiset(lines) == multiset(Filter(lines, hooks.Retained))
                             + multiset(Filter(lines, hooks.ToSink))
  {
    if lines != [] {
      DeliveredOrReplayed(lines[1..], hooks);
      DropNext(lines, 0);
      TakeAll(lines);
      FilterStep(lines, hooks.Retained);
      FilterStep(lines, hooks.ToSink);
    }
  }
}
