# A verified model of kache's argument, stream and accounting logic

kache wraps `rustc` and `cargo`. This project models the parts of it whose correctness is hardest to see from the
code, and proves what they keep over all inputs, all chunkings and all interleavings. It is Dafny 4.11;
the command `dafny verify dfyconfig.toml` verifies the whole project.

| part | modules | what is proved |
|---|---|---|
| rustc's argument vector | `ArgvItems`, `ArgvParse`, `ArgvFlags`, `ArgvFields`, `ArgvValues`, `ArgvRewrite`, `UnixPath`, `ArgvIsolate`, `ArgvRelocate`, `ArgvDiagnostics`, `LintFlags`, `LintMeaning`, `ArgvSpelling` | The parser groups argv into items, and every field is told by the texts of its own options. Stripping, isolating, dropping and respelling options change exactly what they should of the parsed record. |
| response files | `ResponseFile`, `CommandLine` | Writing and expanding is a round trip, expansion is atomic, and the Windows bound covers the real line. |
| Cargo's stdout | `CargoFraming`, `CargoDrain`, `DrainRuns` | Framing does not depend on chunking. Over every interleaving a certified capture is the complete stream, every stream that can be certified is by some run of every chunking, and a run in which nothing goes wrong can end in no other way. |
| rustc's pipes | `RustcCapture` | Over every interleaving the child is reaped once, last and safely. The one deadlock is named exactly. |
| the mutation diff | `MutationDiff`, `DiffMeaning`, `DiffTheorems`, `DiffText` | Turning moved lines into context keeps the diff well formed, the new side, and every real change; which hunks and files are written, and with which numbers, is told by the lines alone. |
| prefetch accounting | `Prefetch`, `PrefetchTheorems`, `PrefetchTimeline` | Bytes are conserved, nothing is credited twice, and credit does not depend on receipt order. |
| shared storage | `Storage` | The charge formula, its exact condition, order independence and subadditivity. |
| publishing and listing | `Lex`, `DependencyGraph`, `TopoSort`, `Listing` | The topological sort succeeds exactly when the crates' dependencies are crates and go in no circle; paging delivers every key once, sorted. |

`Text` and `Seqs` hold the string and sequence facts the others share.

Code that loops and updates state is a method or a class proved against a specification function, and the theorems
are about that function. The two concurrent parts are state machines: `Next` is one step of any thread, and the
theorems hold in every state of every run.

## What the proofs found

- `ArgvRewrite`: the stripper drops a token that only looks like `-C incremental=` because it is another option's
  operand. `Aligned` is the exact condition under which stripping deletes just the parser's incremental items.
  `StripCanLoseTheCrateName` is an input where the record changes, and `StripCanBeHarmless` shows that a misaligned
  argv need not change it.
- `ArgvRelocate`: the isolator has the same fault. It promises that only the path changes, and keeps that promise for
  the other items exactly on aligned argvs (`IsolationIsItemwise`). `IsolationCanChangeTheCrateName` is an input
  where it does not.
- `RustcCapture`: if the stdout thread panics while the child is blocked on a full stdout pipe, nobody drains the
  pipe or kills the child. `MoveOrStall` proves that every other unfinished state can move.
- `DiffTheorems`: a line that starts with `@@` without being a hunk header ends a hunk's body for the
  well-formedness test but not for the rewriting. `RewrittenIsWellFormed` and `NewCountsAreKept` give the exact
  conditions, and `Output` shows that the program falls back to the plain diff.
- `Listing`: a client that starts from the empty token never receives an object whose name is empty, because a page
  holds only names after the token. `EveryNameReceived` says exactly when nothing is missing.
- `Storage`: without coverage of the shared extents the charge can depend on file order (`OrderCanMatter`).
  `OrderMatters` says exactly when it does. Subadditivity needs no coverage.
- `CargoDrain`: a missing invalid marker does not by itself certify the stream, because a failed status check leaves
  without one (`PollErrorIsUnmarked`). `CertifiedIsComplete` states what does.
- `Prefetch`: the set of credited keys is independent of receipt order. Which payload is credited is the earliest,
  and among equal finish times the first offered.

## Model

| member | source | states |
|---|---|---|
| `ArgvItems.ItemsRoundTrip` | src/args.rs:468-725 | Flattening items and grouping the tokens again gives the items back exactly when they are well formed: only operand-taking flags carry operands and only the last may lack one. |
| `ArgvItems.Scan` | src/args.rs:468-725 | The index loop that consumes an operand where a flag takes one computes the left fold over the items, including the last flag without its operand. |
| `ArgvItems.SweepIsItemwise` | src/compile.rs:544-564 | A token sweep that ignores operands deletes exactly the rejected items if and only if no operand the parser consumes starts something the sweep drops. |
| `ArgvItems.WithoutPicked` | src/args.rs:737-743 | Deleting the recorded positions of some items is deleting those items, however their operands are spelled. |
| `ArgvItems.FoldFilter` | src/args.rs:468-725 | If each item keeps two records related when read by both or, if dropped, by the first alone, then parsing all items and parsing the kept ones stay related. |
| `ArgvParse.LongWithIsPrefix` | src/args.rs:468-725 | The token shape used for `--name=value` patterns is exactly the prefix test of the source's match. |
| `ArgvParse.Parse` | src/args.rs:468-725 | The parse loop is the fold of the first matching arm over the items of argv. |
| `ArgvFlags.ArmIsSpelling` | src/args.rs:468-725 | A flag goes to the arm of an option exactly when it is that option, or the option with its value attached, and the value is the text attached. |
| `ArgvFlags.Kinds` | src/args.rs:468-725 | A flag is a query, lint, diagnostic, quiet or codegen option exactly when its text is one of those listed. |
| `ArgvFlags.OtherIsUnrecognised` | src/args.rs:694-725 | A flag reaches the last arm exactly when no option is spelled like it. |
| `ArgvFlags.OperandFlags` | src/args.rs:468-725 | A token takes the next one as its operand exactly when it is one of the listed flags, written in full. |
| `ArgvFields.SingleFields` | src/args.rs:468-725 | For every argv, each single-valued field is the value of the last item of its own spelling, or none. |
| `ArgvFields.ListFields` | src/args.rs:468-725 | For every argv, each list field holds the values of the items of its own spelling, in order. |
| `ArgvFields.ComposedFields` | src/args.rs:468-725 | For every argv, jobs, externs, features and emit kinds are those of the values of their own items, in order. |
| `ArgvFields.TestAndQuery` | src/args.rs:468-725 | A test or a query is recorded exactly when an item with such a flag is there. |
| `ArgvFields.SourceAndResidue` | src/args.rs:694-725 | Of the unrecognised flags the first bare one that ends in `.rs` or is on disk is the source file, and all others are kept in order. |
| `ArgvValues.CodegenFields` | src/args.rs:1244-1261 | For every argv, the codegen options are those of the codegen items and shorthands in order, and the file-name suffix and incremental path are the last given. |
| `ArgvValues.CodegenOptionText` | src/args.rs:1244-1250 | A codegen option is its text cut at the first `=`. |
| `ArgvValues.FeatureText` | src/args.rs:1238-1242 | A cfg value is a feature exactly when it is the quoted text after `feature=`. |
| `ArgvValues.ExternText` | src/args.rs:1217-1236 | An extern value is an optional marker, a name, and a path after the first `=`. |
| `ArgvValues.EmitText` | src/args.rs:318-333 | Of the comma-separated parts of any emit value each gives its kind in order, the last non-empty dep-info destination wins, and any destination is noticed. |
| `ArgvRewrite.StripIncrementalFlags` | src/compile.rs:544-564 | The loop drops one joined token or two separate ones wherever it recognises an incremental option. |
| `ArgvRewrite.StripPreservesMeaning` | src/compile.rs:544-564 | For every aligned argv, parsing the stripped argv gives the original record with `incremental` cleared, exactly the incremental codegen entries removed and every other field unchanged. |
| `ArgvRewrite.ApartIsAligned` | src/compile.rs:544-564 | An argv is aligned when no separate operand begins with `-C` or `--codegen`. |
| `ArgvRewrite.StripIsItemwise` | src/compile.rs:544-564 | The items of the stripped argv are the items of argv without the incremental ones if and only if argv is aligned. |
| `ArgvRewrite.StripLosesOperand` | src/compile.rs:544-564 | For every operand-taking flag before a token that looks incremental, the stripper takes the operand away. |
| `ArgvRewrite.StripCanLoseTheCrateName` | src/compile.rs:544-564 | A crate name spelled like an incremental option is in the parsed record and gone after stripping. |
| `ArgvRewrite.StripCanBeHarmless` | src/compile.rs:544-564 | The same loss after `--print` leaves the record unchanged, so misalignment does not decide the record. |
| `UnixPath.FileNameIs` | src/compile.rs:579-584 | The last component of a path is its file name, whatever separators and `/.` follow, unless it is `..`. |
| `UnixPath.WithFileNameParts` | src/compile.rs:579-584 | Replacing the final component keeps the parent and sets the name. |
| `ArgvIsolate.IsolatedPathIsSibling` | src/compile.rs:579-584 | An isolated path has the same parent and its name with `.kache-preserved` after it. |
| `ArgvIsolate.IsolationIsInjective` | src/compile.rs:579-584 | Two paths with the same isolated path have the same parent and name. |
| `ArgvIsolate.IsolateIncrementalFlags` | src/compile.rs:576-610 | The loop over the peekable iterator rewrites each recognised path and fails at the first without a final component. |
| `ArgvIsolate.StripOfIsolated` | src/compile.rs:544-610 | Isolation keeps the argv length, and stripping the isolated argv equals stripping the original, for every argv. |
| `ArgvIsolate.IsolationFails` | src/compile.rs:576-610 | Isolation fails exactly when some recognised incremental path has no final component. |
| `ArgvRelocate.IsolationIsItemwise` | src/compile.rs:566-610 | Whenever isolation succeeds, every item but the incremental options is unchanged at its place if and only if argv is aligned; then the items are the original ones with their incremental paths moved. |
| `ArgvRelocate.IsolationPreservesMeaning` | src/compile.rs:566-610 | For every aligned argv the isolated argv parses to exactly the original record, positions included, with the incremental path and each recorded incremental option moved to the sibling path. |
| `ArgvRelocate.IsolationCanChangeTheCrateName` | src/compile.rs:570-572 | Out of alignment: for every path with a final component, a crate name spelled as the incremental option with that path is rewritten to another name. |
| `ArgvDiagnostics.DroppedPositionsAreItems` | src/args.rs:737-743 | Dropping the positions the parser recorded leaves exactly the items that are not diagnostic options. |
| `ArgvDiagnostics.DiagnosticsDropPreservesMeaning` | src/args.rs:677-743 | For every argv, parsing what is left after dropping the recorded positions gives the same record with only the diagnostic fields empty. |
| `LintFlags.LintsSilenced` | src/args.rs:763-786 | The re-scan loop of the recorded lint tokens computes its item-wise specification. |
| `LintFlags.RecordedLintItems` | src/args.rs:664-676 | The recorded lint tokens regroup, under the re-scan's own rule for operands, into the parser's lint items. |
| `LintFlags.LintsSilencedMeaning` | src/args.rs:763-786 | For every argv, lints are silenced exactly when no item forces a warning and there is exactly one cap-lints item, with the value `allow`. |
| `LintFlags.WidthLeavesTheKey` | src/args.rs:745-761 | For every argv, the terminal width leaves the key flags exactly when lints are silenced and there is one width option, with a valid positive 16-bit value. |
| `LintMeaning.LintTokensRecorded` | src/args.rs:664-676 | For every argv, the recorded lint tokens are those of the items with a lint option's text, in order. |
| `LintMeaning.DiagnosticsRecorded` | src/args.rs:677-693 | For every argv, the recorded diagnostic flags are the items with a diagnostic option's text, each joined. |
| `LintMeaning.SilencedReadings` | src/args.rs:763-786 | For every argv, lints are silenced exactly when `--force-warn` is never given and `--cap-lints` once, as `allow`. |
| `LintMeaning.WidthReadings` | src/args.rs:745-761 | For every argv, in the texts of the options alone: when the width leaves the key, and what is left of the flags then. |
| `LintMeaning.ParsesNumbers` | src/args.rs:745-761 | A width is read back from its decimal digits, with or without a plus sign, exactly up to 65535. |
| `LintMeaning.ParsesDigits` | src/args.rs:745-761 | Leading zeros change nothing, and nothing but digits after an optional plus sign is read. |
| `ArgvSpelling.LongSpelling` | src/args.rs:468-725 | A long option with a separate value and its `=` spelling have the same effect on every record. |
| `ArgvSpelling.ShortSpelling` | src/args.rs:468-725 | `-C`, `-L`, `-l` and `-Z` with a separate and with an attached non-empty value have the same effect. |
| `ArgvSpelling.CodegenSpelling` | src/args.rs:468-725 | `-C` and `--codegen` have the same effect. |
| `ArgvSpelling.DiagnosticSpelling` | src/args.rs:677-693 | A diagnostic option is recorded joined whichever way it is written. |
| `ArgvSpelling.ShorthandSpelling` | src/args.rs:468-725 | `-O` and `-g` have the effect of their codegen equivalents. |
| `ArgvSpelling.SwapSpelling` | src/args.rs:468-725 | At any item boundary of any argv, swapping one spelling for another changes no parsed field but the recorded positions. |
| `ResponseFile.WriteResponseFile` | src/compile.rs:126-149 | The writer succeeds exactly when no argument holds a line break, and writes each argument as one line. |
| `ResponseFile.LinesAre` | src/args.rs:125-147 | A line feed ends a line and takes one carriage return before it along; a last line without one is kept whole. |
| `ResponseFile.RustcArgfileExpander.Push` | src/args.rs:149-167 | Appends the argument and tracks `-Z` and shell-argfiles. |
| `ResponseFile.RustcArgfileExpander.ExpandArg` | src/args.rs:125-147 | Pushes a plain argument or every line of its file, or fails without a result. |
| `ResponseFile.ExpandRustcArgfiles` | src/args.rs:176-201 | The loop gives nothing when no argument starts with `@`, the expansion, or failure. |
| `ResponseFile.ExpansionIsAtomic` | src/args.rs:404-421 | The effective argv is the whole expansion exactly when no token stops it and no result holds a line break; otherwise it is the original argv. |
| `ResponseFile.ResponseFileRoundTrip` | src/compile.rs:126-149 | Writing any arguments free of line breaks and expanding the one `@file` token returns that exact list, empty, padded and `@`-leading arguments included. |
| `ResponseFile.ShellTokenIsRefused` | src/args.rs:125-133 | An `@shell:` token after shell-argfiles was enabled, also across a file boundary, leaves the original argv. |
| `CommandLine.BoundCoversLine` | src/compile.rs:48-66 | For every program and arguments the bound is at least the length of the quoted Windows command line, with its NUL. |
| `CommandLine.DirectCommandFits` | src/compile.rs:68-80 | A command not sent through a response file fits any limit in force. |
| `CommandLine.WindowsCommandFits` | src/compile.rs:82-88 | On Windows it fits the 32767 units `CreateProcessW` takes. |
| `CommandLine.ResponseFileWhen` | src/compile.rs:68-88 | A response file is used exactly when Cargo used one, or on Windows when the bound is over 32767. |
| `CommandLine.BoundIsReached` | src/compile.rs:56-66 | The bound is one unit over the line for every plain program and argument of a blank, plain text and then quotes and backslashes. |
| `CargoFraming.FrameCuts` | src/cargo_proxy.rs:461 | The lines of a stream are the stream cut after every line feed: they concatenate to it and hold no other line feed. |
| `CargoFraming.CargoOutput.constructor` | src/cargo_proxy.rs:444-450 | A new framer has an empty buffer and an empty stream. |
| `CargoFraming.CargoOutput.Emit` | src/cargo_proxy.rs:503-517 | Observes the buffered line once, forwards it unless human and protocol, and empties the buffer. |
| `CargoFraming.CargoOutput.PushPart` | src/cargo_proxy.rs:461-484 | One part extends what was observed and forwarded as the whole stream demands, and the buffer never exceeds the cap. |
| `CargoFraming.CargoOutput.Push` | src/cargo_proxy.rs:454-489 | One chunk does the same whatever writes fail, and the first failure is reported at the end. |
| `CargoFraming.CargoOutput.Finish` | src/cargo_proxy.rs:491-501 | The end of the stream completes what was observed and forwarded. |
| `CargoFraming.FrameChunks` | src/cargo_proxy.rs:437-518 | For every stream and every split into chunks, the observations are those of the whole stream whatever writes fail, and without failures so are the forwarded bytes. |
| `CargoDrain.NextInv` | src/cargo_proxy.rs:345-435 | Every step of reader, drain loop, clock and child keeps the invariant on channel order, bytes and observations. |
| `CargoDrain.CertifiedIsComplete` | src/cargo_proxy.rs:345-435 | In every state of every interleaving, the stream is certified (the loop returned a status and observed no marker) exactly when the loop ended on `Finished`, no write failed and every line can be certified; then it observed exactly the lines of the complete stdout. |
| `CargoDrain.PollErrorIsUnmarked` | src/cargo_proxy.rs:386-391 | A run that leaves by a failed status check with nothing consumed and no marker, so the missing marker alone certifies nothing. |
| `CargoDrain.UnmarkedIsPrefix` | src/cargo_proxy.rs:375-435 | While the loop runs unmarked, it has observed exactly the lines of the prefix it consumed. |
| `CargoDrain.ExpiredIterationIsLast` | src/cargo_proxy.rs:371-427 | In every run, once the drain timeout has passed after the child's exit, the steps of the loop that follow are at most the stages left of the current iteration, three in all. |
| `DrainRuns.ObservationsAre` | src/cargo_proxy.rs:461-517 | Each line of at most 4194304 bytes is observed as it is and a longer one as the marker, in order. |
| `DrainRuns.ForwardsAre` | src/cargo_proxy.rs:503-517 | Every line is forwarded, except to a human the protocol lines within that length; otherwise all bytes. |
| `DrainRuns.EveryCutCompletes` | src/cargo_proxy.rs:345-435 | For every stdout and every cut into non-empty chunks some run sends exactly those chunks, ends on `Finished` and has observed every line; it is certified exactly when every line can be. |
| `DrainRuns.SmoothRunsFinish` | src/cargo_proxy.rs:345-435 | In every run without a read error, a lost reader, an expiry or a failed status check, the loop can end only on `Finished`, and is then certified exactly when no write failed and every line can be. |
| `DrainRuns.RunsAreBounded` | src/cargo_proxy.rs:371-427 | In every run the channel holds at most eight messages, and the drain is given up only two seconds after Cargo's exit. |
| `RustcCapture.NextInv` | src/compile.rs:431-465 | Every step of child, stdout thread and main thread keeps the invariant on lock, pipes and reaping. |
| `RustcCapture.ReapedSafely` | src/compile.rs:431-465 | In every interleaving the child is reaped at most once, only dead and after both readers ended, and nobody waits under the lock while the other could still need it. |
| `RustcCapture.AnythingCanHappen` | src/compile.rs:431-465 | The machine leaves out no trouble: a read can fail, the stdout thread panic and the child close or fill a pipe wherever there is one to do it. |
| `RustcCapture.BrokenReadersKill` | src/compile.rs:431-465 | In every interleaving a reader that failed or asked to stop is over only once the child is dead. |
| `RustcCapture.MoveOrStall` | src/compile.rs:431-465 | Every unfinished reachable state has a move towards the end, except exactly the stalled ones, which have none. |
| `RustcCapture.PanicCanStall` | src/compile.rs:438-447 | A run that ends in a stalled state. |
| `RustcCapture.EveryScheduleEnds` | src/compile.rs:431-465 | Without a panic every sequence of moves from a reachable state is shorter than its rank, and one that can go no further has ended with the child reaped once, whatever the scheduler chose. |
| `RustcCapture.MovesAreBounded` | src/compile.rs:431-465 | In every run, panics and failed reads included, the moves taken and the rank left are at most ten and one for each time the child blocked on a full pipe. |
| `RustcCapture.EndIsReachable` | src/compile.rs:431-465 | Without a panic every reachable state leads by moves alone to the end with the child reaped once. |
| `RustcCapture.CaptureRustcStderr` | src/compile.rs:483-530 | The loop keeps everything read verbatim, sends each metadata line to the sink or retains it, and stops exactly at the first refused dep-info line; a failed read is an error exactly when nothing stopped the loop before it. |
| `RustcCapture.PathsReported` | src/compile.rs:498-504 | The artifact paths are those of the lines that report one, in order. |
| `RustcCapture.NotificationsAre` | src/compile.rs:505-523 | A decision is asked for exactly at the dep-info lines when there is a decider, and the sink takes exactly the metadata lines. |
| `RustcCapture.DeliveredOrReplayed` | src/compile.rs:518-526 | Sink and replay together hold every handled line exactly once. |
| `MutationDiff.MovedAddedLines` | scripts/mutation-diff.py:74-85 | Gives exactly the added lines git colored as moved, or nothing when the two diffs do not line up. |
| `MutationDiff.FlushHunk` | scripts/mutation-diff.py:98-114 | Closing a hunk leaves the output that is still due unchanged: a hunk that changes nothing is dropped, another is written with its header, counts and shift. |
| `MutationDiff.Rewrite` | scripts/mutation-diff.py:88-135 | The line loop computes the walk over file and hunk blocks. |
| `DiffMeaning.WellFormed` | scripts/mutation-diff.py:138-165 | The two nested loops decide the block-wise definition of a well-formed diff. |
| `DiffMeaning.BlocksOfEmit` | scripts/mutation-diff.py:98-114 | Reading the written lines back gives exactly the kept blocks. |
| `DiffMeaning.RewritingIsIdempotent` | scripts/mutation-diff.py:88-135 | Rewriting the result with nothing moved changes nothing, for every diff and moved set. |
| `DiffTheorems.RewrittenIsWellFormed` | scripts/mutation-diff.py:88-165 | A well-formed diff whose moved lines are added ones is rewritten to a well-formed one exactly when no kept hunk has a counted line after a stray `@@` line. |
| `DiffTheorems.NewSideIsKept` | scripts/mutation-diff.py:98-114 | For every diff whose moved lines are added ones, the kept hunks, in order and each under the header of its own file, have the same new start, new-side text and tail. |
| `DiffTheorems.NewCountsAreKept` | scripts/mutation-diff.py:98-114 | Their new counts are the same if and only if each header counts every new-side line of its body; for a well-formed diff, if and only if no kept hunk has a new-side line after a stray `@@` line. |
| `DiffTheorems.ChangedLinesSurvive` | scripts/mutation-diff.py:88-135 | Every removed line survives in order, and the added lines are exactly the plain ones not moved. |
| `DiffTheorems.Output` | scripts/mutation-diff.py:168-185 | The program writes the rewritten diff if that is well formed and the plain one otherwise; so a well-formed diff whenever the plain one is, and the rewritten one whenever its kept hunks are tidy. |
| `DiffTheorems.StrayLineBreaksCounts` | scripts/mutation-diff.py:153-161 | Every changed hunk whose counts are those of the lines before a stray `@@` line, with a counted line after it, is well formed and its rewriting is not. |
| `DiffTheorems.StrayLineChangesCount` | scripts/mutation-diff.py:105-112 | With a new-side line after the stray one, the rewriting changes the new count. |
| `DiffTheorems.StrayExample` | scripts/mutation-diff.py:173 | One such diff, which arrives when a context line holds form feeds, because the lines are also cut there. |
| `DiffText.BlocksAreTheDiff` | scripts/mutation-diff.py:88-135 | The lines before the first block and the blocks are the whole diff, in order. |
| `DiffText.HunksAreRewritten` | scripts/mutation-diff.py:98-132 | The hunks written are exactly those with an empty, removed or added line that is not moved; each keeps its new start and tail, is shifted by the moved lines written before it in its file, and has the counts of its lines by first character. |
| `DiffText.FilesAreKept` | scripts/mutation-diff.py:88-135 | The files written, with all their header lines, are exactly those with a hunk that is written. |
| `DiffText.PreambleIsKept` | scripts/mutation-diff.py:88-135 | The lines before the first file are written exactly when a hunk before it is. |
| `DiffText.WellFormedMeans` | scripts/mutation-diff.py:138-165 | A diff is well formed exactly when every hunk has the counts of its lines up to a stray one, by first character, and ends before the next in its file starts, on both sides. |
| `Prefetch.ReadReceipt` | scripts/prefetch-qualification.py:581-677 | One receipt is refused exactly when a requirement fails, and otherwise gives its GET bytes and candidates: itself if it has a key, the entries of its own plan in order if packed, and nothing for any other. |
| `Prefetch.GatherReceipts` | scripts/prefetch-qualification.py:581-677 | The loop accepts exactly the receipt lists whose receipts are all accepted, and gives the groups and candidates. |
| `Prefetch.OfferedFits` | scripts/prefetch-qualification.py:639-677 | A plan's accepted candidates never hold more bytes than its GETs received. |
| `Prefetch.SortKeeps` | scripts/prefetch-qualification.py:702-704 | The candidates by finish time are ordered and a permutation. |
| `Prefetch.SortIsStable` | scripts/prefetch-qualification.py:702-704 | Candidates that finished at the same time keep their order. |
| `Prefetch.CreditPayloads` | scripts/prefetch-qualification.py:700-739 | The crediting loop gives each candidate its bucket under the keys credited before it, and the counters that follow. |
| `PrefetchTheorems.BucketsWithinReceived` | scripts/prefetch-qualification.py:581-736 | For accepted receipts a plan's buckets together hold exactly its candidates' bytes, never more than its received GET bytes. |
| `PrefetchTheorems.UsefulWithinReceived` | scripts/prefetch-qualification.py:725-736 | Useful bytes equal the useful bucket, and lie between zero and the received bytes. |
| `PrefetchTheorems.PlanReceives` | scripts/prefetch-qualification.py:581-646 | A plan has received the bytes of its GETs, keyed receipts without accounting among them, and of nothing else. |
| `PrefetchTheorems.PrecisionIs` | scripts/prefetch-qualification.py:755-757 | A precision is reported exactly when the accounting is complete and something was received, and times that is the useful bytes. |
| `PrefetchTheorems.PlanPrecision` | scripts/prefetch-qualification.py:754-757 | Every reported plan precision is between zero and one. |
| `PrefetchTheorems.OverallPrecision` | scripts/prefetch-qualification.py:813 | The precision over all plans is between zero and one. |
| `PrefetchTheorems.NoDoubleCredit` | scripts/prefetch-qualification.py:723-727 | No session and key are credited twice, across all plans. |
| `PrefetchTheorems.BucketMeaning` | scripts/prefetch-qualification.py:705-735 | What puts a payload into each of the nine buckets, by its own fields, the demands and whether an earlier payload of its key qualifies. |
| `PrefetchTheorems.CreditedExactly` | scripts/prefetch-qualification.py:700-735 | A key is credited exactly when its session is known, it was demanded and consumed, and some completed payload finished after time zero and strictly before the first demand. |
| `PrefetchTheorems.CreditedFromReceipts` | scripts/prefetch-qualification.py:581-735 | A key is credited exactly when some receipt holds a qualifying payload: itself if keyed, or an entry of its own plan. |
| `PrefetchTheorems.CreditIsOrderFree` | scripts/prefetch-qualification.py:581-735 | The credited keys do not depend on the order of the receipts. |
| `PrefetchTheorems.CreditedIsEarliest` | scripts/prefetch-qualification.py:702-727 | A credited payload finished no later than any other completed payload of its key. |
| `PrefetchTheorems.CreditedIsFirstOffered` | scripts/prefetch-qualification.py:702-727 | Of the qualifying payloads of a key with the credited finish time, the credited one is the first offered. |
| `PrefetchTimeline.CollectDemands` | scripts/prefetch-qualification.py:869-916 | The loops refuse exactly the records that break a requirement, and otherwise give the earliest demand of each key and the consumed keys. |
| `PrefetchTimeline.CollectUnit` | scripts/prefetch-qualification.py:872-908 | One unit is refused exactly when a requirement fails, and otherwise lowers the first demands. |
| `PrefetchTimeline.EarliestIsUnique` | scripts/prefetch-qualification.py:902-906 | The first demands are determined by the set of observations, whatever their order. |
| `PrefetchTimeline.StartupSession` | scripts/prefetch-qualification.py:683-699 | A startup session is joined exactly in an isolated run with one demand session that shut down drained, and it is that session. |
| `PrefetchTimeline.CoverageMeaning` | scripts/prefetch-qualification.py:477-500 | Coverage is complete exactly when both logs hold each receipt equally often, and GET coverage when they do for all but LIST receipts; the raw log is accounted for when there is one. |
| `PrefetchTimeline.Account` | scripts/prefetch-qualification.py:581-739 | Reading and crediting together give exactly the rows, keys and counters the theorems speak of. |
| `Storage.ResolveAllocated` | scripts/bench-contention.py:872-904 | The loops compute the block sum exactly when a regular file is unmapped, and otherwise the ordered charge. |
| `Storage.ChargeShared` | scripts/bench-contention.py:892-900 | The inner loop subtracts the length of each shared extent seen before and records the others. |
| `Storage.SharedBit` | scripts/bench-contention.py:892-900 | An extent is shared exactly when the one flag bit is set, whatever the other bits. |
| `Storage.ItemKeys` | scripts/bench-contention.py:886-900 | A mapped regular file has as keys the device, place and length of its shared extents, in order; any other file has none. |
| `Storage.RepeatedIsRest` | scripts/bench-contention.py:892-900 | What one file has subtracted, plus each of its extents not seen before once, is its whole shared length. |
| `Storage.ChargeFormula` | scripts/bench-contention.py:872-904 | For mapped files the charge is the block sum less all shared occurrences plus each distinct shared extent once, exactly when no file repeats more than its own blocks. |
| `Storage.CoveredFormula` | scripts/bench-contention.py:872-904 | The formula holds whenever each file's blocks cover its shared extents. |
| `Storage.OrdersBalance` | scripts/bench-contention.py:872-904 | Between any two orders of the same files the charges differ by exactly as much as the floor at zero hides in each. |
| `Storage.OrderMatters` | scripts/bench-contention.py:872-904 | Two orders of the same mapped files are charged the same if and only if the floor hides as much in both. |
| `Storage.OrderDoesNotMatter` | scripts/bench-contention.py:872-904 | With that cover the result is the same for every order of the files. |
| `Storage.PairOrder` | scripts/bench-contention.py:892-903 | For two files with one and the same shared extent the order does not matter if and only if both have as many blocks or both can pay for the extent. |
| `Storage.OrderCanMatter` | scripts/bench-contention.py:901-903 | Two files that are charged 0 in one order and 10 in the other. |
| `Storage.JoinedScopesCostNoMore` | scripts/bench-contention.py:872-904 | The charge of two joined mapped scopes is at most the sum of the two. |
| `Storage.JoinedScopesSaving` | scripts/bench-contention.py:872-904 | With the cover, the saving is exactly the distinct extents the two scopes share. |
| `Storage.AllocatedWithinBlocks` | scripts/bench-contention.py:872-904 | The charge never exceeds the block sum, for any files. |
| `TopoSort.TopoSort` | scripts/crates-io.py:127-140 | The sort succeeds exactly when every dependency name is a crate's and no dependency names go in a circle. Each crate then comes after all its dependencies and is the smallest name ready at its turn; the result is the last crate of each name, a permutation when names are distinct. |
| `DependencyGraph.Place` | scripts/crates-io.py:131-140 | The same for the loop over the names still to place. |
| `DependencyGraph.FindCycle` | scripts/crates-io.py:133-134 | When no name is ready, the names left hold a cycle. |
| `DependencyGraph.SmallestFirstIsFirst` | scripts/crates-io.py:132-135 | Of all orders that respect the dependencies the computed one is lexicographically first. |
| `Lex.LessMeans` | scripts/crates-io.py:132 | One name sorts before another exactly when it is cut from it, or has the smaller character where they first differ. |
| `Listing.Entries` | scripts/prefetch_remote.py:117-127 | Whatever order the objects come in, the entries are the listed names, each a group or an object as its name alone shows. |
| `Listing.FindIsFirst` | scripts/prefetch_remote.py:121-124 | A delimiter in the rest of a key is found, and the group ends at its first occurrence. |
| `Listing.GroupListedAs` | scripts/prefetch_remote.py:119-127 | A key is listed as the prefix, the text up to its first delimiter after it, and that delimiter. |
| `Listing.ObjectListedAs` | scripts/prefetch_remote.py:119-127 | A key without a delimiter after the prefix, or with none asked for, is listed as itself. |
| `Listing.ListedOnce` | scripts/prefetch_remote.py:119-127 | A group's own name falls in the same group, so no group and object share an entry. |
| `Listing.List` | scripts/prefetch_remote.py:105-146 | A malformed limit is refused and any other is brought into 1 to 1000, with 1000 for none; the page is the first names after the token, ascending, and the next token is its last name exactly when more remain. |
| `Listing.ListAll` | scripts/prefetch_remote.py:105-146 | A client that follows the tokens, with any limit on each request, terminates and receives every listed name after the empty one exactly once, ascending. |
| `Listing.ListingIsUnique` | scripts/prefetch_remote.py:105-146 | Such a listing is unique: what a client receives does not depend on the limits. |
| `Listing.EveryNameReceived` | scripts/prefetch_remote.py:128 | That is every matching name exactly when the prefix is not empty or no object has the empty name. |

## Left out

- ArgvRewrite.StripPreservesMeaning: states one direction. `StripIsItemwise` is the exact condition on the items, and `StripCanBeHarmless` shows that the record alone does not decide it.
- ArgvParse.Parse: models the loop. The final sort of features, the primary flag and the path root are computed from the loop's record and are not modelled. The match arms no token can reach have no counterpart.
- ArgvIsolate.IsolatedPathIsSibling: models Unix paths. Windows prefixes and separators and paths that are not Unicode are not modelled.
- CommandLine.BoundCoversLine: takes words as UTF-16 code units. The lossy decoding of other words is not modelled.
- ResponseFile.ExpandRustcArgfiles: takes file contents and failed reads as a parameter. Path resolution and UTF-8 decoding are not modelled.
- CargoFraming.CargoOutput.Push: takes the answer to whether a line is protocol, and which writes fail, as parameters. Replay of rendered diagnostics is not modelled.
- CargoDrain.CertifiedIsComplete: a failure of the last wait for Cargo, after the loop, also returns before anything is certified and is not modelled.
- RustcCapture.CaptureRustcStderr: takes the parsed notification of each line as a parameter. JSON parsing is not modelled.
- RustcCapture.MovesAreBounded: bounds the moves by how often the child blocks. That a child blocks only finitely often is not modelled, and no scheduler is.
- MutationDiff.Rewrite: works on lines already classified as file line, hunk header or other. The pattern's text and the printing of its numbers are not modelled.
- Prefetch.GatherReceipts: models the byte counters. Invocation, outcome and LIST counters, problem texts and unknown JSON fields would only add easy members; completeness is a parameter of the precision.
- PrefetchTimeline.CollectDemands: models the requirements on units and demands. Lifecycle evidence, duplicate records and transfer fields are not modelled.
- PrefetchTimeline.Reconcile: compares receipts after projection. The projection of JSON fields is not modelled.
- TopoSort.TopoSort: takes crates with their dependency names. Reading manifests is not modelled.
- Listing.List: models the listing branch with a decoded query. HTTP, XML escaping, delays and object downloads are not modelled.
- The cache key, the store, the daemon, garbage collection and the linker wrapper are outside this project.
