# Offline companion core: a verified model

A Dafny model of six parts of the offline companion's core, with proofs of what they promise.
`dafny verify dfyconfig.toml` checks all of it. Paths are relative to the repository's root.

**Streaming cards** (`streaming_card_parser.py`). The language model's answer arrives as a growing
buffer, and two independent passes over it decide what is shown. A recursive-descent parser repairs
the unfinished prefix; a one-pass scanner says which cards are really closed. `PartialJsonParser`
and `CardScanner` are the two programs, over a cursor and a stack of frames. `PartialReader` says
what the parser reads as a tree with open ends, `ScanRefinement` follows the scanner along that
tree, `Truncation` relates the readings of a buffer and of a longer one. `JsonGrammar`,
`GrammarSoundness` and `JsonMeaning` relate them to RFC 8259, whose tables they list for
themselves; `CardPrinter` writes values, and `CardCuts` says what a text cut short is to show.
`CardStream` and `CardNames` state the promises; `CardTheorems` and `CardRepeats` say exactly which
keys break them.

**Algorithm tools** (`algorithm_tools.py`). `Booth` runs the register loop on Python's unbounded
integers (`PythonInt`) for any width. `Crc32` relates the reflected bit loop to division of
polynomials over GF(2) (`Gf2Polynomial`) for any number of bytes. `Euclid` and `Quicksort` prove
their traces along with their results.

**Chinese numerals** (`calculator.py`). `ChineseNumeral` sets the reader against the way numbers
are written, and says what it makes of any signs.

**Plan engine** (`plan_dag_engine.py`, `plan_orchestrator.py`, `fallback_controller.py`,
`plan_snapshot.py`). `PlanDag` validates a plan, `PlanWalk` and `PlanLevels` walk it. `PlanState`
gives every operation as a function on the value of a context, `PlanContext` is the mutable context
with the methods that compute those functions. The executor is an arbitrary sequence of outcomes. On
top: `PlanSafety`, `PlanRuns` and `PlanConsent` (safety over all runs), `PlanFrontier` (failure and
unblocking), `PlanProgress` (a plan ends), `PlanOutcomes` (what a pass and a plan come to),
`PlanCalls` (one call taken apart), `PlanSteer` (executors that lead to a chosen state), and with
them `PlanUnblock`, `PlanRetries` and `PlanPauses`: exactly which plans a pass serves, which always
end, and which can pause. `PlanStuck` and `PlanFaults` show how a plan stays stuck.

**Sample library** (`decomposition_sample_library.py`). `SampleRecord` is one record and its
transitions, `SampleLibrary` the stored records under every operation, `SampleMaintenance` the
governance run, `SampleStore` the objects with their methods.

Every lemma carries `{:induction false}`: the proofs are written out. `hide` keeps definitions out
of the steps that do not need them.

## Where the code does less than it says

- `complete` is documented as lexical and structural completeness of a JSON object
  (`streaming_card_parser.py:17`). A short `\u` escape before the end (187-190) and a literal or
  number cut short in the middle (211-212, 222-223) are complete all the same.
  `CardStream.CompleteIsGrammaticalIff` gives the exact condition, `CardFaults` the buffers.
- A top-level key that is itself a card path forges that path, and behind an empty key an inner
  `steps` does (`CardFaults`). `CardStream.ClosedExactlyIff` says exactly when the closed list is
  the list of cards.
- A key that occurs again takes back what was shown under it, unless it stands over null and never
  shows anything but null (`CardRepeats.NeverTakesBackIff`).
- `execute_with_retry` stops at `attempts >= retry_max`, so `retry_max = 1` allows no retry, and a
  negative value never calls the executor (`PlanRuns.AttemptsAre`).
- Unblocking follows only steps that are newly done. Two things strand a plan, so that steps stay
  blocked for ever with nothing left to retry and no verdict: a step fails, is retried and is then
  skipped; or a pass meets a step before a dependency that it reopens afterwards, and everything
  between the two ends of the pass is skipped or degraded. `PlanRetries.AlwaysEndsIff` turns this
  into a condition on the steps: exactly the other plans always end, whatever is retried.
- One unblocking pass leaves a step blocked behind nothing exactly when its walk meets a step before
  one of that step's dependencies (`PlanUnblock.OnePassSufficesIff`).
- `start` and `resume` look one dependency deep behind a failure. A step two deep keeps the plan
  paused with nothing to wait for (`PlanPauses.CanPauseIff`, `PlanPauses.ChainPauses`).
- Refusing consent, or cancelling a plan that waits for it, leaves the request open: an allowing
  decision afterwards sets the cancelled plan running (`PlanConsent.RefusalCanBeRevoked`).
- 一万亿 is read as ten thousand (`ChineseNumeral.BoundIsTight`).

## Model

| member | source | states |
|---|---|---|
| `PartialJsonParser.Parser.Parse` | src/offline_companion/core/streaming_card_parser.py:62-70 | blanks, one object, blanks: succeeds exactly on the buffers `ReadCard` accepts, with the value it reads, and ends at the end of the buffer |
| `PartialJsonParser.Parser.ParseObject` | src/offline_companion/core/streaming_card_parser.py:72-80 | an object from its brace on, empty or not, as `ReadObject` reads it |
| `PartialJsonParser.Parser.ParseMembers` | src/offline_companion/core/streaming_card_parser.py:82-114 | the member loop with its six early returns, as `ReadMembers` reads it; a repeated key overwrites in place |
| `PartialJsonParser.Parser.ParseArray` | src/offline_companion/core/streaming_card_parser.py:116-124 | an array from its bracket on, as `ReadArray` reads it |
| `PartialJsonParser.Parser.ParseItems` | src/offline_companion/core/streaming_card_parser.py:126-143 | the item loop, as `ReadItems` reads it |
| `PartialJsonParser.Parser.ParseTurn` | src/offline_companion/core/streaming_card_parser.py:97-111 | one turn of either loop: a value and the closer or comma behind it, or the end of the buffer |
| `PartialJsonParser.Parser.ParseKey` | src/offline_companion/core/streaming_card_parser.py:83-97 | the key and its colon, or the end of the buffer before either |
| `PartialJsonParser.Parser.ParseValue` | src/offline_companion/core/streaming_card_parser.py:145-158 | dispatch on the first character |
| `PartialJsonParser.Parser.ParseString` | src/offline_companion/core/streaming_card_parser.py:160-201 | the text of a string and whether its quote was there, with the eight short escapes, `\u` and the short `\u` that runs to the end |
| `PartialJsonParser.Parser.ParseLiteral` | src/offline_companion/core/streaming_card_parser.py:203-213 | a literal, or null for any beginning of one |
| `PartialJsonParser.Parser.ParseNumber` | src/offline_companion/core/streaming_card_parser.py:215-224 | a number token, null for a token cut short, failure for any other |
| `PartialJsonParser.Parser.SkipBlanks` | src/offline_companion/core/streaming_card_parser.py:226-228 | the cursor moves to the first character that is not blank |
| `NumberToken.NumberIsGrammatical` | src/offline_companion/core/streaming_card_parser.py:220 | the first pattern accepts exactly `[ minus ] int [ frac ] [ exp ]` of section 6 of RFC 8259 |
| `NumberToken.ToleratedIsGrammatical` | src/offline_companion/core/streaming_card_parser.py:220-223 | the two patterns together accept exactly the numbers and the unfinished forms of the second pattern |
| `NumberToken.BeginningTolerated` | src/offline_companion/core/streaming_card_parser.py:215-224 | every beginning of a tolerated token is tolerated, so truncation never makes a number fail |
| `CardScanner.ScanCardStructure` | src/offline_companion/core/streaming_card_parser.py:272-345 | the loop over mutable frames computes the scan of the buffer, and reports nothing when it is not valid |
| `CardScanner.PendingKey` | src/offline_companion/core/streaming_card_parser.py:290-308 | a closed string becomes the pending key exactly when it stands in an object before a colon and is a whole JSON string |
| `CardScanner.ScanCut` | src/offline_companion/core/streaming_card_parser.py:282-345 | for every buffer whatsoever: a prefix of a validly scanned buffer scans validly and its closed list is the first part of the longer one |
| `PartialCard.ParsePartialCard` | src/offline_companion/core/streaming_card_parser.py:242-260 | scanner first, then parser; either failure shows nothing |
| `PartialCard.FollowCard` | src/offline_companion/core/streaming_card_parser.py:263-345 | on every accepted buffer the scanner arrives where the parser stopped, with the nest of unfinished containers as its stack |
| `PartialCard.AgreesUnlessTorn` | src/offline_companion/core/streaming_card_parser.py:187-190 | scanner and parser agree on an accepted buffer exactly when the last string is not torn by a short `\u` escape |
| `Truncation.CutCard` | src/offline_companion/core/streaming_card_parser.py:62-143 | every prefix of an accepted buffer that holds the opening brace is accepted, and its reading only grows into the longer one |
| `CardTheorems.GrowingValue` | src/offline_companion/core/streaming_card_parser.py:72-224 | a reading that grows shows a value that keeps all it showed: finished parts are equal, and only the token or missing value that touches the end may become something else |
| `CardTheorems.HarmlessCut` | src/offline_companion/core/streaming_card_parser.py:98-101 | what a shorter buffer repeats is as harmless as what the longer one does |
| `CardTheorems.ClosedAreCardsIff` | src/offline_companion/core/streaming_card_parser.py:327-358 | the paths the scanner closes are exactly the finished object elements of `steps` if and only if no key forges a card path |
| `CardTheorems.PlainKeysForgeNothing` | src/offline_companion/core/streaming_card_parser.py:348-358 | top-level keys that are not empty and hold no bracket forge nothing |
| `JsonGrammar.ReadsCard` | src/offline_companion/core/streaming_card_parser.py:62-224 | every RFC 8259 text of an object, with blanks around it, is read back as that object |
| `JsonMeaning.MeaningIs` | src/offline_companion/core/streaming_card_parser.py:98-213 | what the parser makes of a text is what the text means: names, numbers, characters by the tables of the standard, and a dictionary with keys in the order they first occur, each with its last value |
| `GrammarSoundness.GrammarIff` | src/offline_companion/core/streaming_card_parser.py:62-224 | the parser finishes an object whose tokens are all whole exactly on the RFC 8259 texts |
| `CardStream.ScanReports` | src/offline_companion/core/streaming_card_parser.py:263-345 | on an untorn accepted buffer: valid, closed paths, open stack, flag and lexical completeness are those of the parsed tree |
| `CardStream.ClosedOnlyGrows` | src/offline_companion/core/streaming_card_parser.py:242-345 | the closed list of any prefix is a list-prefix of the longer one |
| `CardStream.ShownOnlyGrows` | src/offline_companion/core/streaming_card_parser.py:242-260 | what a prefix shows is kept, in closed list and value, when no repeated key does harm |
| `CardRepeats.NeverTakesBackIff` | src/offline_companion/core/streaming_card_parser.py:98-101 | along the stream to an accepted buffer nothing shown is ever taken back, between any two of its prefixes, if and only if every repeated key stands over null and never shows anything but null |
| `CardStream.CompleteIffFinished` | src/offline_companion/core/streaming_card_parser.py:259 | on an untorn buffer `complete` says that the parser saw the closing brace |
| `CardStream.CompleteFromTheBraceOn` | src/offline_companion/core/streaming_card_parser.py:251-260 | along a stream to a finished card, exactly the prefixes that hold the closing brace are complete, all with the final value |
| `CardStream.ClosedExactlyIff` | src/offline_companion/core/streaming_card_parser.py:327-358 | on an untorn buffer the closed list is the finished object elements of `steps`, in order, if and only if no key forges a card path |
| `CardNames.ClosedNamesCards` | src/offline_companion/core/streaming_card_parser.py:327-358 | a text is in the closed list exactly when it reads `steps[j]` in decimal and the array under the key `steps` has a finished object at the zero-based index `j`; the flag is set exactly when there is such an array |
| `CardNames.ClosedInOrder` | src/offline_companion/core/streaming_card_parser.py:337-338 | with one key `steps` the numbers in the closed list rise |
| `CardNames.CardPathIs` | src/offline_companion/core/streaming_card_parser.py:337 | the scanner takes `steps[`, one digit or more, `]` for the path of a card, and nothing else |
| `CardNames.PathOfContainer` | src/offline_companion/core/streaming_card_parser.py:321-358 | for any buffer: the path of a container that opens is the index or the key behind the path of its parent, a container or a comma uses the key up, and a comma in an array counts |
| `CardStream.ClosedCardIsStable` | src/offline_companion/core/streaming_card_parser.py:242-345 | once `steps[j]` is closed, `value.steps[j]` is the same in every longer buffer, torn or not, and on an untorn one it is there |
| `CardStream.PrintedCardIsParsed` | src/offline_companion/core/streaming_card_parser.py:242-260 | every RFC 8259 text of an object is shown as what it means, told without the parser, complete, with its cards closed |
| `CardPrinter.PrintedCardIsShown` | src/offline_companion/core/streaming_card_parser.py:62-260 | print and parse: any object with distinct keys, written with any escapes, capital or small digits and white space, is shown as that value and complete |
| `CardCuts.CutCardIsShown` | src/offline_companion/core/streaming_card_parser.py:62-260 | cut anywhere behind its opening brace, a card shows exactly what has come: whole characters, the elements and members begun, null for a name, a number or a value cut short; complete exactly from its closing brace on |
| `CardStream.CompleteIsGrammaticalIff` | src/offline_companion/core/streaming_card_parser.py:259 | a complete buffer is RFC 8259 text exactly when it is not torn and all its tokens are whole |
| `CardStream.GrammaticalIsComplete` | src/offline_companion/core/streaming_card_parser.py:242-260 | every RFC 8259 text of an object is accepted and complete |
| `CardFaults.CompleteWithoutTheBrace` | src/offline_companion/core/streaming_card_parser.py:187-190 | a torn buffer reported complete although the parser saw no brace |
| `CardFaults.CompleteWithCutLiteral` | src/offline_companion/core/streaming_card_parser.py:211-212 | a literal cut short in the middle is shown as null in a complete card |
| `CardFaults.BracketKeyForges` | src/offline_companion/core/streaming_card_parser.py:328-358 | a top-level key with a bracket forges a closed path |
| `CardFaults.EmptyKeyForges` | src/offline_companion/core/streaming_card_parser.py:348-358 | behind an empty key an inner `steps` array forges a closed path |
| `CardFaults.RepeatedKeyTakesBack` | src/offline_companion/core/streaming_card_parser.py:98-101 | a repeated key takes back what was shown |
| `Booth.TwosComplementRoundTrip` | src/offline_companion/core/algorithm_tools.py:294-300 | the two conversions undo each other on every value that fits the width |
| `Booth.JoinedMeans` | src/offline_companion/core/algorithm_tools.py:50-54 | the joined registers after the shift are the signed accumulator followed by the multiplier |
| `Booth.SplitJoined` | src/offline_companion/core/algorithm_tools.py:55-57 | what is read back out of them is an arithmetic shift by one |
| `Booth.NoWrap` | src/offline_companion/core/algorithm_tools.py:42-49 | the sum a round leaves in the accumulator stays within the multiplicand, so no operation wraps |
| `Booth.RunRegisters` | src/offline_companion/core/algorithm_tools.py:38-72 | for any width that holds the operands: the signed double-width register is the product, every traced operation is the exact sum or difference, and after every shift the two registers hold the product so far and the rest of the multiplier |
| `Booth.BoothTerms` | src/offline_companion/core/algorithm_tools.py:315-330 | the loop computes the terms of the bit positions, highest first |
| `Booth.RecodingIsExact` | src/offline_companion/core/algorithm_tools.py:315-330 | the terms add up to the value, powers fall strictly and signs alternate, for every integer |
| `Booth.PartialProductsSum` | src/offline_companion/core/algorithm_tools.py:75-82 | the partial products add up to the product |
| `Booth.RecodingIsTheTrace` | src/offline_companion/core/algorithm_tools.py:38-75 | for a non-negative multiplier the terms are the adding and subtracting rounds in reverse |
| `Booth.BoothMultiply` | src/offline_companion/core/algorithm_tools.py:25-85 | refused exactly above 62 bits; otherwise the product, a true trace and an exact recoding, and the inconsistency error is unreachable |
| `Gf2Polynomial.DivisionStep` | src/offline_companion/core/algorithm_tools.py:128-134 | one step of long division over GF(2) |
| `Gf2Polynomial.RemainderUnique` | src/offline_companion/core/algorithm_tools.py:125-154 | a polynomial has only one remainder |
| `Crc32.ByteIsBits` | src/offline_companion/core/algorithm_tools.py:126-135 | adding a byte and shifting eight times feeds its eight bits one by one |
| `Crc32.FeedDivides` | src/offline_companion/core/algorithm_tools.py:128-135 | a bit step multiplies by x, brings in the bit and takes away the generator when it goes in |
| `Crc32.FedIsRemainder` | src/offline_companion/core/algorithm_tools.py:123-135 | the register is the remainder of the processed prefix |
| `Crc32.ChecksumIsComplementedRemainder` | src/offline_companion/core/algorithm_tools.py:123-153 | for every byte sequence the checksum is the complemented, unique remainder that section 8.1.1.6.2 of ITU-T V.42 asks for |
| `Crc32.StepInjective` | src/offline_companion/core/algorithm_tools.py:130-134 | a bit step can be undone |
| `Crc32.StepLinear` | src/offline_companion/core/algorithm_tools.py:130-134 | a bit step is linear |
| `Crc32.BurstDetected` | src/offline_companion/core/algorithm_tools.py:125-153 | no burst of up to 32 bits leaves the register unchanged |
| `Crc32.ShortBurstDetected` | src/offline_companion/core/algorithm_tools.py:125-154 | two byte strings that differ only inside four adjacent bytes never share a checksum |
| `Crc32.RunBits` | src/offline_companion/core/algorithm_tools.py:127-143 | the bit loop computes the byte step and traces every register |
| `Crc32.RunBytes` | src/offline_companion/core/algorithm_tools.py:123-152 | the byte loop computes the register and a true trace for any number of bytes |
| `Crc32.OnlyTheChecksum` | src/offline_companion/core/algorithm_tools.py:144-154 | the checksum is the only value that meets the standard, so a library that meets it agrees |
| `Crc32.Crc32Utf8` | src/offline_companion/core/algorithm_tools.py:119-168 | refused above 64 bytes or against a different zlib value, which a zlib that meets the standard never gives; otherwise checksum and true trace |
| `Euclid.EuclideanGcd` | src/offline_companion/core/algorithm_tools.py:203-216 | divisions chain with a = q·b + r and r < b, the result is the greatest common divisor, and Lamé's bound holds |
| `Euclid.ChainEndsAtGcd` | src/offline_companion/core/algorithm_tools.py:206-209 | a chain that reaches remainder zero has found the greatest common divisor, zero operands included |
| `Euclid.GcdUnique` | src/offline_companion/core/algorithm_tools.py:215 | there is only one |
| `Euclid.Lame` | src/offline_companion/core/algorithm_tools.py:206-209 | k divisions need a second operand of at least Fib(k + 1) |
| `Euclid.LameSwapped` | src/offline_companion/core/algorithm_tools.py:206-209 | the bound when the first operand is the smaller |
| `Euclid.LameTight` | src/offline_companion/core/algorithm_tools.py:206-209 | consecutive Fibonacci numbers reach the bound for every k |
| `Quicksort.Partition` | src/offline_companion/core/algorithm_tools.py:248-265 | the last element lands where it belongs: smaller or equal before it, larger behind, the rest of the array untouched |
| `Quicksort.Sort` | src/offline_companion/core/algorithm_tools.py:267-272 | the range is sorted, a permutation, and every snapshot settles its pivot for good |
| `Quicksort.Quicksort` | src/offline_companion/core/algorithm_tools.py:245-280 | sorted permutation; the snapshots lead from the input to the result, each a permutation with its pivot at its final index; at most n - 1 of them |
| `Quicksort.HistoryEnds` | src/offline_companion/core/algorithm_tools.py:256-264 | the last snapshot is the result |
| `ChineseNumeral.ParseChineseNumber` | src/offline_companion/core/calculator.py:112-129 | the loop evaluates the text, and fails exactly when it holds another character |
| `ChineseNumeral.MyriadSplits` | src/offline_companion/core/calculator.py:120-125 | for any signs: what stands behind 万 or 亿 is added to what stands before |
| `ChineseNumeral.MyriadMultiplies` | src/offline_companion/core/calculator.py:123-125 | 万 and 亿 multiply all that stands before them, back to the last of them |
| `ChineseNumeral.UnitSplits` | src/offline_companion/core/calculator.py:119-122 | behind 十, 百 or 千 the rest is added |
| `ChineseNumeral.UnitCounts` | src/offline_companion/core/calculator.py:119-122 | a unit counts as often as the digit before it says, and once without one or behind zero |
| `ChineseNumeral.LastDigitCounts` | src/offline_companion/core/calculator.py:117-118 | of digits side by side only the last one counts |
| `ChineseNumeral.NumeralIsRead` | src/offline_companion/core/calculator.py:112-129 | what any written numeral is read as: the highest section counts ten thousands only |
| `ChineseNumeral.ReadBackIff` | src/offline_companion/core/calculator.py:112-129 | a written number is read back exactly when it is below 10^12 |
| `ChineseNumeral.WritingIsUnambiguous` | src/offline_companion/core/calculator.py:112-129 | below the bound different numbers are written differently |
| `ChineseNumeral.CanonicalReadBackIff` | src/offline_companion/core/calculator.py:112-129 | the canonical numeral, with or without the one of a leading ten, is read back exactly below 10^12 |
| `ChineseNumeral.BoundIsTight` | src/offline_companion/core/calculator.py:112-129 | 10^12 itself is read as ten thousand |
| `PlanDag.Validator.Visit` | src/offline_companion/core/plan_dag_engine.py:42-55 | the recursive search: on return the step is finished and listed after its dependencies; an error names a real fault |
| `PlanDag.ValidateDag` | src/offline_companion/core/plan_dag_engine.py:35-58 | returns normally exactly when every dependency names a step and there is no cycle |
| `PlanDag.OrderedIsAcyclic` | src/offline_companion/core/plan_dag_engine.py:57-58 | steps that can be listed after their dependencies have no cycle |
| `PlanDag.DictionaryDistinct` | src/offline_companion/core/plan_orchestrator.py:679 | the dictionary of steps has each identifier once |
| `PlanDag.DictionaryKeepsLast` | src/offline_companion/core/plan_orchestrator.py:679 | a repeated identifier keeps its last step |
| `PlanDag.DictionaryKeepsOrder` | src/offline_companion/core/plan_orchestrator.py:679 | and the place of its first occurrence |
| `PlanContext.CreatePlan` | src/offline_companion/core/plan_orchestrator.py:669-690 | a plan is created exactly for valid steps, all pending and nothing processed |
| `PlanWalk.SuccessorsAre` | src/offline_companion/core/plan_dag_engine.py:321-327 | the adjacency list of a step holds exactly the steps that name it |
| `PlanWalk.DownstreamIsReachable` | src/offline_companion/core/plan_dag_engine.py:238-246 | the breadth-first walk visits exactly the steps that depend on the first one, however indirectly |
| `PlanLevels.NearerComesFirst` | src/offline_companion/core/plan_dag_engine.py:238-246 | the walk is breadth first: what comes later is at least as many dependencies away |
| `PlanContext.BuildSuccessors` | src/offline_companion/core/plan_dag_engine.py:321-327 | the two loops build that adjacency |
| `PlanContext.PropagateFailure` | src/offline_companion/core/plan_dag_engine.py:224-255 | the queue loop blocks along the walk; the returned list is exactly the steps whose status changed |
| `PlanContext.PropagateUnblock` | src/offline_companion/core/plan_dag_engine.py:257-296 | the queue loop unblocks along the walk; the returned list is exactly the steps whose status changed |
| `PlanFrontier.FrontierIsExact` | src/offline_companion/core/plan_dag_engine.py:224-255 | blocked are exactly the open steps reachable from the failed one, recorded are exactly those, and nothing else changes |
| `PlanFrontier.UnblockingIsSound` | src/offline_companion/core/plan_dag_engine.py:257-296 | from any statuses: what is reopened was blocked, depends on the finished step and has no dependency left that will not come |
| `PlanUnblock.OnePassSufficesIff` | src/offline_companion/core/plan_dag_engine.py:270-292 | for a step that ends as done or failed: over every run, the pass behind it leaves nothing blocked behind nothing exactly when its walk meets every step after its dependencies |
| `PlanUnblock.OutOfOrderMisses` | src/offline_companion/core/plan_dag_engine.py:270-292 | otherwise: a run in which the step fails, is tried again and is done, and after which a step is blocked behind nothing |
| `PlanUnblock.OrderIsNotAlwaysKept` | src/offline_companion/core/plan_dag_engine.py:270-292 | a valid plan of three steps with such a run |
| `PlanState.ReadyAmong` | src/offline_companion/core/plan_orchestrator.py:180-189 | the list holds exactly the steps that are open and have all dependencies in the cached set |
| `PlanContext.TaskContext.GetReadySteps` | src/offline_companion/core/plan_orchestrator.py:180-189 | the loop computes that list, in the order of the steps |
| `PlanContext.TaskContext.RebuildDependencySatisfiedSet` | src/offline_companion/core/plan_orchestrator.py:174-178 | the cached set becomes the processed steps with a satisfying status |
| `PlanContext.TaskContext.MarkCompleted` | src/offline_companion/core/plan_dag_engine.py:216-222 | the step is processed and enters the cached set exactly if its status satisfies dependents; a cached set that was exact but for this step is exact again |
| `PlanContext.TaskContext.AllDependenciesFailed` | src/offline_companion/core/plan_dag_engine.py:199-206 | every step that is not final has a failed direct dependency, and there is one |
| `PlanContext.ExecuteWithRetry` | src/offline_companion/core/plan_dag_engine.py:161-183 | the attempt loop, with the executor as an arbitrary sequence of outcomes |
| `PlanRuns.AttemptsAre` | src/offline_companion/core/plan_dag_engine.py:170-183 | the executor is called until it returns or fails for good, at most max(1, retry_max) times, never when retry_max is negative |
| `PlanContext.RunUntilBlocked` | src/offline_companion/core/plan_dag_engine.py:65-159 | the scheduling loop, to its end or for one executed step |
| `PlanOutcomes.PassIs` | src/offline_companion/core/plan_dag_engine.py:114-157 | one pass, told by the outcomes of the executor: skipped without a call when the condition names a variable that is not truthy; done if the last call returned, with its result stored; else degraded where there is a value for that, else failed; only a fail-fast failure stops the plan |
| `PlanOutcomes.IdleIs` | src/offline_companion/core/plan_dag_engine.py:83-104 | with no step ready: done if every step has ended, failed if every other step directly depends on one that failed, is blocked or was cancelled, else paused with nothing changed |
| `PlanState.StepTurnFrame` | src/offline_companion/core/plan_dag_engine.py:108-157 | one pass changes the status of its own step only, and logs calls for that step only |
| `PlanContext.AdvanceFallback` | src/offline_companion/core/fallback_controller.py:25-56 | advances exactly when there is a next mode; the given step is open again, and no other status, call or satisfied step changes |
| `PlanContext.FollowFallback` | src/offline_companion/core/plan_orchestrator.py:972-993 | the fallback loop of `execute_next` |
| `PlanOutcomes.FallbackReopens` | src/offline_companion/core/plan_orchestrator.py:972-993 | the chain goes on with the step that stopped the plan open again, or the first failed one if none did, and nothing else changed but the place in the chain |
| `PlanRuns.FallbackBounded` | src/offline_companion/core/fallback_controller.py:25-56 | the index rises with every pass and stays inside the chain, so the loop ends |
| `PlanContext.FinalizePlanStatus` | src/offline_companion/core/plan_orchestrator.py:1219-1242 | the verdict from the set of statuses |
| `PlanContext.PropagateUnblockEvents` | src/offline_companion/core/plan_orchestrator.py:1207-1217 | unblocks behind the steps that are newly done, and no others |
| `PlanContext.ExecuteNext` | src/offline_companion/core/plan_orchestrator.py:897-1015 | one call: a plan that has ended or waits at the hard gate stays as it is, a refusing gate blocks the first ready step and calls nothing, otherwise one step is scheduled with its consequences |
| `PlanContext.RetryFailedStep` | src/offline_companion/core/plan_orchestrator.py:1066-1113 | accepted exactly for a failed step, which becomes pending; it leaves the processed steps and its result the variables, the plan runs without a verdict, and calls and satisfied steps stay |
| `PlanContext.RunPlan` | src/offline_companion/core/plan_orchestrator.py:835-895 | `_run` along the fallback chain; it ends |
| `PlanOutcomes.RunSettles` | src/offline_companion/core/plan_orchestrator.py:835-895 | a run to the end leaves a plan failed only with a verdict |
| `PlanContext.ResumePlan` | src/offline_companion/core/plan_orchestrator.py:724-752 | refused exactly for a plan that has ended; a refused consent cancels the step and the plan and calls nothing |
| `PlanContext.PausePlan` | src/offline_companion/core/plan_orchestrator.py:768-789 | a plan that has not ended pauses with the reason and no step, any other is left alone; statuses, processed steps, cached set, verdict and calls stay, and so does what safety needs |
| `PlanContext.CancelPlan` | src/offline_companion/core/plan_orchestrator.py:791-804 | every step that has not ended is cancelled, every other keeps its status, and no call is made |
| `PlanContext.ApplyConsentDecision` | src/offline_companion/core/plan_gateway.py:88-112 | accepted exactly while waiting for consent, for the registered request and once it is decided; then the step is ready and the plan runs, or both are cancelled; otherwise nothing changes |
| `PlanRuns.OperationSafely` | src/offline_companion/core/plan_orchestrator.py:724-804 | every operation keeps the cached set exact, leaves satisfied steps alone and calls the executor only for steps that are due |
| `PlanRuns.DependenciesAlwaysSatisfied` | src/offline_companion/core/plan_orchestrator.py:724-1113 | under any sequence of operations the executor was only called for steps whose dependencies were done, skipped or degraded, and they still are |
| `PlanRuns.SatisfiedForever` | src/offline_companion/core/plan_dag_engine.py:108-157 | those three statuses are never left, whatever is done afterwards |
| `PlanConsent.CallsAreConsented` | src/offline_companion/core/plan_dag_engine.py:106-112 | under any sequence of operations every call of a step that asks for consent comes in or after an operation that granted exactly this step, while the grant stands: it has not been used, retried or refused in between |
| `PlanConsent.NoRetryWhileGranted` | src/offline_companion/core/plan_orchestrator.py:1066-1113 | no accepted retry and no refusal lies between a grant and the calls it serves |
| `PlanConsent.NoGrantNoCall` | src/offline_companion/core/plan_dag_engine.py:106-112 | without an operation that grants it, a step that asks for consent is never called |
| `PlanConsent.RefusedIsNotCalled` | src/offline_companion/core/plan_orchestrator.py:736-748 | a refusal, by resumption or decision, cancels step and plan and lets no call follow but after a new grant |
| `PlanConsent.PassAsks` | src/offline_companion/core/plan_dag_engine.py:106-112 | a pass that reaches a step not granted pauses the plan on it, with no call and no other status changed |
| `PlanConsent.CallAsks` | src/offline_companion/core/plan_orchestrator.py:897-1015 | and so does a whole call |
| `PlanConsent.RefusalCanBeRevoked` | src/offline_companion/core/plan_gateway.py:88-112 | neither a refusal nor cancelling closes the request: a later allowing decision sets the cancelled plan running |
| `PlanRuns.SavingIsInvisible` | src/offline_companion/core/plan_snapshot.py:13-89 | at any point the cached set is exact, so saving and loading changes nothing that follows |
| `PlanSnapshot.RestoredIsRebuilt` | src/offline_companion/core/plan_snapshot.py:13-110 | loading what was saved only looks the satisfied steps up again |
| `PlanSnapshot.RoundTripIff` | src/offline_companion/core/plan_snapshot.py:13-110 | a context survives a round trip exactly when its cached set is the recomputed one |
| `PlanSnapshot.OlderLoadsAlike` | src/offline_companion/core/plan_snapshot.py:36-110 | a snapshot with the older keys for processed steps and conditions loads as the newer one |
| `PlanFrontier.FailuresPropagated` | src/offline_companion/core/plan_orchestrator.py:995-997 | propagating from every failed step leaves nothing waiting behind a failure |
| `PlanFrontier.NothingWaitsForAFailure` | src/offline_companion/core/plan_orchestrator.py:897-1113 | without consent steps and resumption, no pending or ready step ever has a failed, blocked or cancelled dependency |
| `PlanProgress.SomethingIsReady` | src/offline_companion/core/plan_orchestrator.py:180-189 | in an acyclic plan where nothing waits behind a failure, an open step means a ready one |
| `PlanProgress.NextLive` | src/offline_companion/core/plan_orchestrator.py:897-999 | each call closes at least one open step, and the plan has ended exactly when none is left |
| `PlanProgress.PlanEnds` | src/offline_companion/core/plan_orchestrator.py:897-999 | whatever the executor does, after max(1, number of steps) calls the plan has ended and no step is pending, ready or running |
| `PlanOutcomes.HowPlansEnd` | src/offline_companion/core/plan_orchestrator.py:1219-1242 | and how: completed if every step is done; failed, stopped if a step is blocked and broken if not, exactly if some step failed; otherwise done without a verdict |
| `PlanRetries.RetriedPlanEnds` | src/offline_companion/core/plan_orchestrator.py:897-1242 | a plan that is not strandable: whatever the executor does and whatever is retried, cancelled, paused or reloaded, max(1, number of steps) further calls end it |
| `PlanRetries.AlwaysEndsIff` | src/offline_companion/core/plan_orchestrator.py:897-1242 | and exactly these plans: a plan always ends if and only if it is not strandable, a condition on its steps alone |
| `PlanRetries.FirmPlansEnd` | src/offline_companion/core/plan_orchestrator.py:897-1242 | without conditions and degrade values a plan always ends, whatever is retried |
| `PlanRetries.DegradingStrands` | src/offline_companion/core/plan_dag_engine.py:270-292 | a plan without conditions that a pass out of order strands |
| `PlanStuck.HopelessForever` | src/offline_companion/core/plan_orchestrator.py:1207-1242 | a stranded plan is not changed by any execution, retry, resumption or reload |
| `PlanFaults.RetryStrands` | src/offline_companion/core/plan_orchestrator.py:1207-1217 | a retried step that is then skipped strands the step its failure had blocked |
| `PlanPauses.CanPauseIff` | src/offline_companion/core/plan_dag_engine.py:81-104 | running a fresh plan to its end can pause exactly when a step depends, through other steps only, on one that can fail without stopping the plan |
| `PlanPauses.DeepPauses` | src/offline_companion/core/plan_dag_engine.py:199-206 | and for every such pair of steps some run pauses with the second one pending |
| `PlanPauses.ChainPauses` | src/offline_companion/core/plan_orchestrator.py:835-895 | a chain of three steps that pauses |
| `SampleRecord.StripIs` | src/offline_companion/core/decomposition_sample_library.py:606-611 | stripping takes off exactly the white space at both ends |
| `SampleLibrary.OperationStores` | src/offline_companion/core/decomposition_sample_library.py:350-865 | every operation on one sample, spelled out field by field: when it is refused, and then nothing changes, and else what the stored row comes to |
| `SampleLibrary.CreateStores` | src/offline_companion/core/decomposition_sample_library.py:130-190 | a candidate is refused for blank texts, no steps or an unknown source; a duplicate counts another similarity; else a row with the trimmed texts and zero counters is added |
| `SampleLibrary.DeleteRemoves` | src/offline_companion/core/decomposition_sample_library.py:274-282 | deleting takes out the row of the sample and no other |
| `SampleLibrary.ChangeConsistent` | src/offline_companion/core/decomposition_sample_library.py:842-865 | every change sets the marks of the new state and clears the others |
| `SampleLibrary.RecordsStayConsistent` | src/offline_companion/core/decomposition_sample_library.py:350-865 | in every reachable library: verify kind iff verified, stale reason iff stale, rejecter iff rejected, cancelled row iff archived |
| `SampleLibrary.OnlyTheUser` | src/offline_companion/core/decomposition_sample_library.py:896-899 | confirm, edit, reject and restore are refused to anyone but the user |
| `SampleLibrary.ChangeRespectsUser` | src/offline_companion/core/decomposition_sample_library.py:684-865 | no other operation changes state, verification or content of a sample the user verified or rejected |
| `SampleLibrary.UserSovereignty` | src/offline_companion/core/decomposition_sample_library.py:233-865 | nor does any sequence of them, refused user operations included |
| `SampleLibrary.RowsStayOrdered` | src/offline_companion/core/decomposition_sample_library.py:172-190 | in every reachable library the identifiers are distinct and rise |
| `SampleMaintenance.SortIs` | src/offline_companion/core/decomposition_sample_library.py:1194 | the stable sort is a sorted permutation |
| `SampleMaintenance.SortIsStable` | src/offline_companion/core/decomposition_sample_library.py:1194 | equals keep their order |
| `SampleMaintenance.CapacityPassIsExact` | src/offline_companion/core/decomposition_sample_library.py:1179-1196 | the first pass archives exactly min(excess, eligible) active automatically verified samples, the lowest by score, then by the older change, then by the later row, and changes no other row |
| `SampleMaintenance.ColdPassIsExact` | src/offline_companion/core/decomposition_sample_library.py:1198-1228 | row by row: the second pass archives as cold what is neither settled nor the user's and was last injected more than 90 days ago, as abandoned what else is a candidate of a failed plan unchanged for more than 30 days, and leaves every other row as it was |
| `SampleMaintenance.ReportInOrder` | src/offline_companion/core/decomposition_sample_library.py:1168-1244 | the report names first what capacity takes, in the order in which it goes, and then the cold and abandoned rows, newest change first |
| `SampleMaintenance.ArchiveEachIs` | src/offline_companion/core/decomposition_sample_library.py:1230-1244 | archiving a list of different archivable samples never fails and touches exactly those rows |
| `SampleMaintenance.GovernanceNeverFails` | src/offline_companion/core/decomposition_sample_library.py:1168-1228 | a run reports exactly the rows it archives, each once, and its error is unreachable |
| `SampleMaintenance.GovernanceRespectsUser` | src/offline_companion/core/decomposition_sample_library.py:1168-1228 | rows the user verified or rejected are left as they are |
| `SampleMaintenance.PoolBounded` | src/offline_companion/core/decomposition_sample_library.py:1168-1196 | after a run the verified pool is within its limit or holds nothing that may be taken |
| `SampleMaintenance.NothingToTakeIsUsers` | src/offline_companion/core/decomposition_sample_library.py:1188-1192 | with consistent records that means only user-verified samples |
| `SampleMaintenance.GovernanceIsIdempotent` | src/offline_companion/core/decomposition_sample_library.py:1168-1228 | a second run at the same time does nothing |
| `SampleMaintenance.ArchivingIsOperations` | src/offline_companion/core/decomposition_sample_library.py:1230-1244 | a run is a sequence of archive operations of the system, so everything said of operations holds of it |
| `SampleMaintenance.ReachableGovernance` | src/offline_companion/core/decomposition_sample_library.py:1168-1258 | in every reachable library one run never fails, leaves the verified pool within its limit or user-verified, keeps what the user decided and the marks of every state, and a second run does nothing |
| `SampleStore.SampleRepository.AllSamples` | src/offline_companion/core/decomposition_sample_library.py:1246-1258 | the paging loop collects the whole listing |
| `SampleStore.SampleRepository.CreateCandidate` | src/offline_companion/core/decomposition_sample_library.py:130-190 | refused exactly for bad content or source or a duplicate that is gone; a duplicate counts another similarity and keeps its verdict, anything else becomes a new candidate at the end, with the trimmed texts, the steps and the plan given |
| `SampleStore.SampleRepository.RecordInjection` | src/offline_companion/core/decomposition_sample_library.py:413-438 | refused exactly for a missing sample; otherwise one injection more, its time and its similarity are counted, the other counters stay, and no other row changes |
| `SampleStore.SampleLifecycleManager.MoveTo` | src/offline_companion/core/decomposition_sample_library.py:842-865 | the record given back is the stored one, carries exactly the marks of the new state, keeps content and counters, and no other row changes |
| `SampleStore.SampleLifecycleManager.RecordPlanOutcome` | src/offline_companion/core/decomposition_sample_library.py:684-699 | refused exactly for a missing sample; otherwise one outcome more is counted and the failures in a row start anew or go up; it becomes stale exactly at the third failure in a row after three injections, unless the user vouches for it |
| `SampleStore.SampleLifecycleManager.AutoVerifyCandidate` | src/offline_companion/core/decomposition_sample_library.py:701-708 | refused exactly for a missing sample; a candidate is automatically verified exactly from two completed plans on, and anything else stays as it is |
| `SampleStore.SampleLifecycleManager.Confirm` | src/offline_companion/core/decomposition_sample_library.py:710-722 | goes through exactly for the user and an existing sample, which is user-verified then; no other row changes |
| `SampleStore.SampleLifecycleManager.AutoVerify` | src/offline_companion/core/decomposition_sample_library.py:724-738 | goes through exactly for a candidate, which is automatically verified then |
| `SampleStore.SampleLifecycleManager.Edit` | src/offline_companion/core/decomposition_sample_library.py:740-769 | goes through exactly for the user, an existing sample and real content; the record then holds the given steps and the trimmed description, as user-verified, one version up, with zeroed counters |
| `SampleStore.SampleLifecycleManager.Reject` | src/offline_companion/core/decomposition_sample_library.py:771-782 | goes through exactly for the user and a sample that is not rejected yet |
| `SampleStore.SampleLifecycleManager.Restore` | src/offline_companion/core/decomposition_sample_library.py:784-801 | goes through exactly for the user and a rejected, archived or stale sample, which is a candidate then |
| `SampleStore.SampleLifecycleManager.MarkStale` | src/offline_companion/core/decomposition_sample_library.py:803-822 | goes through exactly for the automatic actor, a reason and a candidate or automatically verified sample |
| `SampleStore.SampleLifecycleManager.Archive` | src/offline_companion/core/decomposition_sample_library.py:824-840 | goes through exactly where archiving is allowed, never for what the user verified or rejected |
| `SampleStore.SampleMaintenanceService.EnforceVerifiedLimit` | src/offline_companion/core/decomposition_sample_library.py:1179-1196 | archives the capacity list |
| `SampleStore.SampleMaintenanceService.ArchiveColdAndAbandoned` | src/offline_companion/core/decomposition_sample_library.py:1198-1228 | archives the cold and abandoned list |
| `SampleStore.SampleMaintenanceService.Run` | src/offline_companion/core/decomposition_sample_library.py:1168-1177 | both, in this order; it never raises |

## Left out

Streaming cards

- Unicode digits and letters: `isdigit`, `isalpha` and `\d` also match characters outside ASCII;
  the model knows the ASCII ones.
- Numbers keep their token; the conversion to `int` or `float` is not modelled.
- Frames are values in a sequence, so aliasing of a frame object is not captured. The recursion limit
  of the interpreter, which bounds the nesting of a card, is not modelled.
- `CardStream.ClosedCardIsStable`: that a closed card is already there in a torn buffer is not stated;
  the paths of the frames that stay open are not tracked.

Algorithm tools and numerals

- Type checks, the display strings (`_booth_recoding`, `format_*`), the UTF-8 encoding and
  `zlib.crc32`: bytes and the zlib value are inputs.
- The recursion limit also bounds `quicksort` (a sorted input of about a thousand elements).
- `calculate_expression`, the sign handling of `_to_decimal` and decimal numbers.

Plan engine

- Texts, results, errors, timestamps, attempts counters, events, logging and the stores. Of the
  context variables the model keeps which are truthy and the fallback chain; route names and the
  fallback history are not modelled, and the executor does not change the chain.
- The quality check of a result and its one repetition belong to a single outcome of the executor.
- The hard gate and the consent gateway are inputs: whether the gate refuses, what was decided.
- Plans built without `validate_dag` and the template loader.
- `PlanContext.RunUntilBlocked`: `max_steps` is none or one; no caller in the repository passes
  another number.
- `PlanRetries.AlwaysEndsIff`, `PlanUnblock.OnePassSufficesIff` and `PlanPauses.CanPauseIff`: for
  `retry_max` from zero on, which is all that the builders of steps let through
  (`plan_orchestrator.py:1314`, `plan_decomposer.py:1214`), without consent steps and fallback chain,
  and with executors that may set and clear any context variable.
- `PlanUnblock.OnePassSufficesIff`: for a finished step that has a condition or a degrade value only
  one half is proved (`PlanUnblock.InOrderServes`); whether a run can have steps blocked behind it
  depends on what else fails.
- Snapshots: results, errors, times, counters and the version number are copied and not modelled.

Sample library

- SQLite, locking, JSON, embeddings and full-text search. The duplicate search, the eviction score,
  the failed-plan provider and the clock are inputs; titles and texts of steps are opaque.
- The retriever's ranking and cropping; its effect on the records is `RecordInjection`.

Other modules of the repository are not part of this model.
