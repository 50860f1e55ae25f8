# Verification model of the Temporal TypeScript SDK

A Dafny model of the parts of the SDK where finite tests settle little: the text codec every payload passes
through, the workflow runtime, the activity heartbeat stream, the bounded concurrent mapper, the workflow random
number generator, the failure pipeline and the lifetime of the native runtime. `dafny verify dfyconfig.toml` checks
everything.

| file | what it models |
|---|---|
| `Wrappers.dfy`, `Sequences.dfy` | `Option`, `Result` and two facts about concatenation |
| `Utf8.dfy`, `Utf8RoundTrip.dfy` | UTF-8 (section 3 of RFC 3629) over UTF-16 (sections 2.1 and 2.2 of RFC 2781) as short recursive definitions, and their laws |
| `TextDecoder.dfy` | the block-buffered decoder, with its 32-unit scratch array, carried half pair, rewinds and delayed concatenation |
| `DecoderConformance.dfy` | how far the decoder is from the one that takes no surrogates |
| `TextEncoder.dfy`, `TextEncoderLaws.dfy` | the encoder that fills a guessed-size array, and what it promises |
| `TextEncodeInto.dfy` | the encoder into a given array |
| `Alea.dfy` | the generator on doubles and the integer multiply-with-carry generator it is |
| `HeartbeatStream.dfy` | the heartbeat state mapper of one activity with its sender as environment |
| `BoundedMapper.dfy`, `MapAsyncIterable.dfy` | mapper tasks, semaphore, buffer and consumer in every interleaving; the same as an object |
| `WorkflowQueries.dfy` | the queries of a workflow: buffered, pending, answered or dropped |
| `WorkflowState.dfy` | the workflow runtime as one state machine: a step is an activation job, a call from workflow code, or one promise callback |
| `WorkflowOperations.dfy` | what a step does to one timer, activity, local activity or external signal |
| `WorkflowGrowth.dfy` | what a step never takes back |
| `WorkflowCancellation.dfy` | cancellation over the growing tree of scopes |
| `WorkflowConditions.dfy` | blocked conditions and conditions with a timeout |
| `WorkflowCommands.dfy` | the commands of all activations together, and the answers to queries among them |
| `WorkflowRuns.dfy` | the theorems about every run |
| `WorkflowOutcomes.dfy` | what becomes of each call, told by the events of the run |
| `WorkflowActivator.dfy` | the activator and its scopes as objects, each method proved to be one step of the state machine |
| `SignalBuffer.dfy` | signal handlers, the buffer of signals, and handlers that set handlers |
| `BlockedConditions.dfy` | the loop that unblocks conditions |
| `StackTraces.dfy` | cutting the framework part off a stack trace |
| `FailurePipeline.dfy` | errors to failures, through codecs, and back |
| `FailureWire.dfy` | what failures hold when they are sent, and which failures can be read, whoever made them |
| `RuntimeLifetime.dfy` | the singleton runtime, creations in progress and live native objects |

How to read the concurrent models. In JavaScript, code between two awaits is atomic, so a step is such a piece of
code and a run is any sequence of enabled steps. Callbacks of rejected promises are steps that are enabled once the
promise is rejected and run once; no order among them is assumed, which allows more runs than the first-in-first-out
order of the language. Where the source is a class that updates its fields, there is a class whose methods are proved
against the functions of the state machine (`WorkflowActivator`, `MapAsyncIterable`, `RuntimeLifetime`,
`SignalBuffer`, `BlockedConditions`, `Alea`).

Where the code does not do what its documentation, its name or the standard suggests, the model follows the code, one
lemma says exactly when the promise is kept, and another gives an input, a schedule or a function where it is not:

- the decoder accepts three-byte encoded surrogates, which RFC 3629 forbids (`ConformsExactlyWhen`, `SurrogateExample`);
- the encoder swallows the unit after an unpaired high surrogate, and its array can be one byte short when such a
  surrogate ends the string (`StandardExactlyWhen`, `SwallowExample`, `ShortExample`);
- the `read` that `encodeInto` returns counts characters and not code units (`ReadOfOneCall`, `ReadIsUnitsExactlyWhen`,
  `PairExample`);
- the bounded mapper hangs under some schedules when its buffer limit is -1 or less, because a mapper that returns
  keeps its permit (`JamsExactlyWhen`; `JamReturn` builds the schedule);
- a query that cannot be handed over when the workflow function is called takes with it every query buffered behind it
  (`EveryQueryAnsweredExactlyWhen`, `DroppedExample`);
- with `encodeCommonAttributes`, an error that was made from a failure with a readable cause is sent with that cause
  readable (`SendsHiddenExactlyWhen`, `ReadableCauseExample`);
- a chain with an activity or child workflow failure that names no type cannot be read back (`PipelineRoundTrip`,
  `UnnamedExample`);
- condition functions that change the state can leave a true condition blocked (`NoTrueConditionStaysExactlyWhen`,
  `TrueConditionMayStay`);
- a connection that is closed again when there is no runtime makes one for nothing, which stays idle (`CloseConnection`
  states when, the contract of every other call states whether an idle runtime remains, and `SecondClose` is such a run).

## Model

| member | source | states |
|---|---|---|
| TextDecoder.DecodeBuffered | packages/common/src/encoding.ts:9-163 | for every byte sequence and whatever the scratch buffer held, the loop ends and its result is the one-pass decoding, with one U+FFFD for each byte at which no character stands |
| TextDecoder.NextBlock | packages/common/src/encoding.ts:26-154 | a block, flushed and cut to its length, adds what it decoded; a half pair left over starts the next block or follows at once |
| TextDecoder.DecodeBlock | packages/common/src/encoding.ts:26-111 | one block takes the decoding further by what it wrote and carried, stays in the 32-unit array, and always makes progress unless the carried unit already filled its share |
| TextDecoder.DecodeNext | packages/common/src/encoding.ts:28-110 | one character or one bad byte reaches the buffer; a pair that does not fit is split and its second half carried |
| TextDecoder.SplitCodePoint | packages/common/src/encoding.ts:54-75 | the unit stored, the one before it and the one carried are together the UTF-16 form of the code point |
| TextDecoder.ReadSequence | packages/common/src/encoding.ts:29-50 | the cases that fall through read the bit groups of a two-, three- or four-byte sequence and remember how many bytes to rewind |
| TextDecoder.CharShape | packages/common/src/encoding.ts:29-53 | the exact byte ranges that the form of each character has |
| TextDecoder.PrefixFree | packages/common/src/encoding.ts:9-163 | at most one character stands at the front of a byte sequence, so decoding is deterministic |
| TextDecoder.SequenceStep | packages/common/src/encoding.ts:53-81 | the check by shifts accepts exactly the sequences that are the form of a character, neither overlong nor above U+10FFFF, and a rejected one is rewound to just after its lead byte |
| DecoderConformance.ConformsExactlyWhen | packages/common/src/encoding.ts:39-53 | for every byte sequence the decoder gives what it would give without the surrogate range, which section 3 of RFC 3629 forbids, if and only if nowhere in it stand the bytes ED, A0 to BF, 80 to BF |
| DecoderConformance.StrictIsLonger | packages/common/src/encoding.ts:39-53 | each such triple costs the decoder without surrogates three units and this one a single unit, so the results never agree by accident |
| DecoderConformance.SurrogateExample | packages/common/src/encoding.ts:39-53 | the bytes ED A0 80 decode to the unit D800, without surrogates to three replacement characters |
| Utf8RoundTrip.DecodeInvertsEncode | packages/common/src/encoding.ts:317-326 | decoding inverts encoding for every sequence of character numbers |
| Utf8RoundTrip.UnitsOfScalars | packages/common/src/encoding.ts:201-256 | a UTF-16 string survives being read as characters exactly when it has no unpaired surrogate |
| Utf8RoundTrip.ScalarsOfUnits | packages/common/src/encoding.ts:201-256 | characters written as UTF-16 are well-formed and read back as themselves |
| TextEncoder.Encode | packages/common/src/encoding.ts:201-256 | the loop writes exactly the bytes of the characters it sees; the only store that can be out of range is the last byte of the last character, exactly when the array is one byte short |
| TextEncoder.EncodeNext | packages/common/src/encoding.ts:213-254 | one character is written after what was there; the position bounds hold again, in the old array or in a wider one |
| TextEncoder.ReadNext | packages/common/src/encoding.ts:214-248 | the character read, and the widening, which happens at most once and whose copy always fits |
| TextEncoder.BoundsStep | packages/common/src/encoding.ts:206-248 | the position is at most 2i+8 before widening and 3i always, and widening never shrinks the array |
| TextEncoder.StoreOctets | packages/common/src/encoding.ts:215-252 | the stores of one character leave its UTF-8 octets after the first `pos` bytes; what is out of range is dropped |
| TextEncoderLaws.WellFormedEncodesExactly | packages/common/src/encoding.ts:201-256 | for every well-formed string the output is its encoding of section 3 of RFC 3629 |
| TextEncoderLaws.StandardExactlyWhen | packages/common/src/encoding.ts:221-248 | for every string the output is the standard form with unpaired surrogates replaced if and only if no unit is swallowed and the array is not short |
| TextEncoderLaws.SwallowingShortens | packages/common/src/encoding.ts:223-238 | swallowing a unit always loses bytes, so it is never harmless |
| TextEncoderLaws.ShortEndsInHigh | packages/common/src/encoding.ts:206-238 | the array is short only for a string that ends in an unpaired high surrogate |
| TextEncoderLaws.RoundTripExactlyWhen | packages/common/src/encoding.ts:317-326 | `decode(encode(s)) == s` if and only if `s` is well-formed, for every string |
| TextEncoderLaws.ReverseRoundTripExactlyWhen | packages/common/src/encoding.ts:317-326 | `encode(decode(b))` is `b` if and only if `b` is the UTF-8 form of some characters, none a surrogate, for every byte sequence |
| TextEncoderLaws.DecodedIsWellFormed | packages/common/src/encoding.ts:317-326 | whatever string was encoded, decoding yields a well-formed one |
| TextEncoderLaws.SwallowExample | packages/common/src/encoding.ts:223-238 | a letter after an unpaired high surrogate is lost |
| TextEncoderLaws.ShortExample | packages/common/src/encoding.ts:206-238 | eight three-byte characters and an unpaired high surrogate lose their last byte |
| TextEncodeInto.BinaryStringIsUtf8 | packages/common/src/encoding.ts:167-198 | replacing each match by the replacer yields exactly the UTF-8 form, with U+FFFD for each unpaired surrogate |
| TextEncodeInto.EncodeInto | packages/common/src/encoding.ts:258-311 | exactly the longest prefix of whole characters that fits is written, the rest of the array is untouched, `written` is its size and `read` its number of characters, which is how many code units it takes up in the string exactly when no surrogate pair is among them |
| TextEncodeInto.LongestFit | packages/common/src/encoding.ts:265-305 | the number of whole characters that fit is the length of the longest prefix whose bytes fit |
| TextEncodeInto.UnitsOfPrefix | packages/common/src/encoding.ts:258-311 | the first characters of a string are the characters of its first code units, as many as they take up |
| TextEncodeInto.ReadOfOneCall | packages/common/src/encoding.ts:282-310 | for every string and size: `read` is the number of code units consumed if and only if no surrogate pair is among these |
| TextEncodeInto.ReadIsUnitsExactlyWhen | packages/common/src/encoding.ts:282-310 | for every string: `read` is the number of code units consumed, whatever the size of the array, if and only if the string holds no surrogate pair |
| TextEncodeInto.PairExample | packages/common/src/encoding.ts:282-310 | one character above U+FFFF: two code units are consumed and `read` is 1 |
| TextEncodeInto.HasRoom | packages/common/src/encoding.ts:269-304 | the cases that fall through write a lead byte exactly when its whole character fits |
| Alea.StepDivides | packages/workflow/src/alea.ts:55-60 | with X the state as a number in base b and p = a·b³−1, a step satisfies b·X' = X + s0·p |
| Alea.StepStaysLive | packages/workflow/src/alea.ts:55-60 | 0 < X < p is kept: the generator never degenerates |
| Alea.SeededIsLive | packages/workflow/src/alea.ts:34-53 | any three seeded digits with carry 1 satisfy 0 < X < p |
| Alea.StepMultiplies | packages/workflow/src/alea.ts:55-60 | a step multiplies X by a·b² modulo p |
| Alea.RunIsPower | packages/workflow/src/alea.ts:55-60 | n steps multiply X by the n-th power of a·b² modulo p, for every n |
| Alea.StepInjective | packages/workflow/src/alea.ts:55-60 | no two live states have the same successor |
| Alea.PurelyPeriodic | packages/workflow/src/alea.ts:55-60 | a run that meets one of its states again has met its start again: there is no lead-in to the cycle |
| Alea.ComesBack | packages/workflow/src/alea.ts:55-60 | every live state comes back, after at most p steps: the output is periodic from its first number on |
| Alea.ReturnsExactlyWhen | packages/workflow/src/alea.ts:55-60 | after n steps a state is back if and only if the n-th power of a·b² leaves X as it is modulo p |
| Alea.Alea.constructor | packages/workflow/src/alea.ts:34-53 | the seeded fields are exact 32-bit fractions, the differences modulo 1, and hold a live state |
| Alea.Alea.Next | packages/workflow/src/alea.ts:55-60 | every intermediate is a multiple of 2^-32 with fewer than 53 bits, so nothing rounds; the new fields hold the next integer state and the output is in [0,1) |
| HeartbeatStream.StepKeepsInv | packages/worker/src/worker.ts:1331-1414 | the invariant of the stream survives every input in every state |
| HeartbeatStream.SafetyOfRuns | packages/worker/src/worker.ts:1331-1445 | in every run `processing` holds exactly when one heartbeat is in flight; a pending heartbeat or stored callback implies it; the callback runs at most once, with nothing in flight, and is the one of the completion; what is sent is an in-order selection of what was accepted |
| HeartbeatStream.FlushOnCompletionUnreachable | packages/worker/src/worker.ts:1400-1403 | the branch that flushes straight from a completion is never taken |
| HeartbeatStream.NothingAfterClose | packages/worker/src/worker.ts:1361-1430 | in every run, once the callback has run nothing is sent and no callback runs, whatever still reaches the mapper |
| HeartbeatStream.ClosedMapperIsSilent | packages/worker/src/worker.ts:1356-1364 | a closed mapper answers any input but a creation by closing again, without a send or a callback |
| HeartbeatStream.NothingBeforeCreate | packages/worker/src/worker.ts:1411-1414 | heartbeats that stray in before the stream is created change nothing |
| HeartbeatStream.FlushedBeforeCallback | packages/worker/src/worker.ts:1386-1409 | when the callback of a flushing completion has run, the last accepted heartbeat was sent |
| HeartbeatStream.NothingFlushed | packages/worker/src/worker.ts:1386-1399 | a completion without flush calls back at once when nothing is in flight; otherwise it drops the pending heartbeat, and the next flush sends nothing and runs the callback of that completion |
| HeartbeatStream.OnlyLaterOnesAreSent | packages/worker/src/worker.ts:1365-1399 | whatever follows a completion without flush, only heartbeats accepted after it are still sent, in order, and when its callback has run the newest of them was |
| HeartbeatStream.CallbackRuns | packages/worker/src/worker.ts:1375-1385 | after the completion the callback has run once flushes outnumber later heartbeats by two, so finitely many heartbeats cannot keep it away |
| HeartbeatStream.CompletionNeverStuck | packages/worker/src/worker.ts:1416-1445 | until the callback of a completed activity has run, a flush is on its way |
| BoundedMapper.StepConserves | packages/client/src/iterators-utils.ts:84-108 | items in the source, being mapped, buffered and yielded make up the mapped source after every step |
| BoundedMapper.RunKeepsPermits | packages/client/src/iterators-utils.ts:61-95 | free permits, held permits and buffered results add up to limit plus concurrency, and no wake-up is lost |
| BoundedMapper.StepShrinks | packages/client/src/iterators-utils.ts:61-109 | every step, spurious wake-ups included, uses up a measure: no run is endless |
| BoundedMapper.RunKeepsOrder | packages/client/src/iterators-utils.ts:84-108 | over every run items are taken in the order of the source, and results are yielded in the order in which the mapping function answered |
| BoundedMapper.NeverStuck | packages/client/src/iterators-utils.ts:61-109 | with a limit of at least 0, or none, a task or the consumer can always move until all is finished |
| BoundedMapper.EveryRun | packages/client/src/iterators-utils.ts:40-109 | for every schedule: a bound on its length, no deadlock, at most limit plus concurrency items pulled and not consumed, no sleeper beside a free permit, items taken in source order, results yielded in the order in which they were answered, and the mapped multiset once finished |
| BoundedMapper.JamsExactlyWhen | packages/client/src/iterators-utils.ts:61-93 | some schedule hangs if and only if the limit, whole or not, is -1 or less, for every concurrency of at least 2 |
| BoundedMapper.CeilingLaws | packages/client/src/iterators-utils.ts:68-79 | a limit that is no whole number acts as the next whole number above it |
| MapAsyncIterable.MapSequentially | packages/client/src/iterators-utils.ts:47-52 | without concurrency the mapped items come in the order of the source |
| MapAsyncIterable.Mapper.Acquire | packages/client/src/iterators-utils.ts:70-75 | one test of the counter is the state machine's step |
| MapAsyncIterable.Mapper.Receive | packages/client/src/iterators-utils.ts:86-90 | an answer of the source is the state machine's step |
| MapAsyncIterable.Mapper.EmitResult | packages/client/src/iterators-utils.ts:92-92 | emitting a result is the state machine's step, so that `RunKeepsOrder` holds of the fields: it goes behind the results already there |
| MapAsyncIterable.Mapper.Yield | packages/client/src/iterators-utils.ts:76-108 | taking a result and releasing a permit is the state machine's step |
| WorkflowOperations.StepKeepsOperations | packages/workflow/src/workflow.ts:70-104 | every step keeps, for every sequence number, the match between its registration, what was recorded and what was logged |
| WorkflowOperations.StartKeepsTaken | packages/workflow/src/workflow.ts:140-186 | a number just taken is fresh, and is started or refused by the scope it is called in |
| WorkflowOperations.CancelKeepsOperations | packages/workflow/src/workflow.ts:78-91 | the cancellation handler, on a registered, resolved or refused operation, keeps that match |
| WorkflowOperations.ResolveKeepsOperations | packages/workflow/src/internals.ts:395-422 | a resolution, expected or not, keeps that match |
| WorkflowGrowth.StepExtends | packages/workflow/src/cancellation-scope.ts:96-122 | no step takes back a flag, a settlement or a deregistration, or moves anything to another scope |
| WorkflowCancellation.CancelledExactlyBelowACall | packages/workflow/src/cancellation-scope.ts:96-122 | with no callback left a scope is flagged if and only if `cancel` was called on it or above it, through non-cancellable scopes too |
| WorkflowCancellation.StepKeepsTree | packages/workflow/src/cancellation-scope.ts:96-160 | every step keeps the tree: a parent comes before its child, a rejected scope is flagged, a scope is rejected exactly by a call on it or by its parent's callback, a flagged one lies below a call |
| WorkflowConditions.StepKeepsConditions | packages/workflow/src/workflow.ts:1119-1146 | every step keeps: a condition is blocked exactly until it settles, and not after its cancellation handler ran |
| WorkflowConditions.StepKeepsReactions | packages/workflow/src/workflow.ts:78-91 | every step keeps: an operation reacts to the cancellation of its scope exactly if the scope is cancellable, and so does a condition; a refused call lies in a flagged scope; a cancellation handler has run only in a rejected one |
| WorkflowConditions.StepKeepsRaces | packages/workflow/src/workflow.ts:1101-1117 | every step keeps a timed condition's timer and condition in a cancellable scope of its own, shared with no other |
| WorkflowCommands.StepKeepsCommands | packages/workflow/src/internals.ts:344-357 | every step keeps: the commands sent and buffered are those issued, in order; only query responses follow a terminal one; there are as many responses to a query as answers were given |
| WorkflowQueries.GoodIsFirst | packages/workflow/src/internals.ts:371-375 | what is handed over is everything before the first query that throws |
| WorkflowQueries.CallIsKnown | packages/workflow/src/internals.ts:366-376 | the call loses no query unaccounted: it is pending or dropped |
| WorkflowQueries.CallDrops | packages/workflow/src/internals.ts:366-376 | the call drops a query if and only if one that throws was buffered |
| WorkflowRuns.RunKeepsInv | packages/workflow/src/worker-interface.ts:178-225 | every legal run of jobs, calls and callbacks keeps all invariants |
| WorkflowRuns.LifeOfAnOperation | packages/workflow/src/workflow.ts:70-104 | over a whole run the commands naming a number are none, a start, or a start then one cancel, and it settles at most once, last |
| WorkflowRuns.CancelOnlyWhileRegistered | packages/workflow/src/workflow.ts:405-419 | a second command for a number is a cancel, issued by its cancellation handler while its completion is registered |
| WorkflowRuns.CancellationReaches | packages/workflow/src/cancellation-scope.ts:96-122 | in every run that has come to rest, flagged, rejected and cancelled-at-or-above are the same, and `consideredCancelled` is that restricted to cancellable scopes |
| WorkflowRuns.CancellationNeverLeaks | packages/workflow/src/cancellation-scope.ts:110-116 | at every moment of every run a flagged scope lies at or below one that was cancelled: never upward, never sideways |
| WorkflowRuns.FlagsStay | packages/workflow/src/cancellation-scope.ts:103-106 | a flag is never taken back |
| WorkflowRuns.CancellationReachesOperations | packages/workflow/src/workflow.ts:152-165 | at rest, in a cancelled and cancellable scope every timer has settled, every refused call has failed and anything else has settled or been asked to cancel; what runs in a scope that is not cancellable was never asked |
| WorkflowRuns.NothingStartsInACancelledScope | packages/workflow/src/workflow.ts:144-149 | a call in a cancelled scope never issues a command, whatever follows, and has failed once the run is at rest |
| WorkflowRuns.NothingStartsBelowACancelledScope | packages/workflow/src/cancellation-scope.ts:111-113 | the same at once in a cancellable scope opened under a flagged one, before any callback has reached it |
| WorkflowRuns.TimedConditionCleansUp | packages/workflow/src/workflow.ts:1101-1146 | at rest a timed condition has settled if and only if its scope was cancelled; settled, it leaves neither timer nor blocked condition; unsettled, it still has both |
| WorkflowRuns.OneTerminalCommand | packages/workflow/src/internals.ts:344-351 | over all activations there is at most one terminal command and only query responses follow it |
| WorkflowRuns.QueriesAnsweredOnce | packages/workflow/src/internals.ts:504-529 | for every run and id: answers, throws and drops never exceed deliveries, and make them up once the workflow function was called and all callbacks ran, whether buffered before the call or arrived after completion; nothing is dropped if and only if every query of the run can be handed over |
| WorkflowRuns.EveryQueryAnsweredExactlyWhen | packages/workflow/src/internals.ts:366-376 | at rest every delivery was answered, or its answer threw, if and only if every query of the run has a type, an id and arguments that can be read |
| WorkflowRuns.DroppedExample | packages/workflow/src/internals.ts:371-375 | a good query buffered behind a bad one is never answered |
| WorkflowRuns.CallbacksAreBounded | packages/workflow/src/cancellation-scope.ts:114-116 | only so many callbacks can run before something new is started: propagation ends |
| WorkflowRuns.RestIsReached | packages/workflow/src/cancellation-scope.ts:114-116 | from every reachable state callbacks alone lead to rest |
| WorkflowOutcomes.CancellationReachesCalls | packages/workflow/src/workflow.ts:140-165 | for every run with a call in some scope, at rest: refused by a cancelled scope it issues nothing and fails; otherwise its start is issued unless the workflow was complete; it has settled if and only if it was resolved or is a timer whose cancellable scope was cancelled; it is asked to cancel only there, and there always unless it was resolved or the workflow completed |
| WorkflowOutcomes.BlockedExactlyWhen | packages/workflow/src/workflow.ts:1119-1146 | for every run with a condition, at rest: it is blocked if and only if it was never true and no cancellation reached its scope, if cancellable; in a cancelled scope none is made |
| WorkflowOutcomes.ScopeFlaggedExactlyWhen | packages/workflow/src/cancellation-scope.ts:96-118 | for every run that opens a scope, at rest: it is flagged if and only if `cancel` was called on it or its parent is flagged, cancellable or not |
| WorkflowOutcomes.RootFlaggedExactlyWhen | packages/workflow/src/cancellation-scope.ts:157-201 | the root scope, at rest, is flagged if and only if `cancel` was called on it |
| WorkflowOutcomes.RaceSettlesExactlyWhen | packages/workflow/src/workflow.ts:1101-1117 | for every run with a timed condition, at rest: it has settled if and only if its function was true, at once or later, its timer fired, or a cancellation from outside reached its scope |
| WorkflowOutcomes.NumbersCountCalls | packages/workflow/src/internals.ts:230-240 | in each space the numbers start at 1 and have no gap: refused calls take theirs too |
| WorkflowOutcomes.TerminalExactlyOnce | packages/workflow/src/internals.ts:344-351 | over all activations the terminal commands are exactly the first way in which the workflow ended |
| WorkflowActivator.CancellationScope.constructor | packages/workflow/src/cancellation-scope.ts:96-118 | a new scope takes over the parent's flag at once, and its own promise is not rejected |
| WorkflowActivator.CancellationScope.Reject | packages/workflow/src/cancellation-scope.ts:103-106 | the flag is set and the promise rejected |
| WorkflowActivator.Activator.constructor | packages/workflow/src/internals.ts:133-250 | a fresh activator is the state machine's start |
| WorkflowActivator.Activator.PushCommand | packages/workflow/src/internals.ts:344-351 | after completion only query responses are kept |
| WorkflowActivator.Activator.GetAndResetCommands | packages/workflow/src/internals.ts:353-357 | the buffered commands are returned and the buffer emptied, as one step |
| WorkflowActivator.Activator.NewScope | packages/workflow/src/cancellation-scope.ts:96-118 | opening a scope is one step |
| WorkflowActivator.Activator.Cancel | packages/workflow/src/cancellation-scope.ts:157-159 | `cancel` is one step |
| WorkflowActivator.Activator.ParentRejected | packages/workflow/src/cancellation-scope.ts:114-116 | the callback on the parent's promise is one step |
| WorkflowActivator.Activator.Schedule | packages/workflow/src/workflow.ts:114-130 | taking a number and running the handler is one step, and the number was not registered before |
| WorkflowActivator.Activator.NextHandler | packages/workflow/src/workflow.ts:140-186 | in a cancelled scope nothing is registered or pushed; otherwise the completion is registered, and the start command pushed unless complete |
| WorkflowActivator.Activator.CancelRequested | packages/workflow/src/workflow.ts:78-91 | the handler left on the scope's promise is one step: a timer is removed and cancelled, anything else asked to cancel, nothing happens to what is no longer registered |
| WorkflowActivator.Activator.Refused | packages/workflow/src/workflow.ts:74-77 | the handler of a refused call is one step and touches no field |
| WorkflowActivator.Activator.MaybeConsumeCompletion | packages/workflow/src/internals.ts:662-668 | a completion is consumed if it is registered, as one step |
| WorkflowActivator.Activator.ConsumeCompletion | packages/workflow/src/internals.ts:671-677 | a registered completion is consumed, and one that is not there gives an error and changes nothing, as one step |
| WorkflowActivator.Activator.Block | packages/workflow/src/workflow.ts:1119-1146 | blocking on a condition is one step |
| WorkflowActivator.Activator.ConditionInner | packages/workflow/src/workflow.ts:1119-1146 | no number is taken in a cancelled scope; an eagerly true condition takes one and is not blocked; any other is blocked |
| WorkflowActivator.Activator.ConditionCancelled | packages/workflow/src/workflow.ts:1128-1135 | the condition's cancellation handler is one step and unblocks it |
| WorkflowActivator.Activator.TimedCondition | packages/workflow/src/workflow.ts:1107-1115 | scope, timer and condition are made in one step |
| WorkflowActivator.Activator.RaceEnded | packages/workflow/src/workflow.ts:1111-1113 | the `finally` block is one step |
| WorkflowActivator.Activator.Finish | packages/workflow/src/internals.ts:623-644 | a terminal command is one step |
| WorkflowActivator.Activator.QueryWorkflow | packages/workflow/src/internals.ts:504-529 | delivering a query is one step, buffered or handed over, and throws exactly when it is handed over and cannot be |
| WorkflowActivator.Activator.StartWorkflow | packages/workflow/src/internals.ts:366-376 | after the call of the workflow function the buffer is empty and its queries are handed over until one throws, as one step; it throws exactly when one of them cannot be handed over |
| WorkflowActivator.Activator.HandOver | packages/workflow/src/internals.ts:371-375 | the loop hands over exactly the queries before the first that throws |
| WorkflowActivator.Activator.Handle | packages/workflow/src/internals.ts:510-528 | a missing type or id, or arguments that cannot be read, throw and leave nothing pending |
| WorkflowActivator.Activator.RespondToQuery | packages/workflow/src/internals.ts:646-659 | an answer is one step |
| WorkflowActivator.Activator.AnswerThrows | packages/workflow/src/internals.ts:646-650 | a result that cannot be converted is one step and sends nothing |
| SignalBuffer.SignalDispatcher.Receive | packages/workflow/src/internals.ts:542-563 | an arriving signal is handed over to the handler set for it if there is one and buffered last otherwise; afterwards no buffered signal can be handed over and every invariant holds |
| SignalBuffer.SignalDispatcher.SignalWorkflow | packages/workflow/src/internals.ts:531-563 | a deliverable signal goes to the handler of its name before the default one and is recorded once; the handler's own calls are carried out, all and in order (with nothing buffered they are all that follows), which ends |
| SignalBuffer.SignalDispatcher.RunHandler | packages/workflow/src/internals.ts:531-540 | the calls that a handler makes are exactly its calls, in order, whatever other handlers they set off |
| SignalBuffer.SignalDispatcher.DispatchBufferedSignals | packages/workflow/src/internals.ts:565-579 | the loop ends even when handlers re-enter it, hands over first the first deliverable signal, leaves none that is deliverable, and changes nothing if there was none |
| SignalBuffer.SignalDispatcher.SetHandler | packages/workflow/src/workflow.ts:1186-1211 | setting a handler hands over first the first signal that waited for it; if none did, or to unset one, exactly the handler of that name changes |
| SignalBuffer.SignalDispatcher.SetDefaultSignalHandler | packages/workflow/src/workflow.ts:1222-1234 | setting a default handler hands over first the first buffered signal; if there is none, or to unset it, exactly the default handler changes |
| SignalBuffer.SignalDispatcher.Promise | packages/workflow/src/internals.ts:542-579 | over the whole run: every signal is buffered or was handed over, exactly once; each name was served in order; under a default handler signals are served in the order of arrival; each went to the handler set for it at that moment; every handler made all its calls in order; the handlers set now are what all calls left |
| SignalBuffer.ExactlyOnce | packages/workflow/src/internals.ts:542-579 | order per name implies conservation of all signals |
| SignalBuffer.TakingFirst | packages/workflow/src/internals.ts:572-575 | taking the first signal that has a handler keeps the order of every name |
| SignalBuffer.Overtaking | packages/workflow/src/internals.ts:548-562 | a signal may overtake the buffer only because none of its name is in it |
| BlockedConditions.ConditionTable.TryUnblockConditions | packages/workflow/src/worker-interface.ts:253-270 | the loop ends, and its resolutions, what stays blocked and the state left are those of passes repeated until one resolves nothing; it returns the number removed |
| BlockedConditions.ConditionTable.OnePass | packages/workflow/src/worker-interface.ts:257-264 | deleting from the map while iterating visits every condition of the pass once |
| BlockedConditions.EachResolvedOnce | packages/workflow/src/worker-interface.ts:253-270 | every condition is resolved once or still blocked, and the last pass found none of the latter true |
| BlockedConditions.NoTrueConditionStays | packages/workflow/src/worker-interface.ts:253-270 | if no function changes the state, exactly the true conditions are resolved, in order, and no true one stays |
| BlockedConditions.NoTrueConditionStaysExactlyWhen | packages/workflow/src/worker-interface.ts:253-270 | for all functions: the loop never leaves a true condition blocked, whatever distinct conditions are blocked and in whatever state, if and only if a condition found false stays false through evaluations that find nothing true |
| BlockedConditions.PairsSuffice | packages/workflow/src/worker-interface.ts:253-270 | it is enough that evaluating one false condition makes no false condition true |
| BlockedConditions.TrueConditionMayStay | packages/workflow/src/worker-interface.ts:253-270 | a function that changes the state can leave a true condition blocked |
| FailurePipeline.Encode | packages/common/src/internal-non-workflow/codec-helpers.ts:22-27 | payloads go through every codec, the first one first |
| FailurePipeline.Decode | packages/common/src/internal-non-workflow/codec-helpers.ts:12-17 | payloads go back through every codec, the last one first |
| FailurePipeline.FirstCodec | packages/common/src/internal-non-workflow/codec-helpers.ts:12-27 | the first codec of a list encodes first and decodes last |
| FailurePipeline.DecodeAllInverts | packages/common/src/internal-non-workflow/codec-helpers.ts:12-27 | invertible codecs in any number undo each other |
| StackTraces.CutoffStackTrace | packages/common/src/converter/failure-converter.ts:33-45 | what is left is the lines before the first one that a pattern matches, joined by line feeds, and all of them if there is none |
| StackTraces.UserLinesAreLongest | packages/common/src/converter/failure-converter.ts:33-45 | what is kept is the longest run of leading lines that no pattern matches |
| StackTraces.LinesOfText | packages/common/src/converter/failure-converter.ts:34-44 | no line holds a line feed, and the lines joined by line feeds are the text, but for the carriage returns before line feeds |
| FailurePipeline.DecodeFailureInverts | packages/common/src/internal-non-workflow/codec-helpers.ts:211-308 | decoding a failure undoes encoding it, every payload at any depth of the cause chain |
| FailurePipeline.VariantRoundTrip | packages/common/src/converter/failure-converter.ts:110-311 | the fields of every error class come back with defaults filled in, except that a type must be named |
| FailurePipeline.AttributesRoundTrip | packages/common/src/converter/failure-converter.ts:188-219 | message and stack trace come back whether or not they travel in the encoded attributes |
| FailurePipeline.ConversionRoundTrip | packages/common/src/converter/failure-converter.ts:110-347 | an error chain of any depth comes back in normal form, which drops falsy causes, if and only if it names its types |
| FailurePipeline.PipelineRoundTrip | packages/common/src/internal-non-workflow/codec-helpers.ts:109-117 | the same through any list of invertible codecs, with either setting of the common attributes; any other chain gives a type error |
| FailurePipeline.UnnamedExample | packages/common/src/converter/failure-converter.ts:170-181 | an activity failure without a type name gives a type error, through any codecs |
| FailurePipeline.ForwardedUnchanged | packages/common/src/converter/failure-converter.ts:210-225 | an error made from a failure and sent on without encoding attributes arrives as it was, failure included |
| FailureWire.EncodesEveryPayload | packages/common/src/internal-non-workflow/codec-helpers.ts:211-257 | at any depth every group of payloads of a failure goes through all codecs, and nothing else of it changes |
| FailureWire.DecodesEveryPayload | packages/common/src/internal-non-workflow/codec-helpers.ts:262-308 | the same for decoding, whoever encoded the failure |
| FailureWire.SendsHiddenExactlyWhen | packages/common/src/converter/failure-converter.ts:210-219 | with `encodeCommonAttributes` the message "Encoded failure", an empty stack trace and encoded attributes are sent at every depth, if and only if no error of the chain was made from a failure with a readable cause |
| FailureWire.ReadableCauseExample | packages/common/src/converter/failure-converter.ts:221-223 | the message of such a cause is sent readably |
| FailureWire.SendsPlainly | packages/common/src/converter/failure-converter.ts:210-334 | at every depth the source is this SDK, and there are encoded attributes exactly if the option is set |
| FailureWire.AttributesOverride | packages/common/src/converter/failure-converter.ts:188-203 | encoded attributes replace the message and the stack trace that they give as text, and nothing else |
| FailureWire.ReadableExactlyWhen | packages/common/src/converter/failure-converter.ts:110-185 | any failure is read as an error if and only if every activity and child workflow failure of the chain, down to a timeout, names its type, and the latter its execution |
| FailureWire.InfoComesBack | packages/common/src/converter/failure-converter.ts:110-185 | for the info of any failure: read and written again it is the same with defaults, and a reset becomes an application failure |
| FailureWire.FailureRoundTrip | packages/common/src/converter/failure-converter.ts:110-347 | for every readable failure of any depth: the failure that is made of the error read from it, anew, keeps class, message, fields, details and causes |
| RuntimeLifetime.Process.Instance | packages/worker/src/runtime.ts:191-211 | the singleton is returned, made only if there is none |
| RuntimeLifetime.Process.Shutdown | packages/worker/src/runtime.ts:474-481 | is called only on the singleton, with nothing alive or being created, and never twice |
| RuntimeLifetime.Process.ShutdownIfIdle | packages/worker/src/runtime.ts:458-464 | the runtime goes exactly when it is idle |
| RuntimeLifetime.Process.BeginCreate | packages/worker/src/runtime.ts:439-446 | a creation in progress keeps the current singleton alive, with its objects and other creations, or starts a new and otherwise empty one |
| RuntimeLifetime.Process.ResolveCreate | packages/worker/src/runtime.ts:427-437 | a created object belongs to the current singleton, which is the runtime that began its creation |
| RuntimeLifetime.Process.FinishCreate | packages/worker/src/runtime.ts:443-449 | a creation ends and the singleton stays, idle exactly if this was the last creation and no object is left |
| RuntimeLifetime.Process.FailCreate | packages/worker/src/runtime.ts:443-455 | a failed creation shuts the runtime down exactly if nothing else holds it |
| RuntimeLifetime.Process.DropReference | packages/worker/src/runtime.ts:344-348 | a closed object is no longer referenced, and the runtime goes exactly if it was the last |
| RuntimeLifetime.Process.CloseConnection | packages/worker/src/connection.ts:63-68 | asking for the singleton again always reaches the runtime that created the client; a second close, or one with holders, fails, and leaves a new idle runtime exactly if there was none and nobody held the connection |
| RuntimeLifetime.SecondClose | packages/worker/src/connection.ts:63-68 | the run: made, closed, closed again; the second close fails and leaves an idle runtime |
| RuntimeLifetime.Process.DeregisterWorker | packages/worker/src/runtime.ts:399-403 | a worker is dropped from the runtime that made it, once |
| RuntimeLifetime.Process.StopServer | packages/worker/src/runtime.ts:421-422 | a server that is shutting down still holds its runtime |
| RuntimeLifetime.Process.ForgetServer | packages/worker/src/runtime.ts:423-425 | and releases it afterwards |
| RuntimeLifetime.Process.Promise | packages/worker/src/runtime.ts:344-481 | in every interleaving whatever is open or being created belongs to the singleton, and a runtime that was shut down, once, has nothing left |

## Left out

- The rxjs operators, `events.on`, promises and `AsyncLocalStorage` themselves: they are the step rules of the state machines (a promise settles once, buffered events are drained before an abort is seen, a callback runs once).
- HeartbeatStream.SafetyOfRuns: the stream, its subject and its sender are modelled on values, a group that ended and the next one for the same activity as one state, so sharing of the subject between activities and updates in place are not captured.
- BoundedMapper.EveryRun: a limit that is infinite or not a number, the error path and a consumer that stops early are not modelled; the limit is a whole number (`CeilingLaws` carries it to others); the source is finite and free of errors and the mapping function answers.
- TextDecoder.DecodeBuffered: the `| 0` on lengths and indices is not modelled, so strings and arrays are assumed shorter than 2^31; `ArrayBuffer` and `undefined` arguments are taken as their bytes.
- TextEncoder.Encode: likewise for the `| 0`.
- Alea.Alea.constructor: the floating-point internals of `Mash.mash` are not modelled; its six 32-bit results are parameters.
- WorkflowRuns.LifeOfAnOperation: `setTimeout` and `clearTimeout` are not modelled; the latter pushes a cancel command for any number it is given.
- WorkflowRuns.CancellationReachesOperations: child workflows and their cancellation are not modelled.
- WorkflowActivator.Activator.ConsumeCompletion: the value or failure a promise settles with, and the backoff loop of local activities, are not modelled.
- WorkflowActivator.Activator.Schedule: validation of options, the arguments of commands and the check that a local activity is registered are not modelled beyond the step in which a call is refused after it took its number.
- WorkflowActivator.Activator.ConditionInner: the first evaluation of the condition's function is a parameter.
- WorkflowRuns.RunKeepsInv: callbacks run in any order, where the language runs them first in, first out; every property is proved for all orders.
- SignalBuffer.SignalDispatcher.SignalWorkflow: a handler is the list of handler settings in its synchronous part, any list for each signal; what it does after its first await is further calls of the same methods. A signal without a name is not modelled. Payloads are assumed to convert: `arrayFromPayloads` can throw after the signal has left the buffer, which loses it and ends the loop early.
- BlockedConditions.ConditionTable.TryUnblockConditions: condition functions that add conditions are not modelled.
- FailurePipeline.PipelineRoundTrip: payload converters are assumed to read back what they wrote; JSON text and protobuf bytes are not modelled, and the failure info is a sum type where the protobuf has optional fields.
- StackTraces.CutoffStackTrace: regular expressions are any predicates on lines.
- FailureWire.FailureRoundTrip: payloads are assumed to be what the converter writes for what it reads.
- FailurePipeline.ForwardedUnchanged: a second conversion of an error with a cached failure while attributes are encoded, which mutates the cached object, is not modelled.
- `decodeOptionalMap` and the other map helpers: not modelled.
- RuntimeLifetime.Process.Shutdown: direct calls of `shutdown` and `install`, log polling and signal handlers are not modelled; a call of a native function succeeds once for an open object and fails otherwise.
- Interceptors: taken as identity.
- Counters of cached workflows and heartbeating activities, gRPC clients, retries, schedules, TLS, tracing, bundling, the command line and the Rust bridge: options and input/output.
