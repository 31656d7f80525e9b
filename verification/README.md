# A verified model of the itb3 loop harness and C++ binding

The C++ binding of itb3 wraps a library of cipher Pipelines: handles with RAII
owners, incremental stream sessions, and buffer-filling calls. Beside it stands
the `loop` stress harness, which hammers shared Pipelines from many threads and
checks every round trip. This project models the parts of both that have state,
concurrency or arithmetic of their own and proves what they promise.

The library behind the C entry points enters only through these assumptions:

- decrypt inverts encrypt on one surface under one keying, if the keying held
  from begin to completion on both sides; otherwise any bytes may come out;
- a successful rekey leaves the handle under a new keying and returns a blob of
  it, a failed one changes nothing;
- load yields a fresh handle with the keying its blob restores;
- a session delivers its output in order; a read before end may find nothing, a
  read after end makes progress or reports finished, and finished comes with the
  last bytes; a call may also fail, and errors are sticky.

About the platform it assumes that double is IEEE 754 binary64 rounded to
nearest, that each product and each sum is rounded on its own (no fused
multiply-add), and that strtod rounds correctly and runs in the C locale.

How the pieces fit together:

- `protocol.dfy` is the harness as a transition system: main, any number of
  workers, the reader/writer lock, two barriers, the stop flag, the active
  count, the Pipelines and the retained blobs. One action is one step of one
  thread on shared state, with the answers of the library, the random source
  and the clock as its oracle. `protocol_phases`, `protocol_keying`,
  `protocol_counts` and `protocol_progress` hold the invariants and the
  termination measure, `protocol_theorems`, `protocol_history`,
  `protocol_totals` and `protocol_verdict` what follows for all runs.
- `ops.dfy` carries the maintenance operations out on a run state of Pipeline
  owners (`handles.dfy`) and shows that their single steps in the transition
  system come to the same.
- `sessions.dfy`, `pump.dfy`, `pump_alloc.dfy` and `retry.dfy` are the session
  contract and the loops over it, with array writes and error exits.
- `powers.dfy`, `words.dfy`, `splitmix.dfy` and `payload.dfy` are the seeded
  plaintexts, and `crossover.dfy` what comparing them detects; `opts.dfy` the
  query builder and a reader that inverts it; `digits.dfy`, `size.dfy` and
  `duration.dfy` the printers and parsers, with `binary64.dfy` the rounding and
  `duration_trip.dfy` what a printed duration is read back as and
  `duration_forms.dfy` what single ones mean; `argv.dfy` the command line;
  `summary.dfy` the totals and the verdict.

`dafny verify dfyconfig.toml` checks the whole project.

Where the code and its own comments disagree, the model follows the code:

- `src/stream.cpp:93-98` says an exact-size buffer never runs out on a
  well-formed pump. It does whenever the whole output has been drained before
  the input ends: `Pump.ExactSizeRefused` gives a session, and `Pump.Fits` with
  `Pump.PumpInto` and `Pump.SafeSizes` say exactly when a buffer suffices.
- `loop/payload.cpp:21-22` says that under the rotating mode no two encrypt
  calls see the same plaintext. Within one seeded generator this holds exactly
  from 8 bytes up (`Payload.FillsRepeatOnlyWhenShort`). Across the workers of a
  run it holds from 8 bytes up while no generator has drawn 1018231460777725123
  words (`Payload.RunWideDistinct`), and not beyond (`Payload.FillsMeet`).
- `loop/size.cpp` prints durations that its own parser reads back one nanosecond
  short, such as 1.001s. `DurationTrip.Survives` is the exact condition, and
  `DurationTrip.HumanParses` proves it for every duration.

## Model

| member | source | states |
|---|---|---|
| `ProtocolTheorems.MismatchUnreachable` | loop/worker.cpp:146-278 | In every state any run of any number of workers reaches, the DATA MISMATCH exit has not been taken and no empty Pipeline has been dereferenced, given that decrypt inverts encrypt under one keying |
| `Crossover.CrossoverIsCaught` | loop/main.cpp:843-846 | Should a decrypt return any other seeded plaintext of the run, another worker's or an earlier one of its own, of at least 8 bytes, the comparison ends the process with nothing counted and nothing following |
| `ProtocolTheorems.RoundTripUnderOneKeying` | loop/worker.cpp:158-254 | While a decrypt is in flight the wire it reads was sealed from this iteration's plaintext under the surface and the keying its handle has right now |
| `ProtocolHistory.EncryptsItsRefill` | loop/worker.cpp:150-156 | Under the rotating mode every iteration encrypts, and compares with, the bytes of its own refill |
| `ProtocolHistory.KeepsItsPlaintext` | loop/worker.cpp:150-156 | Under every other mode a worker's plaintext is, at the end of any run, the one it started with |
| `ProtocolTheorems.UseIsLive` | loop/worker.cpp:158-254 | An open session or call is on an allocated handle, engaged in the slot of its iteration, keyed as when it began, and nobody holds the write lock |
| `ProtocolTheorems.MutationFindsNoUse` | include/itb3.hpp:316-320 | The rekey call on a handle, whatever keying comes out, the swap that replaces it and the destructors find every worker's session and call closed |
| `ProtocolTheorems.OnlyMutationsChange` | loop/ops.cpp:56-121 | No other action changes an allocated handle's keying or frees it |
| `ProtocolTheorems.BlobsRestoreKeying` | loop/ops.cpp:31-126 | The retained blobs restore the live keyings whenever no rekey stands between its two steps, so also after every failing rotation or reopen |
| `ProtocolTheorems.OnlyRekeyChangesKeying` | loop/ops.cpp:56-76 | While workers run, a slot's keying changes only by a successful rekey of that very slot under the write lock, and to the rekey's masters |
| `ProtocolTheorems.SwapKeepsKeying` | loop/ops.cpp:97-121 | The swap of a reopen frees the old handle and keeps the keying of both slots |
| `ProtocolHistory.RotationsAreReal` | loop/ops.cpp:56-81 | In any run, a worker that reaches the rekey counter has, since it took the lock, called Rekey with success on every engaged slot, and each slot's keying and blob are that call's key |
| `ProtocolHistory.ReopensAreReal` | loop/ops.cpp:96-126 | In any run, a worker that reaches the reopen counter leaves every engaged slot with a handle that did not exist when it took the lock, and the handle held then is no longer allocated |
| `ProtocolVerdict.EngagedForShape` | loop/main.cpp:824-836 | From the spawn to the destructors the streaming Pipeline is engaged exactly for stream, stream_one_shot and both, the message one exactly for message and both |
| `ProtocolTheorems.HandlesAccounted` | loop/main.cpp:824-836 | Every allocated handle is owned by one Pipeline or is being swapped in; the two Pipelines never share one; at process exit none is left |
| `ProtocolTheorems.NoDeadlock` | loop/worker.cpp:326-356 | From every reachable state before the exit some action other than a poll is enabled, also after a failed warmup |
| `ProtocolTheorems.Terminates` | loop/main.cpp:873-921 | With a fixed budget, or once a stop is requested, every run takes at most Work actions besides polls, and where it stops it has reached the process exit |
| `ProtocolTheorems.WorkAtStart` | loop/worker.cpp:341-356 | The bound on a whole run in terms of the configuration alone |
| `ProtocolProgress.EveryActionWorks` | loop/worker.cpp:326-356 | Every action other than a poll strictly decreases the work measure, and a poll never increases it |
| `ProtocolProgress.NeverStuck` | loop/main.cpp:887-921 | Progress from the invariant: a lock holder can move, full barriers open, and main moves once every worker waits for it |
| `ProtocolProgress.RunToExit` | loop/main.cpp:873-935 | From every good state with bounded work there is a run without polls that ends in the process exit within the work there is |
| `ProtocolTheorems.StopIsPrompt` | loop/worker.cpp:341-354 | After stop is set it stays set, and along any continuation each worker completes at most one more iteration, one more rekey and one more reopen |
| `ProtocolTheorems.PollStops` | loop/main.cpp:907-917 | In any run, from the poll that sees the deadline or a signal on, with no assumption on the budget: the stop flag is set for good, the actions to come are bounded by the work left, what they run into is the exit, and each worker completes at most one more iteration, rotation and reopen |
| `ProtocolTheorems.PollOnlyStops` | loop/main.cpp:907-917 | A poll changes the stop flag only, never takes a stop back, and is without effect when it sees nothing |
| `ProtocolVerdict.StopHasReason` | loop/worker.cpp:312-319 | At every point of every run the stop flag is set exactly when some earlier call or draw of a worker was refused or some earlier poll saw the deadline or a signal |
| `ProtocolTheorems.ErrorsStop` | loop/worker.cpp:312-319 | A recorded worker error implies that the stop flag is set |
| `ProtocolTotals.ExitStatusIsTheVerdict` | loop/summary.cpp:210-244 | A run that reaches the summary exits with 0 exactly when no worker failed, and with 1 otherwise |
| `ProtocolVerdict.ExitsZeroUnlessRefused` | loop/main.cpp:824-935 | A run that has exited did so with 0 exactly when nothing main or a worker asked of the library or the generators was refused in the whole run, the builds and first fills included, and with 1 otherwise |
| `ProtocolTotals.AbortedExitsOne` | loop/main.cpp:824-860 | A run that gives up before its workers, for a Pipeline or a plaintext it could not make, exits with 1 |
| `ProtocolTotals.SurfacesRotate` | loop/worker.cpp:170-183 | Shape both takes stream, message and one-shot in turn, so any three consecutive iterations use all three and both Pipelines; every other shape keeps to itself |
| `ProtocolTotals.OpsAddUp` | loop/ops.cpp:140-154 | From the summary on, in a failure-free run, the rekey and blob-cycle counters are the sums over workers of floor((iters - 1) / every) |
| `ProtocolTotals.OpsOfOne` | loop/ops.cpp:140-154 | The same for each single worker that returned without an error, also when others failed |
| `ProtocolTotals.BytesAddUp` | loop/worker.cpp:274-276 | In every reachable state, failing runs included, the encrypted and the decrypted totals are both completed iterations times payload |
| `ProtocolTotals.BudgetIsSpent` | loop/worker.cpp:341-347 | No worker exceeds a fixed budget, and without a stop each one completes exactly its budget, warmup included |
| `ProtocolTotals.BaselineSeesWarmupOnly` | loop/main.cpp:887-895 | When main takes the baselines every worker has ended iteration 0, none has begun iteration 1, and each one completed one iteration or failed in it |
| `ProtocolTotals.ActiveCountsWorkers` | loop/worker.cpp:282-290 | From the moment main sets it, active is the number of workers not yet returned; the finish instant has been stamped once exactly when all have; from the release on elapsed time is not negative |
| `ProtocolTotals.StartIsBaseline` | loop/main.cpp:901-903 | The start instant is main's clock reading at the baselines; no other action of the run changes it |
| `ProtocolTotals.LastReturnStamps` | loop/worker.cpp:282-290 | The return of the last worker stamps the finish instant with that worker's clock reading, and sets active to 0 |
| `ProtocolTotals.StampIsLast` | loop/worker.cpp:282-290 | The action that changes the finish instant is the only stamp of the run and leaves every worker returned |
| `ProtocolPhases.KeepsPhase` | loop/main.cpp:873-921 | Every action keeps the barrier, spawn, join and active-count invariants |
| `ProtocolKeying.KeepsSafe` | loop/ops.cpp:56-121 | Every action of every worker and of main keeps the lock, handle, blob and round-trip invariants |
| `ProtocolCounts.KeepsCounts` | loop/worker.cpp:274-276 | Every action keeps what each worker's counters are at its program point, and their sums |
| `Ops.RekeyAllMeaning` | loop/ops.cpp:56-76 | A rotation succeeds exactly when every engaged rekey does; then every slot has its new masters; failing, it has rotated a prefix and left the rest; handles never change and blobs agree either way |
| `Ops.CycleAllMeaning` | loop/ops.cpp:96-121 | A reopen changes no keying and no blob; succeeding, every slot has a handle that did not exist before and the old one is freed; failing, the slots from the failing one on keep theirs |
| `Ops.MaintenanceKeepsMasters` | loop/ops.cpp:140-154 | A rekey followed by a reopen in one maintenance step keeps the new masters, also when the reopen fails half way; without a rotation no keying changes |
| `Ops.RekeyBySteps` | loop/ops.cpp:31-81 | A worker that starts a due rotation and runs on alone, through draws, lock, calls, counter and unlock, within eight steps, does what the whole rotation does, counts it exactly on success, and goes on to the reopen or to its return |
| `Ops.CycleBySteps` | loop/ops.cpp:93-126 | Likewise for a due reopen, up to the next iteration |
| `Ops.MaintenanceBySteps` | loop/ops.cpp:140-154 | The whole maintenance step taken alone, within sixteen steps, ends in the Pipelines, the counters and the way out of the specification, whatever is due and whatever fails |
| `Ops.MaintainedDone` | loop/ops.cpp:140-154 | What that specification comes to, in handles, keyings and blobs: it succeeds exactly when every due draw, Rekey and Load of an engaged slot does; a successful reopen leaves every engaged slot with a handle not allocated before and frees the old one; a successful rotation leaves each slot's keying and blob at its new masters; without a due reopen, or after a failing rotation, no handle changes; without either nothing does |
| `Ops.RunState.Build` | loop/main.cpp:705-745 | Init and the Save after it engage the slot with the next handle, allocated under the key of Init, and retain that key's blob; a failing Init or Save leaves slots, blobs and live handles as they were |
| `Ops.RunState.RekeyPipes` | loop/ops.cpp:31-81 | The method changes the run state as the rotation specification says, counts one rekey on success only, and requests a stop on every failure, a failed random draw included |
| `Ops.RunState.BlobCyclePipes` | loop/ops.cpp:93-126 | The method loads, move-assigns and frees as the reopen specification says, counts on success only, and requests a stop on failure |
| `Ops.RunState.WorkerMaintenance` | loop/ops.cpp:140-154 | The whole maintenance step on the run state does what MaintainedDone says of slots, handles, keyings and blobs before and after it; each counter grows by one exactly when its operation was due and succeeded; a failure requests a stop |
| `Summary.FinalSummary` | loop/summary.cpp:202-221 | The loop's totals, wall times included, are the sums over the workers, and the code is 0 exactly when no worker recorded an error |
| `Summary.RunSummary` | loop/main.cpp:919-935 | Where run calls it, both byte totals are iterations times payload, elapsed time is not negative, the code is the one the process goes on to exit with, and in a failure-free run rekeys and reopens are those the intervals call for |
| `Handles.StepSound` | src/pipeline.cpp:195-229 | Each construct, move, move-assign (self included), close and destroy keeps one owner per live handle and hands the library only live handles |
| `Handles.AnySequenceSound` | include/itb3.hpp:184-220 | Over any sequence of these operations no handle has two owners, none is freed twice, and every handle used is live at that moment |
| `Handles.AllFreedOnce` | src/pipeline.cpp:195-220 | Once every object is gone each handle ever handed out has been freed exactly once |
| `Handles.Owner.MoveFrom` | src/pipeline.cpp:204-208 | The move constructor takes the handle and leaves the source empty, as its ledger step says |
| `Handles.Owner.MoveAssign` | src/pipeline.cpp:210-220 | Move-assignment frees the old handle, takes the new one, and does nothing on itself, as its ledger step says |
| `Handles.Owner.Release` | src/stream.cpp:61-70 | Close and the destructors free the handle once and leave the object empty |
| `Handles.DestroyAll` | src/pipeline.cpp:195-202 | Destroying all owners, whatever moves went before, leaves no live handle and every handle freed exactly once |
| `Sessions.Session.Read` | include/itb3.hpp:212-216 | The assumed read contract: bytes in order, at most the room given, progress or finished after end, finished together with the last bytes |
| `Pump.PumpInto` | src/stream.cpp:85-128 | For every input length and schedule the session is fed a prefix of src in slices of at most 1048576 bytes, the largest of exactly that size when the input has as much; dst holds a prefix of the output, and the result is the full length exactly when the output fits; an error only if the session misbehaves |
| `Pump.Feed` | src/stream.cpp:112-122 | The feed loop accepts all of src in order and drains after each slice until nothing is ready, or stops because the output cannot fit or the session misbehaves |
| `Pump.FeedSlice` | src/stream.cpp:114-121 | One slice of at most 1 MiB is written and drained to silence, with what is fed, drained and still to come accounted for |
| `Pump.DrainOne` | src/stream.cpp:90-110 | One read into the free tail; too small exactly when no tail is left; an out-of-range count is an error and never moves the cursor |
| `Pump.SafeSizes` | src/stream.cpp:90-104 | The sizes that work for every schedule: any larger than the output, and the exact size only with no input and some output |
| `Pump.ExactSizeRefused` | src/stream.cpp:93-98 | A one-byte session refused an exact-size buffer, against the comment that this never happens |
| `Pump.PumpBody` | loop/worker.cpp:84-116 | The harness's own pump leaves the whole output in order in the accumulator, writes at most 1048576 bytes at a time, reports the stage of the session's last call, and reports failure exactly when the session failed |
| `PumpAlloc.OutCapExact` | src/error.cpp:61-70 | Under 64-bit wraparound the capacity is five quarters of the payload plus 131072 whenever that is representable, the payload otherwise, and never below the payload |
| `PumpAlloc.Attempt` | src/stream.cpp:139-149 | One attempt opens one session and frees it on every way out |
| `PumpAlloc.PumpAlloc` | src/stream.cpp:137-154 | At most three sessions, never two at once, all freed; the result is the last session's whole output or what the doubling retries come to |
| `PumpAlloc.ThreeAttempts` | src/stream.cpp:137-154 | What the retries come to, spelt out: the capacity, twice it, four times it, each on a fresh session and only when doubling does not overflow |
| `PumpAlloc.GivesOutOnlyWhenFull` | src/stream.cpp:144-152 | Capacities double without overflow, and an output shorter than the last capacity tried is always returned in full |
| `Retry.Retried` | src/pipeline.cpp:58-72 | A call with one retry ends in an output exactly when the first fits the buffer or the second has not outgrown the size first reported, and which output it is; otherwise in the status of the deciding call, 5 for a second growth and 99 for a count beyond the buffer |
| `Retry.BufCall` | src/pipeline.cpp:49-73 | One or two calls from a buffer of 65536 bytes, the second exactly when the first output did not fit |
| `Retry.CipherCall` | src/pipeline.cpp:279-301 | The same from the expansion bound, so that an output no longer than its input never needs the second call |
| `Retry.CipherCallInto` | src/pipeline.cpp:309-324 | One call, nothing written past the output; an output that does not fit is status 5, an out-of-range length status 99 |
| `SplitMix.MixIsBijective` | loop/payload.cpp:34-37 | The output mix is a bijection on 64-bit words, with its inverse given |
| `SplitMix.FullPeriod` | loop/payload.cpp:33 | From any state every state is reached after exactly one number of draws below 2^64 |
| `SplitMix.SplitMix64` | loop/payload.cpp:31-38 | One call returns the next state and the draw of the specification |
| `SplitMix.KnownDraws` | loop/payload.cpp:31-38 | From state 0 the first three draws are E220A8397B1DCDAF, 6E789E6AA1B965F4 and 06C45D188009454F |
| `SplitMix.KnownSeeds` | loop/payload.cpp:66-69 | The first worker is one off the raw seed, later ones follow, and the last seed wraps to 0 |
| `SplitMix.NoWordRepeats` | loop/payload.cpp:31-38 | One generator repeats no word within 2^64 draws |
| `SplitMix.WorkersDiffer` | loop/payload.cpp:58-69 | Two workers that draw one word at one draw index are the same worker |
| `SplitMix.SameDraw` | loop/payload.cpp:31-38 | Two streams draw one word at any two indices exactly when the one further along has passed through the state of the other |
| `SplitMix.Passes` | loop/payload.cpp:33 | A stream reaches a state after n draws exactly when the word of n is the number of steps between them |
| `SplitMix.WorkerReaches` | loop/payload.cpp:66-69 | One worker reaches the start of another after n draws exactly when n steps come to the distance of their ids modulo 2^64 |
| `SplitMix.WorkersNeverMeet` | loop/payload.cpp:58-69 | Two of at most ten workers never draw the same word, at whatever two indices below 1018231460777725123 |
| `SplitMix.WorkersMeet` | loop/payload.cpp:66-69 | At that many draws each worker does reach the start of the one before it |
| `Words.WordSuccessor` | loop/payload.cpp:33 | The embedding of counts into 64-bit words takes successor to wrapping increment |
| `Words.WordInjective` | loop/payload.cpp:66-69 | Different counts below 2^64 are different words |
| `Words.Congruent` | loop/payload.cpp:33 | Two counts are the same word exactly when they are congruent modulo 2^64 |
| `Payload.FillSeeded` | loop/payload.cpp:103-108 | The fill loop lays the drawn words out least significant byte first, cuts the last one off, and leaves the generator after exactly those draws |
| `Payload.KnownFill` | loop/payload.cpp:103-108 | Ten bytes from state 0 are AF CD 1D 7B 39 A8 20 E2 F4 65 |
| `Payload.FillPayload` | loop/payload.cpp:94-122 | Pattern-zero makes every byte 0, pattern-ff every byte 0xFF, pattern-ascii byte k 0x41 + k % 26; an unseeded fixed or rotating buffer is what the system generator delivered, a seeded one the drawn words; only a failing system generator fails; only seeded draws move the generator, by one word per eight bytes or part of them |
| `Payload.WorkersHoldDistinctBuffers` | loop/payload.cpp:62-64 | After equally many fills, as in the fixed mode, buffers of at least 8 bytes of any two workers differ |
| `Payload.RunWideDistinct` | loop/payload.cpp:21-22 | Any two different fills of a run, by one worker or by two of at most ten, after however many fills each, are different buffers of at least 8 bytes, while no generator has drawn 1018231460777725123 words |
| `Payload.FillsAgree` | loop/payload.cpp:103-108 | Two fills of at least 8 bytes agree exactly when the generator further along has passed through the other's state |
| `Payload.FillsMeet` | loop/payload.cpp:21-22 | That many fills of 8 bytes are too many: the next one repeats another worker's first |
| `Payload.Plaintext.Refill` | loop/worker.cpp:150-156 | Each refill of a seeded worker holds the next buffer of its stream |
| `Payload.FillsRepeatOnlyWhenShort` | loop/payload.cpp:103-108 | No two fills of one generator within its period agree if and only if the buffer holds at least 8 bytes |
| `Payload.LanesDetermine` | loop/payload.cpp:104-106 | Eight equal bytes make equal words |
| `OptsQuery.Opts.Set` | src/opts.cpp:43-52 | The query string is at all times the encoding of the list of pairs set so far |
| `OptsQuery.Opts.EncodeInto` | src/opts.cpp:26-39 | The loop appends the percent-encoding of its input |
| `OptsQuery.QueryRoundTrip` | src/opts.cpp:19-52 | Splitting at & and the first = and percent-decoding (section 2.1 of RFC 3986) gives back exactly the pairs in order, for all byte strings, whether or not + is read as a space |
| `OptsQuery.DecodeEncode` | src/opts.cpp:19-39 | Percent-decoding inverts the encoder on every byte string |
| `OptsQuery.SafeCharacters` | src/opts.cpp:19-24 | A byte stands for itself exactly when it is an ASCII letter, a digit or one of - . _ ~ and the comma |
| `OptsQuery.KnownEscapes` | src/opts.cpp:26-39 | Escapes are two upper-case hexadecimal digits |
| `OptsQuery.KnownQuery` | src/opts.cpp:43-52 | The pairs (a, b) and (c, d/) are a=b&c=d%2F |
| `DurationTrip.HumanParses` | loop/size.cpp:120-166 | For every 64-bit count of nanoseconds, what its rendering is read back as in binary64: itself exactly when it survives, a nanosecond less below a minute, a binary64 neighbour at most half a step away above; refused exactly when more than 512 past 9.2e18 |
| `DurationTrip.UpTo53Bits` | loop/size.cpp:120-166 | Up to 2^53 nanoseconds at most one nanosecond is lost, and none from one minute on |
| `DurationTrip.WholeSeconds` | loop/size.cpp:120-166 | Whole seconds are read back exactly up to 2^62 nanoseconds, and beyond that exactly when their number is even |
| `DurationTrip.Examples` | loop/size.cpp:120-166 | The renderings of 1001000000 and of 249 nanoseconds are read back as 1000999999 and 248 |
| `DurationTrip.PastTheLimit` | loop/size.cpp:161-163 | Renderings of up to 512 nanoseconds past the limit are accepted, as the limit |
| `Binary64.RoundNearest` | loop/size.cpp:141 | Rounding gives a binary64 number, and no other is closer |
| `DurationForms.TiesToEven` | loop/size.cpp:141 | Ties go to the even neighbour, past 2^53 and at half the least positive number |
| `Duration.HumanInjective` | loop/size.cpp:226-257 | Two durations with the same rendering are the same duration |
| `Duration.TermsOfHuman` | loop/size.cpp:136-160 | In either arithmetic, reading a rendering comes to the sum over its parts of the part's share of its unit, whatever parts are suppressed and zeros stripped |
| `Duration.HumanIsExact` | loop/size.cpp:226-257 | In exact arithmetic the terms of a rendering add up to the duration |
| `Duration.HumanDuration` | loop/size.cpp:226-257 | The printer's branches produce the rendering of the specification, negative input by its absolute value |
| `DurationForms.HumanForms` | loop/size.cpp:220-257 | The rendering itself: 0s; milliseconds below one second; seconds, after minutes from one minute on, after hours from one hour on, each modulo 60 and the fraction last |
| `Duration.AppendFraction` | loop/size.cpp:46-57 | The loop appends the nine-digit fraction without its trailing zeros, nothing for zero |
| `Duration.DecimalsMeaning` | loop/size.cpp:46-57 | The digits appended denote the remainder exactly and do not end in a zero |
| `Duration.ParseDuration` | loop/size.cpp:120-166 | The scanning loop computes the sum of the terms with every literal, product and sum rounded to binary64, exponents and hexadecimal literals included, or fails where the grammar does |
| `Duration.StrtodPrinted` | loop/size.cpp:141 | A printed number is read in full up to its unit, with no exponent or hexadecimal prefix mistaken |
| `Duration.UnitFound` | loop/size.cpp:147-156 | The table search finds the unit that was printed and not a shorter one that starts it |
| `DurationForms.UnitsMean` | loop/size.cpp:126-159 | A whole number of ns, us, ms, s, m or h is read as exactly 1, 10^3, 10^6, 10^9, 60 * 10^9 or 3600 * 10^9 times it, up to 2^53 nanoseconds |
| `DurationForms.ExponentReads` | loop/size.cpp:141 | A number with e or E, a sign or none, and digits is read in full as its digits times that power of ten, whatever stands in front of its unit |
| `DurationForms.ScientificMeans` | loop/size.cpp:141-159 | n, e, k, ns is read as n times ten to the k, up to 2^53 |
| `DurationForms.HexReads` | loop/size.cpp:141 | After 0x or 0X hexadecimal digits are read in full as their value, up to the unit |
| `DurationForms.HexDigits` | loop/size.cpp:141 | The digits' values, in both cases and in their places |
| `DurationForms.Refused` | loop/size.cpp:133-157 | The empty text, a sign in front, a number without a unit and a number before a letter that begins no unit are refused |
| `Size.ParseSize` | loop/size.cpp:66-114 | Accepts exactly the strings that read as a size and returns the product they read as |
| `Size.SizeExactly` | loop/size.cpp:66-114 | Trimmed text of fewer than 64 characters of the form digits, spaces, suffix in any case, whose product fits a signed 64-bit integer: accepted if and only if of this form, with that value |
| `Size.SizeMeaning` | loop/size.cpp:76-114 | In any layout and any case, K, KB and KIB multiply by 1024, M, MB and MIB by 1048576, G, GB and GIB by 1073741824, B and nothing by 1, and the only bound is 2^63 - 1 on the product |
| `Size.SizeExamples` | loop/size.cpp:66-114 | 16MB is 16777216, 2 GiB is 2147483648, 5k is 5120 |
| `Size.SuffixFound` | loop/size.cpp:76-95 | The table order picks the suffix that was written even where a shorter one also ends the text |
| `Size.RangeTest` | loop/size.cpp:106-112 | The two overflow tests together are exactly the 64-bit bound on the product |
| `Size.TrimmedUpper` | loop/size.cpp:24-42 | The loops trim white space on both sides, fold the case, and refuse empty and overlong text |
| `Argv.ParseArgv` | loop/main.cpp:270-321 | The argument loop computes the parse of the specification, errors and help included |
| `Argv.SpellingIsFree` | loop/main.cpp:266-269 | Parsing a list of settings gives their meaning, into which no spelling enters |
| `Argv.Respelling` | loop/main.cpp:270-321 | Rewriting any occurrence among -n v, --n v, -n=v, --n=v and the bare boolean leaves the outcome unchanged, refused values included |
| `Argv.ParsedIsSpelt` | loop/main.cpp:270-321 | Every accepted argument list is the spelling of some settings |
| `Argv.LastWins` | loop/main.cpp:315-318 | Each slot ends with its last assignment, or its default when nothing names it |
| `Argv.ParseAfter` | loop/main.cpp:270-321 | Arguments behind spelt settings are reached exactly when every setting is accepted, with the slots as these leave them; otherwise the first refused value is the outcome |
| `Argv.AsksForHelp` | loop/main.cpp:278-282 | -h, --h, -help and --help give the usage, whatever the table and whatever follows |
| `Argv.NoFlag` | loop/main.cpp:274-277 | An argument that is empty, a lone dash or without a dash is refused as positional |
| `Argv.UnknownName` | loop/main.cpp:291-302 | A name the table does not have, with or without a joined value, is refused by that name |
| `Argv.MissingValue` | loop/main.cpp:303-314 | A flag that takes a value, at the end of the arguments, is refused for want of it |

## Left out

- Protocol: worker_main, iterate and run are a transition system on values and not methods over shared objects, because their steps interleave; update in place is modelled for the maintenance operations in Ops, for the pumps and for the fills.
- Protocol: the worker's recorded error text is reduced to whether one was recorded; a failing Save in build_pipeline is the same outcome as a failing Init.
- Protocol: the 64-bit counters, the iteration number and the blob and rekey counters are unbounded; a run long enough to overflow them is not considered.
- Protocol: the configuration is taken as validated (at least one worker, at least one payload byte); memory exhaustion and failing thread creation are not modelled.
- Protocol: the duration deadline and signals are a stop request that any poll may make; the 100 ms poll and condition-variable wake-ups are polls. Lock fairness is not decided by the code and not assumed.
- Ops.RunState.RekeyPipes: a rekey whose reported blob length is beyond the buffer would change the keying and still be an error (src/pipeline.cpp:68-70); the library is assumed not to report that.
- Sessions.Session.Read: the library's session is a plan of outputs, production times and faults; threads and blocking inside the library are not modelled, only that a read after end returns with progress or the end.
- Pump.PumpBody: trusts the reported drain count as the code does, so sessions that report more than the slice are excluded by its precondition; pump_into checks the count and is proved without that exclusion.
- PumpAlloc.PumpAlloc: allocation always succeeds; a session's error and a refused begin are one failing outcome.
- Retry.BufCall: the zero fill and the wipes of the buffers are not modelled, nor is the re-run of Init on a fresh handle.
- Payload.FillPayload: the system generator is an input that delivers a full buffer or fails; the loop over short reads in fill_random is not modelled.
- Duration.ParseDuration: binary64 overflow is not modelled; a number that large stays finite in the model and is refused by the limit just as infinity is.
- Duration.HumanDuration: the one 64-bit value whose negation overflows is not singled out.
- Size.ParseSize: characters are those of the C locale.
- Argv.ParseArgv: a flag's own conversion of its value is an arbitrary predicate, and its slot holds the accepted text; the usage text and the messages are not modelled.
- Summary.FinalSummary: wall times are inputs; throughput, pool statistics, memory figures and both output formats are not modelled.
- Profile record probing, narrow_shape and the fill of keystream layers: they depend on text of the library's records, or are one expression.
- human_bytes, human_rate, percentages: floating-point rendering.
- Runtime knobs, status tables, last_error, version strings, benches, the eitb tool, tests and build scripts: thin or easy.
- Memory wiping and every claim about security.
