# Verification of the virtual machine core

This project models the core of a TON/Everscale virtual machine written in Rust and proves what it
promises. It covers five parts of the system.

* **Continuation codec** (`Encoder`, `Layout`, `Serializer`, `Deserializer`, `RoundTrip`, `Encodable`,
  `Decoded`, `Faultless`): the worklist serializer and deserializer of stack items and continuations.
  The loops are proved equal to a structurally recursive encoder and to a decoder that inverts it, at
  any nesting. `Layout` gives the written form bit by bit, `Decoded` and `Faultless` say what the
  decoder does with arbitrary input.
* **Validator election** (`ElectionSpec`, `ElectionScan`, `Election`): the scan with its sorted list,
  rounding, near-optimality, refunds and conservation of stake.
* **Control flow** (`Machine`, `Storage`, `Control`, `Driver`, `Structured`, `Simulation`,
  `ProgramRuns`, `EngineRuns`, `Startup`, `Visible`, `Typing`, `Commits`, `Boundaries`, `GasMeter`,
  `Tolls`, `Metering`, `Prices`): `Machine`
  gives every control instruction, implicit step and exception as a net effect on the current
  continuation and the registers. `Storage` and `Control` are the engine itself: the in-place swaps
  of the source, proved to have those net effects and to charge exactly the toll of passing the
  stack. `Driver` is the main loop on that engine, proved to be the metered machine step by step and
  run by run. `Structured` gives nested programs a direct meaning, `Simulation` proves that the
  machine computes it, `EngineRuns` carries that to the engine and `Startup` to the engine as it is
  set up. `Visible` and `Prices` say in plain numbers what a program sees of the other instructions
  and what it pays. `Typing`, `Commits`, `Boundaries` and `Metering` hold the invariants of every run.
* **Integers** (`Division`, `IntegerWidth`, `Octets`, `IntegerCodec`, `PushInt`): rounding division,
  bit size, the four encodings and the PUSHINT decoder.
* **Cells** (`DataSize`, `CellCache`): the data-size traversal and the cell-load caches.

`Bits`, `Outcomes`, `Cells` and `Values` hold the shared data model.

## Findings

Places where the code does not do what one would expect; the model follows the code.

* A loop started in a continuation that was entered with a fixed argument count, such as a TRY
  handler, copies that count into the code after the loop (src/executor/continuation.rs:864-882,
  src/executor/engine/core.rs:1505-1513). When the loop ends, that code resumes with an empty stack
  (`ProgramRuns.LoopKeepsStackIff`, `ProgramRuns.LoopInHandler`). Handlers of TRYKEEP are not
  affected.
* TRYKEEP ends the whole run with a stack underflow, past every enclosing handler, when the guarded
  block has consumed slots from below it before the exception (src/executor/engine/core.rs:634-651).
  THROWARG over a stack of one slot does (src/executor/exceptions.rs:175-181,
  `ProgramRuns.ThrowArgUnderTryKeep`). With as many slots left as were guarded the handler runs, with
  fewer the run fails (`ProgramRuns.KeepNeedsGuardedStack`, `ProgramRuns.CrashPassesHandlers`; step by
  step, `Simulation.RevertKeeps` and `Simulation.RevertFails`).
* The election divides by the true total, which rounding can make zero for a chosen prefix
  (src/executor/accounts.rs:319-320, `Election.WorthCanVanish`, `Election.Distribute`). That is so
  exactly when every elected stake or its limit is zero (`ElectionSpec.WorthlessChoice`).
* A PUSHINT literal is not checked against 257 bits (src/stack/integer/conversion.rs:224-227,
  `PushInt.LongLiteral`). It fits exactly when l is at most 29 or the bytes before its last 32 are
  nothing but sign (`PushInt.LiteralFitsIff`).
* Little-endian encodings of lengths that are not whole bytes keep the wrong end of the last byte
  (src/stack/integer/serialization/signed_little_endian.rs:41-58): 1 stored in four bits reads as 0
  (`IntegerCodec.FourBitsOfOne`). The value survives exactly when the bits that are cut off are zero
  (`IntegerCodec.PartialLittleEndian`). No instruction asks for such a length: the little-endian
  loads use 32 and 64 bits (src/executor/deserialization.rs:699-774).
* The unsigned little-endian decoder returns zero for a value beyond 257 bits where the other
  decoders fault (src/stack/integer/serialization/unsigned_little_endian.rs:61-68,
  `IntegerCodec.DeserializeUnsignedLe`), such as the 33 bytes of 2^256 (`IntegerCodec.TooLongToRead`).
  It reads right exactly when the value fits. No instruction gets there: the little-endian loads read
  4 or 8 bytes (src/executor/deserialization.rs:699-774).
* A quiet division by a shift can raise: only a quotient out of range is turned into NaN, a remainder
  out of range is not (src/stack/integer/mod.rs:327-334). For a value in range that is so exactly for
  shifts of 257 or more that round away from zero (`Division.ShiftDiv`, `Division.ShiftRemainderIff`),
  such as -1 shifted by 257 and rounded down (`Division.WideShiftRemainder`). No instruction asks for
  more than 256 (src/executor/math.rs:470-476, src/executor/engine/core.rs:1163-1166).

## Model

| member | source | states |
|---|---|---|
| `Serializer.ItemsSerialize` | src/stack/mod.rs:158-245 | the in-place loop over pending work computes the run of the work-stack machine, result or error, and ends on every input |
| `Serializer.Round` | src/stack/mod.rs:163-226 | one pass of the loop body is one step of that machine |
| `Serializer.StepShrinks` | src/stack/mod.rs:158-245 | every step strictly shrinks the total size of the pending values, whatever is nested in them |
| `Serializer.LoopEncodesItem` | src/stack/mod.rs:158-245 | from any consistent state, pushing an item makes the loop prepend exactly the builder of the structurally recursive encoder and restores both auxiliary stacks; its errors are the encoder's errors |
| `Serializer.LoopEncodesTuple` | src/stack/mod.rs:175-182 | the same for the elements of a tuple and its header |
| `Serializer.LoopEncodesAll` | src/stack/mod.rs:158-245 | the same for a whole stack of items, in order |
| `Serializer.LoopEncodesSaves` | src/stack/mod.rs:199-239 | the same for the registers of a savelist, collected into its dictionary |
| `Serializer.LoopEncodesCont` | src/stack/mod.rs:183-245 | the same for a continuation: stack, savelist and body come together in one builder |
| `Serializer.LoopEncodesContItem` | src/stack/mod.rs:165-198 | the same for a continuation used as a stack item |
| `Serializer.SerializeInternal` | src/stack/mod.rs:609-651 | a simple item gives its finished node, a tuple or continuation gives nothing but more work |
| `Serializer.BuildContinuation` | src/stack/continuation.rs:146-209 | appending field by field gives the builder of the recursive encoder, no field can overflow the cell, and the bits are the written-out layout: type code, 22 bits of nargs, stack flag and 24-bit depth, dictionary flag, sixteen zero bits of codepage, the four numbers of the code slice |
| `Serializer.AppendStack` | src/stack/continuation.rs:197-204 | a flag, and for a stack that is not empty its 24-bit depth and a reference to the chain, or a refused cell |
| `Serializer.AppendDictionary` | src/stack/continuation.rs:205-205 | a flag, and for a savelist that is not empty a reference to its dictionary |
| `Serializer.TypeBuilderSize` | src/stack/continuation.rs:148-193 | the type of a continuation takes at most 36 bits and one reference |
| `Serializer.EncodedContFits` | src/stack/continuation.rs:140-209 | an encoded continuation always fits one cell |
| `Serializer.SerializeItem` | src/stack/mod.rs:604-607 | the public entry gives the recursive encoding of the item, or its error; what it gives is laid out as written: the tag of the item, its fields at their offsets and its references in order, at every depth |
| `Serializer.SerializeContinuation` | src/stack/continuation.rs:140-144 | the public entry gives the recursive encoding of the continuation, or its error; what it gives is laid out as written: every field at its offset, then the references for the type, the stack, the savelist and the code, at every depth |
| `Encodable.ItemEncodable` | src/stack/mod.rs:609-651 | with every cell accepted, an item is serialized if and only if every integer in it, at any depth, fits 257 bits |
| `Encodable.ContinuationEncodable` | src/stack/continuation.rs:146-209 | the same for a continuation |
| `Layout.TypeLaid` | src/stack/continuation.rs:148-193 | the type codes, 2 to 12 bits wide, and the numbers and slices of each type are at their offsets, as literals |
| `Layout.ItemLaid` | src/stack/mod.rs:609-651 | an encoded item has the tag of its kind as a literal, its fields at their offsets and its references in order; tuples and continuations have their parts laid out likewise, to any depth |
| `Layout.AllLaid` | src/stack/mod.rs:158-245 | an encoded list holds its items one after the other, each in a cell of its own that the next one refers to |
| `Layout.SavesLaid` | src/stack/mod.rs:199-239 | an encoded savelist has the value of each saved register under the number of that register and nothing else |
| `Layout.ContLaid` | src/stack/continuation.rs:146-209 | an encoded continuation has every field at its offset with the codepage zero, and its references in order |
| `Deserializer.ItemsDeserialize` | src/stack/mod.rs:247-318 | the in-place loop computes the run of the task machine, result or error |
| `Deserializer.ReadOneWeight` | src/stack/mod.rs:264-271 | reading one node strictly shrinks the weight of unread data and pending tasks, on every input |
| `Deserializer.PopTaskWeight` | src/stack/mod.rs:272-317 | so does finishing a task; together they end the loop on malformed input too |
| `Deserializer.DeserializeItem` | src/stack/mod.rs:653-657 | the public entry decodes one item |
| `Deserializer.DeserializeContinuation` | src/stack/continuation.rs:211-218 | the public entry decodes one continuation and returns the unread rest of the slice |
| `Faultless.ItemNeverFaults` | src/stack/mod.rs:653-657 | whatever is read, the loop with a fault for every assertion that fails gives the same as the loop without, and gives exactly one item: neither the assertions, nor the length check of tuples, nor taking the first item can fail |
| `Faultless.ContinuationNeverFaults` | src/stack/continuation.rs:211-218 | the same for a continuation, and what is accepted is exactly one continuation, so the type check after the loop cannot fail either |
| `Faultless.ElementUnwinds` | src/stack/mod.rs:659-697 | an element that opens tasks opens a nest of them that suspends and resumes lists and savelists in order and adds one item in the end, whatever the order of the savelist keys |
| `Faultless.ReadingIsStrict` | src/stack/mod.rs:258-318 | from every state whose tasks and lists nest, the loop finds one item where it finishes a register, as many as announced where it finishes a tuple and a savelist where it finishes a continuation |
| `Decoded.ItemIsTyped` | src/stack/mod.rs:247-318 | whatever bits are accepted, the decoded item holds only well-typed savelists, at every depth |
| `Decoded.ContinuationIsTyped` | src/stack/continuation.rs:211-317 | the same for a decoded continuation |
| `Decoded.UnknownTag` | src/stack/mod.rs:659-697 | a first byte other than 0 and 2 to 7 is refused with the unknown error, whatever follows |
| `Decoded.UnknownType` | src/stack/continuation.rs:226-280 | a type code that is none of the written ones is refused with the unknown error |
| `Decoded.UnknownInteger` | src/stack/mod.rs:659-697 | so is an integer whose seven bits after the tag are neither all zero nor all one |
| `Decoded.UnfinishedNan` | src/stack/mod.rs:659-697 | so is a not-a-number without its last bit |
| `Decoded.SliceWindow` | src/stack/mod.rs:140-156 | a slice is refused as fatal if and only if its window is upside down or goes past four references; otherwise it is that window, cut off at the end of its cell |
| `Decoded.TupleLength` | src/stack/mod.rs:281-285 | a tuple is finished if and only if it has as many items as announced, and refused as a cell underflow otherwise |
| `Decoded.RegisterRefused` | src/stack/mod.rs:295-307 | a saved register is accepted if and only if its number and the kind of its value fit, each kind written out |
| `RoundTrip.ContReadBack` | src/stack/continuation.rs:220-317 | reading the body of an encoded continuation yields the tasks for its stack and savelist and leaves whatever follows it |
| `RoundTrip.TypeReadBack` | src/stack/continuation.rs:226-280 | reading an encoded continuation type yields the type with its numbers at their stored widths |
| `RoundTrip.DecodesItem` | src/stack/mod.rs:247-318 | from any reading state, the loop consumes exactly the node of the item and appends the item |
| `RoundTrip.DecodesCont` | src/stack/mod.rs:247-318 | executing the tasks of a continuation appends exactly that continuation |
| `RoundTrip.DecodesSaveList` | src/stack/mod.rs:295-307 | executing the register tasks of a dictionary, in any key order, rebuilds the savelist |
| `RoundTrip.ItemRoundTrip` | src/stack/mod.rs:118-318 | for every valid item of any nesting, deserialize after serialize gives the item truncated to the stored field widths |
| `RoundTrip.ContinuationRoundTrip` | src/stack/continuation.rs:140-317 | the same for continuations, whatever bits and references follow |
| `RoundTrip.Survives` | src/stack/mod.rs:118-318 | the truncation changes nothing if and only if every stored number at every depth is in its range, so the round trip is exact exactly there |
| `RoundTrip.ContinuationSurvives` | src/stack/continuation.rs:140-317 | the same for continuations |
| `RoundTrip.NargsSurvives` | src/stack/continuation.rs:282-285 | nargs survives its 22 bits if and only if it is -1 .. 2^22-2 |
| `RoundTrip.Int32Survives` | src/stack/continuation.rs:148-193 | an exit code or pushed number survives if and only if it is a signed 32-bit value |
| `RoundTrip.TypeSurvives` | src/stack/continuation.rs:148-280 | a continuation type survives if and only if its numbers are in range |
| `ElectionSpec.SortDescending` | src/executor/accounts.rs:69-80 | sorting gives a descending permutation of the validators |
| `ElectionSpec.SortOrder` | src/executor/accounts.rs:46-80 | of two validators the one with the larger stake comes first, then the later time, then the larger key |
| `ElectionScan.SortedList.constructor` | src/executor/accounts.rs:92-94 | a new list is empty |
| `ElectionScan.SortedList.PartitionPoint` | src/executor/accounts.rs:96-99 | binary search finds the point between stakes not larger and larger |
| `ElectionScan.SortedList.Insert` | src/executor/accounts.rs:96-99 | insertion keeps the list ascending and adds exactly the element |
| `ElectionScan.SortedList.Pop` | src/executor/accounts.rs:101-103 | the largest element leaves, the rest stays in order |
| `ElectionScan.SortedList.Last` | src/executor/accounts.rs:105-107 | nothing for an empty list; in an ascending list a member that no stake exceeds, so the scan may stop at the first one below the threshold |
| `ElectionScan.ScaledIsExact` | src/executor/accounts.rs:237-247 | comparing quotients floored at scale 10^18 decides exactly whether stake_j * 65536 >= stake_i * factor_j |
| `ElectionScan.CutStays` | src/executor/accounts.rs:240-249 | a validator once cut is cut for every later, smaller stake |
| `ElectionScan.ScanOne` | src/executor/accounts.rs:233-250 | after validator i the list holds exactly the uncut validators up to i, ascending; the two running sums are the uncut stakes and the cut factors |
| `ElectionScan.Scan` | src/executor/accounts.rs:226-261 | the scan returns the first prefix with the largest running total and that total, and fails exactly when a factor among the candidates is zero |
| `ElectionSpec.RunningIsClose` | src/executor/accounts.rs:252-254 | the running total of k validators lies between the true total and the true total plus k-1 |
| `ElectionSpec.ChoiceIsNearOptimal` | src/executor/accounts.rs:253-261 | no other prefix is worth m or more above the chosen prefix of m validators |
| `ElectionSpec.ToleranceHolds` | src/executor/accounts.rs:284-299 | up to 10^9+1 validators the two totals never differ by more than the tolerance, so that refusal cannot happen |
| `ElectionSpec.WorthlessChoice` | src/executor/accounts.rs:275-284 | the true total is zero if and only if every elected stake or its limit is |
| `Election.BestPrefixIsBest` | src/executor/accounts.rs:226-261 | the maximum over prefixes is unique and the recursive definition finds it |
| `Election.CutStakes` | src/executor/accounts.rs:275-284 | true stakes are the stakes capped at the smallest elected stake times the factor, and the sum is the true total |
| `Election.Refund` | src/executor/accounts.rs:301-314 | a leftover is added to what the address has already; nothing is written for a zero leftover |
| `Election.Elect` | src/executor/accounts.rs:315-337 | if the first i elected validators are entered with their public keys, addresses, cut stakes, weights, totals and frozen records, then afterwards the first i + 1 are, and no credit changes |
| `Election.Distribute` | src/executor/accounts.rs:300-341 | the first m validators are elected and every leftover refunded, or the division by a zero true total faults; the weight and total checks after it cannot fail; each entry of the list has the public key and the ADNL address of its validator and the floor of its capped stake times 2^60 over the total |
| `Election.CalculateElections` | src/executor/accounts.rs:202-343 | the whole election: each refusal under its exact condition, otherwise the result of electing the best prefix of the sorted candidates, with list and frozen records field by field as for `Distribute` |
| `Election.RefundIsExact` | src/executor/accounts.rs:301-314 | each address is credited with exactly the leftovers of its validators, also when it has several |
| `Election.RefundsAddUp` | src/executor/accounts.rs:301-314 | all credits together grow by exactly the sum of leftovers |
| `Election.StakesSplit` | src/executor/accounts.rs:302-317 | leftovers and true stakes together are the stakes |
| `Election.StakeIsConserved` | src/executor/accounts.rs:300-343 | credits after plus elected total equal credits before plus all stakes |
| `Election.RunningWithinStakes` | src/executor/accounts.rs:252-254 | the running total never exceeds the stakes it is made of |
| `Election.NoOverflow` | src/executor/accounts.rs:214-254 | if max_stake * n * max_factor fits 128 bits, every sum and product of the scan does |
| `Election.PositiveWorth` | src/executor/accounts.rs:319-320 | a running total of at least one unit per validator leaves a positive total to divide by |
| `Election.WorthCanVanish` | src/executor/accounts.rs:319-320 | two stakes of 1 with factors below 1.0 are elected with a true total of zero |
| `Election.WeightsAreNormalized` | src/executor/accounts.rs:318-325 | the weights sum to 2^60 up to less than one unit per validator |
| `Election.WeightFits` | src/executor/accounts.rs:319-324 | every weight fits 64 bits, so that refusal cannot happen |
| `Election.FrozenHasElected` | src/executor/accounts.rs:331-337 | a key is frozen if and only if an elected validator has it, and then with the data of the last one that does |
| `Election.ElectedIsListed` | src/executor/accounts.rs:318-337 | entry j of the list holds the public key and ADNL address of validator j and the floor of its capped stake times 2^60 over the total; the frozen record of the last validator with a key holds its address, that weight and its capped stake |
| `Simulation.PassAll` | src/executor/engine/storage.rs:304-340 | a continuation without stack and without a fixed argument count takes the whole stack in order |
| `Simulation.CallEnters` | src/executor/continuation.rs:112-140 | CALLX runs the block with the caller, its old c0 saved in it, as c0 |
| `Simulation.TryEnters` | src/executor/exceptions.rs:33-72 | TRY and TRYKEEP run the block with the wrapped handler in c2 and the caller in c0, the old c2 saved in both |
| `Simulation.HandlerEnters` | src/executor/engine/core.rs:1463-1515 | a TRY handler starts with exactly the exception value and number, c0 at the caller and the old handler back in c2 |
| `Simulation.EnvelopeEnters` | src/executor/engine/core.rs:1502-1514 | an exception under TRYKEEP passes the whole stack to the reverting continuation |
| `Simulation.RevertKeeps` | src/executor/engine/core.rs:634-651 | with enough stack left, a TRYKEEP handler sees the lowest guarded slots, then value and number, with c0 and c2 as for TRY |
| `Simulation.RevertFails` | src/executor/engine/core.rs:634-651 | with fewer slots than were guarded the run fails with a stack underflow |
| `Simulation.LoopEnters` | src/executor/continuation.rs:864-882 | a loop runs its first block with the loop continuation as c0, holding the rest of the code and the old c0 |
| `Simulation.RepeatDecides` | src/executor/engine/core.rs:677-692 | a REPEAT continuation starts another round while its counter is above one and otherwise resumes the code after the loop |
| `Simulation.WhileDecides` | src/executor/engine/core.rs:652-676 | a WHILE continuation runs the body and then the condition again, or resumes the code after the loop |
| `Simulation.UntilDecides` | src/executor/engine/core.rs:693-709 | an UNTIL continuation runs the body again on zero and otherwise resumes the code after the loop |
| `Simulation.FlagRefused` | src/executor/engine/core.rs:1073-1081 | a missing or ill-typed loop flag raises with the handler still in force |
| `Simulation.LoopLeaves` | src/executor/continuation.rs:268-282 | leaving a loop restores c0 and hands the stack on only if the code after it was entered without a fixed argument count |
| `Simulation.RepeatRuns` | src/executor/engine/core.rs:677-692 | REPEAT n runs its body exactly n times and resumes the code after the loop with all registers as before |
| `Simulation.WhileRuns` | src/executor/engine/core.rs:652-676 | WHILE equals the structured loop |
| `Simulation.UntilRuns` | src/executor/engine/core.rs:693-709 | UNTIL equals the structured loop |
| `Simulation.AgainDecides` | src/executor/engine/core.rs:710-716 | an AGAIN continuation starts another round with itself back in c0, always |
| `Simulation.AgainRuns` | src/executor/engine/core.rs:710-716 | AGAIN runs its body round after round until the body throws or fails, and never finishes otherwise |
| `Simulation.GuardRuns` | src/executor/exceptions.rs:33-72 | a guarded block and its handler, nested to any depth, end as the structured meaning says, with c0 and c2 restored |
| `Simulation.Simulate` | src/executor/engine/core.rs:562-786 | the machine computes the meaning of every structured program of nested TRY, TRYKEEP, REPEAT, WHILE, UNTIL, AGAIN, calls and sequences: same stack and all registers restored, or the same exception with the same stack and c1..c7 as they were, or the same failure, and no sooner than the fuel when it does not end |
| `ProgramRuns.ProgramRunsToMeaning` | src/executor/engine/core.rs:562-786 | a fresh machine runs a whole program to its meaning: quit with 0, the uncaught exception, or the failure |
| `ProgramRuns.EndedRunHasMeaning` | src/executor/engine/core.rs:562-786 | whenever the machine ends, the meaning is defined with that many units of fuel |
| `ProgramRuns.EndedRunDelivers` | src/executor/engine/core.rs:562-786 | a metered run that ends by itself ends with the meaning of the program |
| `ProgramRuns.MeteredProgramEnds` | src/executor/engine/core.rs:562-786 | under gas a program always ends, with its meaning unless gas runs out |
| `ProgramRuns.LoopKeepsStackIff` | src/executor/continuation.rs:864-882 | a loop leaves its stack to the code after it if and only if it was started without a fixed argument count or leaves nothing |
| `ProgramRuns.LoopInHandler` | src/executor/engine/core.rs:1505-1513 | an UNTIL loop in a handler returns the guarded stack and the value under TRYKEEP but an empty stack under TRY |
| `ProgramRuns.KeepNeedsGuardedStack` | src/executor/engine/core.rs:634-651 | an exception under TRYKEEP reaches the handler, with the guarded slots below the pair, if and only if the block left that many slots; otherwise the run fails with a stack underflow |
| `ProgramRuns.CrashPassesHandlers` | src/executor/engine/core.rs:634-651 | that failure passes any number of enclosing TRY and TRYKEEP handlers |
| `ProgramRuns.KeepEndsRun` | src/executor/engine/core.rs:634-651 | a fresh machine that runs such a TRYKEEP inside any handlers fails with a stack underflow |
| `ProgramRuns.ThrowArgUnderTryKeep` | src/executor/exceptions.rs:175-181 | THROWARG in a TRYKEEP in a TRY over a stack of one slot: a concrete program whose run fails past both handlers |
| `Typing.SetTyped` | src/stack/savelist.rs:76-83 | writing an admissible value keeps a register list well typed and c3, c4, c5, c7 set |
| `Typing.ApplyTyped` | src/stack/savelist.rs:84-90 | applying a well-typed savelist keeps the registers well typed and c3, c4, c5, c7 set |
| `Typing.CallTyped` | src/executor/continuation.rs:112-140 | a call keeps every register and savelist well typed, also when it fails |
| `Typing.TryTyped` | src/executor/exceptions.rs:33-72 | so do TRY and TRYKEEP |
| `Typing.StartLoopTyped` | src/executor/continuation.rs:864-882 | so does starting a loop, whose writes are not checked at run time |
| `Typing.PopCtrTyped` | src/executor/engine/storage.rs:174-182 | so does POPCTR, which refuses what the register does not admit |
| `Typing.SetContCtrTyped` | src/executor/continuation.rs:1142-1152 | so does SETCONTCTR |
| `Typing.RaiseTyped` | src/executor/engine/core.rs:1463-1515 | so does delivering an exception |
| `Typing.SpecialTyped` | src/executor/engine/core.rs:619-717 | so does every implicit step, whose writes are not checked at run time |
| `Typing.StepTyped` | src/executor/engine/core.rs:562-786 | one step of the machine keeps all registers and all savelists at any depth well typed and c3, c4, c5, c7 set |
| `Typing.RunTyped` | src/executor/engine/core.rs:562-786 | so does every run |
| `Typing.SetupSound` | src/executor/engine/core.rs:985-1018 | a machine set up with well-typed registers starts in such a state |
| `Commits.CommitNeverFallsBack` | src/executor/engine/core.rs:159-170 | a commit at any point of any run records the cell in c4 of that state as data and the cell in c5 as actions; the empty fallback is never taken |
| `Commits.CommittedState.Record` | src/executor/engine/core.rs:359-361 | the committed state becomes what c4 and c5 hold, or empty if one of them is no cell |
| `Commits.SoundRecords` | src/executor/engine/core.rs:159-170 | in every well-typed state that is the pair of cells in c4 and c5 |
| `Commits.OneCommitMore` | src/executor/gas/mod.rs:91-97 | one more step changes the committed state only if it is a COMMIT |
| `Commits.LastCommitStays` | src/executor/engine/core.rs:562-600 | over any run the committed state is c4 and c5 as they were at the last COMMIT, or the one of the start if there was none |
| `Startup.SetupShows` | src/executor/engine/core.rs:985-1018 | what PUSHCTR shows of each register after a setup: the one given, or quit with 0, quit with 1, the uncaught-exception continuation, the code, two empty cells and the context |
| `Startup.SetupIsFresh` | src/executor/engine/core.rs:985-1018 | a setup without c0 and c2 of its own is the fresh machine of the program theorems |
| `Startup.SetupRunsToMeaning` | src/executor/engine/core.rs:562-786 | from such a setup every structured program runs to its meaning |
| `Startup.StartEngine` | src/executor/engine/core.rs:985-1018 | the engine is set up register by register, with nothing committed |
| `Startup.SetupAndRun` | src/executor/engine/core.rs:562-786 | a program set up and run on the engine ends, with its meaning unless gas runs out; a good end commits the c4 and c5 of its last state, any other end leaves what the last COMMIT recorded |
| `Boundaries.StepAtBoundary` | src/executor/engine/core.rs:562-786 | one step leads from a state with nothing saved in cc and nargs -1 or 0 to such a state |
| `Boundaries.RunAtBoundary` | src/stack/continuation.rs:64-68 | so does every run, as the debug assertions on savelist and nargs expect |
| `Control.EngineIsReady` | src/executor/engine/core.rs:562-786 | every state between instructions of every run from a setup is well typed and at a boundary, which is all the engine asks for; the main loop clears the instruction variables and parameters itself |
| `GasMeter.Conservation` | src/executor/gas/gas_state.rs:222-239 | a charge is spent in full, a new limit spends nothing and never lifts the ceiling |
| `GasMeter.UsedIsTotal` | src/executor/gas/gas_state.rs:222-239 | gas used is the sum of all charges under any interleaving with limit changes |
| `GasMeter.StackPrice` | src/executor/gas/gas_state.rs:152-159 | a stack transfer is free up to 32 slots and costs one unit for each slot beyond them |
| `GasMeter.Gas.constructor` | src/executor/gas/gas_state.rs:90-100 | a new counter has limit plus credit left and nothing used |
| `GasMeter.Gas.NewGasLimit` | src/executor/gas/gas_state.rs:222-227 | the new limit is clamped to 0 .. max and what was used stays used |
| `GasMeter.Gas.UseGas` | src/executor/gas/gas_state.rs:230-233 | charges without a check |
| `GasMeter.Gas.TryUseGas` | src/executor/gas/gas_state.rs:236-239 | charges, and reports whether what is used still fits the base |
| `GasMeter.Gas.CheckGasRemaining` | src/executor/gas/gas_state.rs:242-248 | passes exactly while what is used fits the base |
| `GasMeter.Gas.GasUsed` | src/executor/gas/gas_state.rs:275-281 | the reported use is the used gas capped at the base |
| `Metering.MeteredSpends` | src/executor/gas/mod.rs:31-52 | a step spends exactly its charge (base price, stack transfer, exception) and never lifts the ceiling, also when it sets a limit |
| `Metering.GasIsConserved` | src/executor/engine/core.rs:562-786 | over a run the gas used is the sum of what the steps charged |
| `Metering.GasBoundsInstructions` | src/executor/engine/core.rs:562-606 | ten times the instructions run never exceed the gas used, which never exceeds max(initial base, gas_limit_max) |
| `Metering.GasOnlyStops` | src/executor/engine/core.rs:562-786 | a metered run is, state by state, a prefix of the unmetered one and ends as it does unless gas runs out |
| `Metering.MoreGasSameResult` | src/executor/engine/core.rs:562-786 | more gas at the start never changes the result of a run that had enough |
| `Metering.FreeStepAdvances` | src/executor/engine/core.rs:619-717 | a step that charges nothing turns to plain code or shortens the chain of continuations in c0 |
| `Metering.EveryRunEnds` | src/executor/engine/core.rs:562-786 | every run ends, whatever the code and whatever the abstract operations charge, which may depend on the number of the step |
| `Metering.Execute` | src/executor/engine/core.rs:562-597 | the main loop reaches the end of the run and returns it |
| `Prices.StepPrices` | src/executor/gas/gas_state.rs:101-142 | an instruction costs 10 and its length, an implicit jump 10, an implicit return 5, another implicit step nothing |
| `Prices.TransferCosts` | src/executor/engine/storage.rs:327-340 | moving slots costs one unit for each slot beyond 32, for the cut and for the joint stack |
| `Prices.ExceptionCosts` | src/executor/gas/gas_state.rs:111-117 | an exception costs 50 and what its delivery passes |
| `Prices.FreshSpends` | src/executor/gas/gas_state.rs:86-100 | a new counter has its limit and its credit to spend, field by field |
| `Prices.LimitSets` | src/executor/gas/gas_state.rs:222-227 | a new limit is cut to 0 .. limitMax, drops the credit and leaves what was spent |
| `Prices.AcceptLifts` | src/executor/gas/mod.rs:39-44 | ACCEPT lifts the limit to limitMax, for every limitMax of 0 .. 2^63-1, and goes through exactly when what was spent stays within it |
| `Storage.Engine.DropRange` | src/stack/mod.rs:897-907 | removes a range of slots and returns it top first, or refuses a range beyond the stack |
| `Storage.Engine.DropRangeStraight` | src/stack/mod.rs:909-928 | removes the same range and returns it in stack order, also on the path that takes the bottom of the stack |
| `Storage.Engine.MoveStackFromCc` | src/executor/engine/storage.rs:54-84 | the exchange of stacks, the cut at the top and the general range all move the range onto the peer in order and count down its nargs |
| `Storage.Engine.PopRange` | src/executor/engine/storage.rs:327-340 | pays for the split and the join, then moves; the charge is exact, out of gas is reported if and only if it cannot be paid, and then nothing moves |
| `Storage.Engine.PopAll` | src/executor/engine/storage.rs:304-323 | moves as many slots as nargs and the instruction ask for, with each refusal under its condition, for exactly the toll of that transfer, and is out of gas if and only if the toll cannot be paid |
| `Storage.Engine.FetchStack` | src/executor/engine/storage.rs:293-300 | the top slots become variables, the topmost first |
| `Storage.Engine.SwapWithList` | src/executor/engine/storage.rs:136-182 | exchanges a register slot with a variable, or refuses what the slot does not admit and changes nothing |
| `Storage.Engine.SwapBetweenLists` | src/executor/engine/storage.rs:153-193 | whichever side it moves first, the effect is the exchange of two slots, refused exactly when one does not admit the other's value; a refusal leaves the exact state of the half-done exchange |
| `Storage.Engine.Swap` | src/executor/engine/storage.rs:197-244 | any two supported operands in either order are exchanged; a refusal leaves the exact state of the half-done exchange |
| `Storage.WritesCommute` | src/executor/engine/storage.rs:107-134 | writes to different slots commute, also inside continuations held in registers and variables |
| `Storage.ExchangeSwaps` | src/executor/engine/storage.rs:197-244 | after an exchange each of the two slots holds what the other one did |
| `Tolls.TollIsPrice` | src/executor/engine/storage.rs:304-340 | a toll that is paid is the price of the transfer and keeps the counter at zero or above; one that is not leaves it below zero, as the whole price would |
| `Control.ApplySavelist` | src/stack/savelist.rs:84-90 | the loop over the registers puts the savelist into effect and empties it |
| `Control.SwitchVar` | src/executor/continuation.rs:268-282 | `switch` to a variable has the net effect of a jump, charges exactly the toll of its transfer and is out of gas if and only if that cannot be paid |
| `Control.SwitchC0` | src/executor/continuation.rs:268-282 | `switch` to c0 has the net effect of a return, charges exactly the toll of its transfer and is out of gas if and only if that cannot be paid |
| `Control.SwitchC1` | src/executor/continuation.rs:268-282 | `switch` to c1 has the net effect of an alternative return, charges exactly the toll of its transfer and is out of gas if and only if that cannot be paid |
| `Control.SwitchToC0` | src/executor/continuation.rs:284-295 | the fast return has the net effect of a return, charges exactly the toll of its transfer and is out of gas if and only if that cannot be paid |
| `Control.ReturnBothWays` | src/executor/continuation.rs:268-295 | from equal engines `switch` to c0 and the fast return give the same status, the same state and the same gas |
| `Control.CallX` | src/executor/continuation.rs:112-140 | the swaps of `callx` have the net effect of a call, charge exactly the toll of its transfer and are out of gas if and only if that cannot be paid |
| `Control.ExecuteRepeat` | src/executor/continuation.rs:864-882 | the swaps of REPEAT have the net effect of starting the loop, with each refusal, for exactly the toll of the transfer |
| `Control.ExecuteWhile` | src/executor/continuation.rs:1310-1324 | the same for WHILE |
| `Control.ExecuteUntil` | src/executor/continuation.rs:1225-1238 | the same for UNTIL |
| `Control.ExecuteAgain` | src/executor/continuation.rs:299-312 | the same for AGAIN |
| `Control.InitTryCatch` | src/executor/exceptions.rs:33-72 | the swaps of TRY and TRYKEEP have the net effect of entering the guarded block, for exactly the toll of the transfer |
| `Control.ExecuteJmpX` | src/executor/continuation.rs:244-251 | JMPX has the net effect of a jump that ignores the c0 and c1 saved in its target, for exactly the toll of the transfer |
| `Control.ExecutePushCtr` | src/executor/stack.rs:383-391 | PUSHCTR has its net effect, null for an absent register |
| `Control.ExecutePopCtr` | src/executor/stack.rs:239-246 | POPCTR has its net effect: the value is stored, or refused exactly when the register does not admit it |
| `Control.ExecuteSetContCtr` | src/executor/continuation.rs:1142-1152 | SETCONTCTR has its net effect on the continuation it returns |
| `Control.DischargeNargs` | src/executor/engine/core.rs:718-724 | gives up the lowest slots that were still expected |
| `Control.StepWhileLoop` | src/executor/engine/core.rs:652-676 | the implicit step of WHILE has its net effect, for exactly the toll of its transfer |
| `Control.StepUntilLoop` | src/executor/engine/core.rs:693-709 | the implicit step of UNTIL has its net effect, for exactly the toll of its transfer |
| `Control.StepRepeatLoop` | src/executor/engine/core.rs:677-692 | the implicit step of REPEAT has its net effect, for exactly the toll of its transfer |
| `Control.StepAgainLoop` | src/executor/engine/core.rs:710-716 | the implicit step of AGAIN has its net effect, which `Simulation.AgainDecides` and `Simulation.AgainRuns` describe |
| `Control.StepHandlerEnd` | src/executor/engine/core.rs:626-633 | the implicit end of a handler has its net effect |
| `Control.StepRevert` | src/executor/engine/core.rs:634-651 | the implicit step of a TRYKEEP handler has its net effect, for exactly the toll of its transfer |
| `Control.RaiseException` | src/executor/engine/core.rs:1463-1515 | delivering an exception has its net effect, or ends the run with the same code, for exactly its price and the toll of its transfer; out of gas if and only if these cannot be paid |
| `Driver.Dispatch` | src/executor/engine/core.rs:571-584 | running an instruction through the microcode gives the result of the machine for exactly the toll of its transfer |
| `Driver.ExecuteSetGasLimit` | src/executor/gas/mod.rs:31-54 | SETGASLIMIT refuses a missing, ill-typed or oversized limit, ends the run on one below everything spent so far with the gas as it was, and otherwise moves the limit |
| `Driver.AttemptInstr` | src/executor/engine/core.rs:568-586 | decoding, charging and running an instruction leaves the state, the exception and the gas of the attempt of that step, or is out of gas exactly when the metered step is |
| `Driver.AttemptJmpRef` | src/executor/engine/core.rs:601-608 | the same for the implicit jump to a reference |
| `Driver.AttemptImplicit` | src/executor/engine/core.rs:609-717 | the same for the end of the code under every continuation type that goes on |
| `Driver.ExternalError` | src/executor/engine/core.rs:726-741 | an uncaught exception ends the run with the number on the stack, or with the error of reading it |
| `Driver.Stop` | src/executor/engine/core.rs:744-786 | a quit, an uncaught exception or a plain end without c0 ends the run as the machine does, with the same gas |
| `Driver.Finish` | src/executor/engine/core.rs:580-594 | an attempt is settled as the metered step is: the gas is checked, or the exception is delivered |
| `Driver.AttemptSound` | src/executor/engine/core.rs:562-786 | what an attempt leaves is well typed, also when it raises |
| `Driver.Advance` | src/executor/engine/core.rs:562-597 | one round of the main loop on the engine is exactly one step of the metered machine: same verdict, same state, same gas; the committed state changes exactly at a COMMIT |
| `Driver.Execute` | src/executor/engine/core.rs:562-600 | the main loop on the engine always ends, and ends as the run of the metered machine: same verdict, same state, same gas; a good end commits c4 and c5 of the last state, any other end leaves what the last COMMIT recorded |
| `EngineRuns.RunProgram` | src/executor/engine/core.rs:562-786 | a structured program started on the engine with fresh registers always ends, and unless gas runs out it ends with its meaning; the committed state is as for `Driver.Execute` |
| `Visible.PushShows` | src/executor/stack.rs:383-391 | PUSHCTR adds the register, or null, to the stack and changes nothing else; a number that is no register raises 5 |
| `Visible.PopThenPush` | src/executor/stack.rs:239-246 | POPCTR then PUSHCTR gives the value back and no other register moves; a value the register does not admit raises 7 |
| `Visible.PopNothing` | src/executor/stack.rs:239-246 | POPCTR on an empty stack raises 2, of a number that is no register 5 |
| `Visible.TransferMoves` | src/executor/engine/storage.rs:304-340 | a transfer moves exactly the wanted top slots, in order, and counts them off what the target expects, with each refusal under its condition |
| `Visible.JumpKeepsReturns` | src/executor/continuation.rs:244-251 | JMPX hands over the stack and puts the registers of its target into force, but keeps c0 and c1 |
| `Visible.SetContSaves` | src/executor/continuation.rs:1142-1152 | SETCONTCTR gives back the continuation with the value saved in that register and the rest as it was |
| `Visible.SetContRefused` | src/executor/continuation.rs:1142-1152 | SETCONTCTR raises 5 for a number that is no register, 2 on too few slots and 7 on a value the register does not admit; null into an empty register changes nothing |
| `Visible.SetContThenJump` | src/executor/continuation.rs:1142-1152 | SETCONTCTR then JMPX installs the value, except in c0 and c1 |
| `Visible.CallWithOwnReturn` | src/executor/continuation.rs:112-140 | CALLX of a continuation that brings its own c0 uses that one and forgets the caller |
| `Visible.ReturnResumes` | src/executor/continuation.rs:973-977 | RET resumes c0, which brings back what was saved in it |
| `Visible.ReturnAltResumes` | src/executor/continuation.rs:190-196 | RETALT resumes c1 and leaves a quit with 1 there unless c1 brings its own |
| `Visible.ReturnAltTwice` | src/executor/continuation.rs:190-196 | RETALT after RETALT quits with 1 on the stack of the moment |
| `Visible.NothingToReturnTo` | src/executor/continuation.rs:268-295 | a return without a continuation to return to raises 7 |
| `Visible.PushIntReturns` | src/executor/engine/core.rs:619-625 | the implicit PUSHINT pushes its number and returns |
| `Visible.HandlerEndReturns` | src/executor/engine/core.rs:626-633 | the end of a handler returns to c0 with exactly the handler saved there in c2 |
| `Visible.BadFlag` | src/executor/engine/core.rs:652-709 | a missing loop flag raises 2 and one that is no integer 7; after WHILE c0 is then a quit with 0, after UNTIL it is as it was |
| `Visible.LoopNeedsReturn` | src/executor/engine/core.rs:677-692 | a REPEAT round without c0 raises 5 |
| `Visible.TryInstalls` | src/executor/exceptions.rs:33-72 | TRY of any two continuations: the first runs on the stack below, the caller waits in c0, the second is in c2, and both know the c0 and c2 to come back to |
| `Visible.OperandsChecked` | src/executor/continuation.rs:112-140 | every control instruction raises 2 on too few slots and 7 on slots of another kind, which are gone then |
| `Visible.LimitChecked` | src/executor/gas/mod.rs:48-54 | SETGASLIMIT takes an integer of 64 bits and raises 2, 4, 5 or 7 otherwise |
| `Visible.CodeRefused` | src/executor/engine/core.rs:568-608 | code that does not decode raises 6, a code reference that does not load 9 |
| `Visible.RaiseUnhandled` | src/executor/engine/core.rs:1463-1515 | an exception without a handler fails the run with its number, with a null handler it fails with 7 |
| `Visible.CodeEnds` | src/executor/engine/core.rs:609-618 | plain code that ends without a c0 ends the run with 0, a quit with its number |
| `Visible.WindowLeft` | src/executor/engine/core.rs:744-750 | code is at its end exactly when neither a bit nor a reference is left in its window |
| `Visible.UncaughtEnds` | src/executor/engine/core.rs:726-741 | an uncaught exception of number 0 or 1 ends the run well, of 2 .. 65535 fails it with that number, and any other number with 5 |
| `Visible.ExceptionNumbers` | src/executor/engine/core.rs:1463-1515 | the numbers under which a program sees the exceptions of the machine, with the value 0 |
| `Division.RoundFloor` | src/stack/integer/math.rs:218-235 | turns a truncated quotient into the floor quotient |
| `Division.RoundCeil` | src/stack/integer/math.rs:237-254 | turns a truncated quotient into the ceiling quotient |
| `Division.RoundNearest` | src/stack/integer/math.rs:256-286 | turns a truncated quotient into the nearest one, ties toward plus infinity |
| `Division.DivMod` | src/stack/integer/math.rs:174-192 | for every divisor but zero and every mode, x = q y + r with |r| < |y| and the sign rule of the mode |
| `Division.DivByShift` | src/stack/integer/math.rs:194-216 | shifting and masking divides by the power of two under the same rule |
| `Division.QuotientIsUnique` | src/stack/integer/math.rs:174-216 | the rule of a mode determines quotient and remainder, so both divisions agree |
| `Division.NearestIsHalfUp` | src/stack/integer/math.rs:256-286 | the nearest quotient is the floor of x / y + 1/2 |
| `Division.RemainderFits` | src/stack/integer/mod.rs:321-335 | the remainder by a divisor in range is in range, so its conversion cannot fail |
| `Division.ShiftRemainderFits` | src/stack/integer/math.rs:194-216 | the remainder of a shift by at most 256 bits is in range |
| `Division.WideShiftRemainder` | src/stack/integer/math.rs:194-216 | the remainder of a shift by 257 bits can be out of range |
| `Division.ShiftQuotientFits` | src/stack/integer/math.rs:194-216 | the quotient of a value in range by a power of two is in range |
| `Division.ShiftRemainderIff` | src/stack/integer/math.rs:194-216 | the remainder of a value in range is out of range if and only if the shift is 257 or more and rounds away from zero |
| `Division.QuotientFitsIff` | src/stack/integer/mod.rs:321-335 | the only quotient of values in range that is out of range is the least value divided by -1 |
| `Division.Div` | src/stack/integer/math.rs:138-153 | for all integers the quotient and remainder of the mode decide: NaN, a zero divisor and a quotient out of range are refused, quietly or not, and a remainder out of range always raises; for operands of 257 bits the only refused quotient is the least value divided by -1 |
| `Division.ShiftDiv` | src/stack/integer/math.rs:155-165 | for all integers the quotient and remainder of the mode decide, as for `Div`; NaN is refused, quietly or not; for a value in range only a shift of 257 or more that rounds away from zero fails, and that raises also when quiet |
| `IntegerWidth.LowestBitOnly` | src/stack/integer/mod.rs:364-369 | clearing the lowest set bit leaves nothing exactly for powers of two |
| `IntegerWidth.Bitsize` | src/stack/integer/mod.rs:354-371 | the bit size is the least n >= 1 with -2^(n-1) <= v < 2^(n-1) |
| `IntegerWidth.BitsizeIff` | src/stack/integer/mod.rs:187-189 | a value fits n bits if and only if it is in the signed n-bit range |
| `IntegerCodec.SerializeSignedBe` | src/stack/integer/serialization/signed_big_endian.rs:42-65 | succeeds if and only if the value is in the signed range, with its two's complement bits |
| `IntegerCodec.DeserializeSignedBe` | src/stack/integer/serialization/signed_big_endian.rs:67-79 | reads the signed value of all but the padding bits, and cannot fault on a buffer of up to 257 bits |
| `IntegerCodec.SerializeUnsignedBe` | src/stack/integer/serialization/unsigned_big_endian.rs:41-65 | succeeds if and only if the value is in the unsigned range, with its bits |
| `IntegerCodec.DeserializeUnsignedBe` | src/stack/integer/serialization/unsigned_big_endian.rs:67-79 | reads the unsigned value of all but the padding bits, and cannot fault on a buffer of up to 256 bits |
| `IntegerCodec.BigEndianRoundTrip` | src/stack/integer/serialization/signed_big_endian.rs:42-79 | what was stored big-endian is what is read, for every length |
| `IntegerCodec.ExtendedSigned` | src/stack/integer/serialization/common.rs:36-58 | extending the shortest byte string with fill bytes is sign extension, in both byte orders |
| `IntegerCodec.SerializeSignedLe` | src/stack/integer/serialization/signed_little_endian.rs:41-58 | succeeds if and only if the value is in the signed range, with its bytes least significant first |
| `IntegerCodec.SerializeUnsignedLe` | src/stack/integer/serialization/unsigned_little_endian.rs:40-59 | succeeds if and only if the value is in the unsigned range, with its bytes least significant first |
| `IntegerCodec.LittleEndianRoundTrip` | src/stack/integer/serialization/signed_little_endian.rs:60-67 | whole bytes stored little-endian read back as the value, for every number in range of those bytes |
| `IntegerCodec.LittleEndianOfRead` | src/stack/integer/serialization/signed_little_endian.rs:60-67 | a byte string is the little-endian bytes of what it reads as, signed and unsigned |
| `IntegerCodec.DeserializeSignedLe` | src/stack/integer/serialization/signed_little_endian.rs:60-67 | reads the number whose bytes these are; a value beyond 257 bits is a fault, which up to 32 bytes cannot happen |
| `IntegerCodec.DeserializeUnsignedLe` | src/stack/integer/serialization/unsigned_little_endian.rs:61-68 | reads the number whose bytes these are if and only if it fits 257 bits, and returns zero otherwise; up to 32 bytes it always fits |
| `IntegerCodec.TooLongToRead` | src/stack/integer/serialization/unsigned_little_endian.rs:61-68 | the 33 bytes of 2^256 read as a value that is not zero and does not fit 257 bits |
| `IntegerCodec.PartialLittleEndian` | src/stack/integer/serialization/unsigned_little_endian.rs:40-68 | with a length that is not whole bytes, the value reads back if and only if the bits of its top byte that are cut off are zero |
| `IntegerCodec.FourBitsOfOne` | src/stack/integer/serialization/signed_little_endian.rs:41-67 | the number 1 stored in four bits is accepted and reads back as 0 |
| `PushInt.TwosComplement` | src/stack/integer/mod.rs:372-387 | in place, k digits of D become those of (2^(32k) - D) mod 2^(32k) |
| `PushInt.FromBigEndianOctetStream` | src/stack/integer/conversion.rs:183-227 | reads exactly l+3 bytes and yields the signed value of the 8l+19 bits, and fails exactly when the stream is shorter |
| `PushInt.LiteralFitsIff` | src/stack/integer/conversion.rs:188-227 | a literal fits 257 bits if and only if l is at most 29 or the bytes before the last 32 are nothing but sign |
| `PushInt.LongLiteral` | src/stack/integer/conversion.rs:224-227 | a literal with l = 30 whose first value bits are 011 is out of range, and nothing checks it |
| `DataSize.DataSize` | src/executor/deserialization.rs:900-934 | the traversal succeeds if and only if at most max distinct cells are reachable, and then counts them, their bits and references exactly, independent of sharing and order |
| `DataSize.ReachableIsLeast` | src/executor/deserialization.rs:911-932 | the reachable cells are the least set closed under references |
| `CellCache.Loader.constructor` | src/executor/engine/core.rs:248-249 | empty caches are coherent |
| `CellCache.Loader.LoadPlain` | src/executor/engine/core.rs:811-819 | a load costs 100 for a new cell and 25 for a repeat, and is remembered only if paid |
| `CellCache.Loader.LoadHashedCell` | src/executor/engine/core.rs:806-879 | whatever the caches hold, the result is the uncached resolution or its failure unless gas runs out; the charge is exactly 100 for each exotic cell passed plus the price of the last cell, out of gas exactly when it cannot be paid, and both caches are updated exactly and stay coherent; `CellCache.LoadAsStood` and `CellCache.LoadByKind` say what the resolution is, kind by kind |
| `CellCache.Loader.LoadTwice` | src/executor/engine/core.rs:811-823 | a cell that has been loaded, exotic or not, loads again for 25 and with the same result unless gas runs out |
| `CellCache.HopIsKind` | src/executor/engine/core.rs:824-872 | a cell leads to the cell it stands for and to no other: a Merkle proof to its child, a Merkle update to its new child, a library reference to what the first library with that hash gives, each under its check |
| `CellCache.EndsByKind` | src/executor/engine/core.rs:824-872 | a cell that stands for another resolves as that one does; one that stands for nothing fails with the code of its kind |
| `CellCache.LoadAsStood` | src/executor/engine/core.rs:806-879 | on new caches, loading a cell that stands for another gives what that other gives with 100 less on the counter |
| `CellCache.LoadByKind` | src/executor/engine/core.rs:806-879 | loading an ordinary cell gives it for 100, or 25 if remembered; every failing kind gives its own code at its price |
| `CellCache.EndsOnce` | src/executor/engine/core.rs:808-872 | a cell resolves in one way only, so a coherent cache cannot change a result |
| `CellCache.LoadAll` | src/executor/engine/core.rs:806-879 | a sequence of loads, with and without resolution, gives the verdict of its bill for exactly its price if and only if that price is there, and is out of gas otherwise; every item is the cell or its uncached resolution, which `CellCache.EndsByKind` gives kind by kind |
| `CellCache.WalkIsRoute` | src/executor/engine/core.rs:808-872 | a load that stops has passed exactly the cells that resolution without gas passes |
| `CellCache.RouteCostsMore` | src/executor/engine/core.rs:808-872 | a load cut short by gas has not been charged more than the whole route costs |
| `CellCache.PlainBill` | src/executor/engine/core.rs:811-819 | the bill of loads without resolution: all of them succeed, for the price of the cells, whatever is cached |
| `CellCache.TotalPriceCounts` | src/executor/gas/gas_state.rs:144-146 | that price is 100 for each distinct new cell and 25 for each of the other loads |

## Left out

- The old serialization format, kept in the source for compatibility.
- The capability set without the 2022 bug fixes: exceptions and TRY behave differently there.
- Library code: builders, slices and dictionaries are bit and cell sequences and finite maps; the bit layout of a dictionary and the limit on cell depth are parameters (`DictRoot`, `accepts`). A dictionary read as raw data and raw data read as a dictionary are refused, whatever the library would make of them.
- Gas charged inside serialization, deserialization, the election and the data-size traversal.
- Parsing of depool accounts and of election messages; the election starts from a list of validators whose true stake is zero.
- 128-bit overflow in the election, except for `Election.NoOverflow`, which gives the condition under which it does not happen.
- Wrap-around of 64-bit gas counters.
- Instructions that only rewrite the stack: they are one abstract operation each, any function from stack to stack or exception.
- The variants of loops and conditionals with BRK, END and REF, CALLCC, ATEXIT, SAVE, INVERT, BOOLEVAL and the argument-count forms TRYARGS and CALLXARGS.
- GASREMAINING, BUYGAS and other reads of gas by programs; the machine changes gas limits by ACCEPT and SETGASLIMIT only.
- More than fifteen exceptions in a row without an instruction between them: instruction variables are addressed by four bits, and the index would wrap around.
- Internal errors that are not exceptions of the machine, such as a savelist address into an absent register.
- The fast branch of the data-size instructions, which counts with library counters, and saturation of its counters.
- Driver.Advance: the instruction variables are cleared before every step; the source clears them after an instruction only, which changes the index of a variable and nothing else, as long as the index does not wrap around.
- Driver.Advance: what an abstract operation, the decoder or a cell load charges is given by a tariff, any function of the step number and the state; the stack transfers, the fixed prices and the exceptions are charged as in the source.
- Simulation.Simulate: blocks are pushed as literals without saved registers or stack; programs that build continuations by hand are covered by the typing and gas theorems only.
- CellCache.Loader.LoadHashedCell: does not model the gas a library lookup spends inside the library dictionary.
- CellCache.Loader.LoadHashedCell: the child of a Merkle cell is taken as already virtualized.
- DataSize.DataSize: cells are identified with their hashes, which are taken to be injective.
