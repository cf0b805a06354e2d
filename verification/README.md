# Verified models of vLLM components

This project models seven parts of vLLM in Dafny and proves what they promise, for all inputs and, where there is
concurrency or a protocol, for all runs. Imperative code is modelled by methods and classes that change arrays and fields;
pure code by functions. `dafny verify dfyconfig.toml` checks the whole project.

**The selective-scan kernel for XPU.** `ScanRecurrence` is the state-space recurrence itself, token by token. `ScanKernel`
is one program of the kernel, working in place on arrays: its output overwrites the input it came from. `ChunkMetadata` is
the builder that cuts requests into chunks, and `PrefixCache` joins the two: a sequence served in any number of calls,
resumed from the state cache each time and padded to a power of two, gives the outputs of one uninterrupted, unpadded scan.
A sequence may also go on from a prefix that another request left in the cache. `PrefixCacheExample` shows runs that meet
the assumptions. `ScanResume` says the same of two runs in any mode with any chunks. `ScanClosedForm` solves the recurrence, and
`ScanTensors` models the launcher and says what the kernel computes in terms of tensor elements; `ScanTensorsExample` shows a
call that meets its assumptions. `ScanGrid` interleaves all programs of a
launch in every possible way and shows that the memory they leave does not depend on the schedule; `ScanLayout` derives what
this needs from the launcher's layouts, for requests that may load the same slot.

**Graph partitions and memory planning.** `GraphPartition` is the backward pass that gives each partition of a compiled
graph its signature; `PartitionSoundness` runs the partitions forward with these signatures and shows when inputs and graph
outputs are there, assuming of the scheduler what its predicate `Lawful` says. `MemoryPlan` is the planning pass with its
stack of planning states, and the recursion over nested subgraphs that it stands for.

**The ROCm sleep-mode allocator.** `CuMemChunks` is the chunk arithmetic on 64-bit words, `CuMemDriver` a driver whose
calls may fail, and `CuMemAllocator` creation, mapping, rollback and teardown with the sticky global error code. `CuMemRuns`
is about whole runs of sleeping and waking, with waking allowed at any time.

**The monitor/wait spin loop.** `SpinLoop` interleaves the waiter, which reads the buffer byte by byte, with writers.

**The benchmark's client pool.** `ClientPool` covers every interleaving of the clients, and crashes.

**The build-time report.** `NinjaLog` is the log reader, `BuildSweep` and `BuildReport` the event sweep over `Target`
objects, and `WeightedTime` a definition of weighted durations that does not know of the sweep.

**The reference int8 quantizer.** `Int8Quant` is the quantization of one row. `Basics` holds shared definitions.

## What the code does not do

Where a promise does not hold for the code as it is, the project keeps the code and states exactly when the promise holds. A
lemma shows a case; for the allocator, the contracts say what happens instead.

- The scan kernel walks along tokens in steps of one cell. For a tensor whose tokens are not adjacent in memory it uses wrong
  addresses from the second token on: `TokenAddressExactly`.
- The spin loop admits the hardware monitor for every buffer no longer than the largest monitored line. A buffer that reaches
  past the line being watched, which may be smaller, can be written without waking the waiter. `NoLostWakeupExactly` gives the condition, `LostWakeupHappens` the run.
- A wake call overwrites the handle cells before it finds that it cannot map. An allocation that is woken while awake stays
  mapped, but the next sleep call unmaps it and leaks its handles: `AlwaysWholeExactly`, `WakeWakeSleep`.
- `create_and_map` entered with the error code set creates one handle and releases none; `CreateAndMap` says so. `my_malloc`
  never clears the code, so after one failure every later call fails until a sleep or wake call clears it. When its callback
  fails, it returns null with a clear code and keeps the reservation. A size so large that a rounding overflows gets an address with
  nothing mapped; `OverflowPlansNothing` and `MyMalloc` say so.
- The closing assertion of the planning pass accepts some unbalanced lines: `PassSucceedsExactly`, `UnbalancedButAccepted`.
- Buffers without layout are filtered out before names are renamed and last uses are added, so a partition can still get one
  as an input, against what the code's comment says: `UnallocatedInputExactly`. Nobody hands it on, so if a partition makes
  it, the input is not available: `InputsAreAvailableExactly`, `UnallocatedInputHappens`. A graph output that is an alias stays in
  the set of unmet names: `LeftOverExactly`, `LeftOverHappens`.
- A client that dies of an exception loses its prompt: `ExactlyOnceExactlyWhenNoCrash`, `LostPrompts`, `CrashLosesPrompt`.
- The report finds the first start only if no start is negative or the last entry has it: `EarliestExactly`,
  `EarliestMissesNegative`. It fails on a command that stops before it starts, and on no entries: `SummarizeEntries`.
- The quantizer's zero point may not fit its 32-bit type: `ZeroPointFitsExactly`, `LargeConstantRow`, `BoundaryRow`.

## Model

| member | source | states |
|---|---|---|
| `ScanRecurrence.OutputSplit` | vllm/_xpu_ops.py:612-676 | scanning one run of tokens and then another from where the first ended gives the outputs and gated outputs of scanning them as one run |
| `ScanRecurrence.PaddedState` | vllm/_xpu_ops.py:535-660 | for every width of at least dstate and any function in place of exp, the padded state is the unpadded state followed by zero lanes, after any number of tokens |
| `ScanRecurrence.PaddedOutput` | vllm/_xpu_ops.py:642-676 | padding changes neither outputs nor gated outputs |
| `ScanRecurrence.NextPowerOf2` | vllm/_xpu_ops.py:909 | the width is at least dstate and is the least power of two that is |
| `ScanClosedForm.StepSizeIs` | vllm/_xpu_ops.py:628-638 | the step size is delta plus bias; under softplus log(exp(x) + 1) for x up to 20 and x itself above |
| `ScanClosedForm.StateInClosedForm` | vllm/_xpu_ops.py:640-660 | for every number of tokens and every lane, the state is the initial state times the product of all exp(dt * a), plus, for each token, dt * u * b times the product of these factors for the tokens after it |
| `ScanClosedForm.OutputsInClosedForm` | vllm/_xpu_ops.py:660-676 | each output is the lane sum of that state times c, plus D * u; the gated output times 1 + exp(-z) is the output times z, wherever that divisor is not 0 |
| `ChunkMetadata.ChunksCover` | vllm/v1/attention/backends/mamba_attn.py:253-282 | the chunks of a request cover exactly its scheduled tokens, so the builder's closing assertion holds |
| `ChunkMetadata.ChunkEnds` | vllm/v1/attention/backends/mamba_attn.py:260-280 | no chunk is longer than a block; chunk c ends at the end of block done / size + c of the sequence unless it is the last, which ends where the call ends, within its block |
| `ChunkMetadata.BoundaryIsChunkEnd` | vllm/v1/attention/backends/mamba_attn.py:234-246 | the state can be retrieved every chunk_size tokens: each block boundary that the call reaches is the end of one of its chunks |
| `ChunkMetadata.AppendBlocks` | vllm/v1/attention/backends/mamba_attn.py:274-280 | appends one start offset and one owner per block-sized chunk and advances by all remaining tokens |
| `ChunkMetadata.AppendRequest` | vllm/v1/attention/backends/mamba_attn.py:260-282 | appends the start offsets and owners of all chunks of the request, the one finishing an unfinished block first |
| `ChunkMetadata.ComputeChunkMetadata` | vllm/v1/attention/backends/mamba_attn.py:227-287 | for every batch, the lists describe each request: its chunks are consecutive, belong to it alone, have its planned lengths, and start at its own tokens |
| `ScanKernel.ColumnOfChunk` | vllm/_xpu_ops.py:591-704 | for layouts with at most one block in the first chunk and exactly one in the middle ones, chunk c stores to column first + c and the last chunk to the last column |
| `ScanKernel.WrittenNext` | vllm/_xpu_ops.py:624-676 | when token n is reached its inputs are still unwritten, and storing its outputs over them is progress by one token |
| `ScanKernel.ScanToken` | vllm/_xpu_ops.py:624-676 | one position: the new state of the recurrence that `ScanClosedForm` solves, its output over delta, the gated output over z, nothing else |
| `ScanKernel.ScanChunk` | vllm/_xpu_ops.py:624-678 | after a chunk the state is the recurrence's, and delta and z hold the outputs computed from the untouched inputs up to there |
| `ScanKernel.StoreState` | vllm/_xpu_ops.py:696-703 | the masked store writes the first dstate lanes to the slot and nothing else |
| `ScanKernel.LoadInitialState` | vllm/_xpu_ops.py:543-558 | zeros, or the cached state of the loaded slot padded with zeros |
| `ScanKernel.ScanChunks` | vllm/_xpu_ops.py:612-704 | the chunk loop leaves every chunk's state, as the flat token-by-token scan has it there, in that chunk's slot, and all outputs in place |
| `ScanKernel.ScanProgram` | vllm/_xpu_ops.py:495-715 | in place refines out of place: outputs, gated outputs and checkpoints are those computed from an untouched copy of the inputs, which `KernelSolvesRecurrence` gives in closed form; a null slot changes nothing |
| `PrefixCache.FirstColumnIs` | vllm/v1/attention/backends/mamba_attn.py:346-348 | the first scheduled token's block index is done / size |
| `PrefixCache.LastColumnIs` | vllm/v1/attention/backends/mamba_attn.py:349-360 | the last scheduled token's block index is that of the last chunk: done / size + number of chunks - 1 |
| `PrefixCache.BuilderLayout` | vllm/v1/attention/backends/mamba_attn.py:260-280 | with the builder's chunks and block indices the kernel stores chunk c in column done / size + c, the last chunk included |
| `PrefixCache.KernelSeesChunks` | vllm/_xpu_ops.py:591-622 | the kernel reads back from the builder's lists exactly the chunks that the builder cut |
| `PrefixCache.BuilderSchedules` | vllm/v1/attention/backends/mamba_attn.py:227-287 | a launch that carries the builder's lists and block indices presents each request as the theorems about calls assume it |
| `PrefixCache.StoreThenRead` | vllm/_xpu_ops.py:696-703 | a stored state is read back lane for lane and no other column of the row changes |
| `PrefixCache.CheckpointColumns` | vllm/_xpu_ops.py:680-704 | after n chunks, the columns of these chunks hold the scan's states at their ends and every other column what it held |
| `PrefixCache.StartsExact` | vllm/_xpu_ops.py:508-558 | if the cache is exact, a program starts from the exact state at the first scheduled token, zeros for a new sequence |
| `PrefixCache.CallOutputs` | vllm/_xpu_ops.py:612-676 | a resumed call puts out what the uninterrupted, unpadded scan puts out at these tokens |
| `PrefixCache.CallKeepsCache` | vllm/_xpu_ops.py:612-704 | a call keeps the cache exact: from the column on that the run first loaded, the states at all block boundaries passed and at the call's end are in their columns |
| `PrefixCache.ServeCall` | vllm/_xpu_ops.py:865-1029 | a run of the kernel on a scheduled request is a call in the sense of the theorems about calls |
| `PrefixCache.CacheExactBefore` | vllm/_xpu_ops.py:508-558 | before every call of every run of calls, whether it begins a sequence or goes on from a prefix in the cache, the cache is exact for the tokens computed so far |
| `PrefixCache.ResumingEqualsNeverStopping` | vllm/_xpu_ops.py:508-715 | for every way of cutting a sequence, or what is left of it after a cached prefix, into calls, each token gets the output and gated output of one uninterrupted scan of the whole sequence, and the cache is exact after each call; columns before the loaded one may repeat null blocks |
| `PrefixCache.PrefixHit` | vllm/v1/core/single_type_kv_cache_manager.py:999-1016 | a request that shares its first (j + 1) * size tokens with another and names in column j the slot of that one's checkpoint starts from its own exact state |
| `PrefixCache.SharedPrefixEqualsOwnScan` | vllm/_xpu_ops.py:508-715 | such a request gets the outputs of its own uninterrupted scan from the first token on |
| `PrefixCacheExample.TwoCallsServe` | vllm/_xpu_ops.py:508-715 | two calls that meet all assumptions of the theorem on resuming, the second resuming from the slot the first stored |
| `PrefixCacheExample.SecondRequestHits` | vllm/v1/core/single_type_kv_cache_manager.py:999-1016 | two requests that meet all assumptions of the theorem on shared prefixes: the second starts behind the first block and gets the output of its own scan |
| `ScanResume.LastStateIsCached` | vllm/_xpu_ops.py:678-715 | in every mode and for every chunking, a run leaves the exact state after all its tokens in its last slot |
| `ScanResume.RunOutputs` | vllm/_xpu_ops.py:612-676 | in every mode and for every chunking, a run puts out the unpadded recurrence's outputs |
| `ScanResume.ResumeWithAnyChunks` | vllm/_xpu_ops.py:508-715 | two runs, the second loading what the first stored last, give the outputs and the final state of one run over all tokens, in every mode and for every chunking of either |
| `ScanResume.ScanTwice` | vllm/_xpu_ops.py:508-715 | two runs of the kernel on one cache are such a pair |
| `ScanTensors.TokenAddressExactly` | vllm/_xpu_ops.py:560-588 | with the launcher's strides, the address that the kernel uses for a token is that of its tensor element if and only if it is the first token or tokens have stride 1 |
| `ScanTensors.LaneAddress` | vllm/_xpu_ops.py:560-588 | the same for the lanes of B and C, in both layouts |
| `ScanTensors.TokensAreElements` | vllm/_xpu_ops.py:494-588 | the values a program loads at a token are the elements of u, delta, z, B and C for its request, channel, group and token, in dense and variable-length batches |
| `ScanTensors.ChannelIsElements` | vllm/_xpu_ops.py:524-541 | and A, D and the bias are those of its channel |
| `ScanTensors.StartIsElements` | vllm/_xpu_ops.py:508-558 | and the initial state is zero, or that of the slot the request's table entry names |
| `ScanTensors.SkippedExactly` | vllm/_xpu_ops.py:508-523 | a program returns at once if and only if slots are looked up and its own is the null slot |
| `ScanTensors.CountIs` | vllm/_xpu_ops.py:499-506 | without checkpoints a program scans all tokens of its request |
| `ScanTensors.KernelScansElements` | vllm/_xpu_ops.py:612-676 | in place of element (b, d, t) of delta the kernel leaves the output of the unpadded scan of the elements of channel d of request b, and in place of that of z the gated output |
| `ScanTensors.KernelStoresState` | vllm/_xpu_ops.py:690-715 | the element (slot, d, i) of the cache, for the last slot, is lane i of the state after all tokens; without checkpoints that slot is the one loaded from |
| `ScanTensors.KernelSolvesRecurrence` | vllm/_xpu_ops.py:612-676 | so every output element is a sum over lanes and earlier tokens of products of tensor elements, with the skip term and the gate |
| `ScanTensors.RunKernel` | vllm/_xpu_ops.py:886-1029 | a run of the kernel with the launcher's parameters is a run in the sense of these theorems |
| `ScanTensorsExample.OneTokenRuns` | vllm/_xpu_ops.py:886-1029 | arguments that meet all assumptions of these theorems |
| `ScanGrid.OwnStep` | vllm/_xpu_ops.py:612-715 | a step of a program keeps it on track towards what it computes from an untouched copy |
| `ScanGrid.OtherStep` | vllm/_xpu_ops.py:495-506 | so does a step of any other program, as long as neither writes a cell that the other reads or writes; both may read the same slot |
| `ScanGrid.Exec` | vllm/_xpu_ops.py:495-715 | after any schedule all programs are on track and no cell that none of them writes has changed, shared load slots included |
| `ScanGrid.EveryScheduleComputesTheScan` | vllm/_xpu_ops.py:905-907 | when all programs are done, under any interleaving, each has computed what it computes from an untouched copy of the inputs, and nothing else has changed; programs may load the same slot |
| `ScanGrid.AnyTwoSchedulesAgree` | vllm/_xpu_ops.py:905-907 | any two schedules that let every program finish end in the same memory |
| `ScanGrid.FinishedIsComputed` | vllm/_xpu_ops.py:612-715 | the sequential kernel program, run alone, computes the same |
| `ScanGrid.StepsAreProgress` | vllm/_xpu_ops.py:612-715 | every step of an unfinished program brings it one step nearer to its end, and it is finished exactly when none is left |
| `ScanGrid.CompleteScheduleExists` | vllm/_xpu_ops.py:495-715 | every schedule, wherever it stopped, can be continued until all programs are done |
| `ScanGrid.PackedRangesAreDisjoint` | vllm/_xpu_ops.py:560-588 | in a packed variable-length batch no token position belongs to two programs |
| `ScanLayout.DenseRangesAreDisjoint` | vllm/_xpu_ops.py:569-588 | nor does it in a dense batch |
| `ScanLayout.CellIdentifies` | vllm/_xpu_ops.py:551-558 | in a cache whose strides nest, a cell belongs to one slot and one row |
| `ScanLayout.LayoutSeparates` | vllm/_xpu_ops.py:865-1029 | with the launcher's layouts and requests that store apart, no two programs interfere |
| `ScanLayout.LayoutMakesGrid` | vllm/_xpu_ops.py:865-1029 | so every such launch, also one whose requests load a common slot, is covered by the theorems about schedules |
| `ScanLayout.BuiltEntryIsWhole` | vllm/v1/attention/backends/mamba_attn.py:227-287 | the builder's chunks of a request are all of its tokens, as these layouts assume |
| `ScanLayout.SharingMakesGrid` | vllm/v1/core/single_type_kv_cache_manager.py:999-1016 | a launch of two requests that load the same slot and store in their own is such a grid |
| `GraphPartition.NoneFollowsAlias` | vllm/env_override.py:215-233 | an alias has no layout exactly when the buffer it stands for has none |
| `GraphPartition.Gather` | vllm/env_override.py:238-270 | the merged outputs, reads and writes, and last uses of all nodes of a partition |
| `GraphPartition.ProcessPartition` | vllm/env_override.py:235-334 | one turn of the loop: the partition's signature, the names left to earlier partitions, and failure exactly when a returned, allocated name has no node |
| `GraphPartition.ProcessBackwards` | vllm/env_override.py:235-336 | each partition's signature answers to the demands of all later partitions, in the order of the partitions |
| `GraphPartition.PartitionSignatures` | vllm/env_override.py:198-336 | the whole pass, lists of different lengths included: the last partitions that have a flag get their signatures, and it fails if and only if one of these would return a name without node |
| `PartitionSoundness.InputFacts` | vllm/env_override.py:253-280 | an input of a partition is named by its real name, and neither the partition nor a later one produces it |
| `PartitionSoundness.MetAlways` | vllm/env_override.py:235-334 | before every partition, each allocated buffer that is unmet and not still to be produced is available, where a partition hands on only what it made or was given and did not free |
| `PartitionSoundness.InputsAreAvailable` | vllm/env_override.py:282-291 | running forward with the computed signatures, with every partition handing on only what it has, a partition whose inputs are all allocated finds every one of them |
| `PartitionSoundness.InputsAreAvailableExactly` | vllm/env_override.py:247-291 | for every lawful graph, unallocated buffers included: a partition finds every input of its signature if and only if none of its unallocated inputs is made by some partition |
| `PartitionSoundness.UnallocatedAvailableExactly` | vllm/env_override.py:287-334 | an unallocated input is available if and only if no partition makes it |
| `PartitionSoundness.NeverHandedOn` | vllm/env_override.py:293-313 | an unallocated buffer that some partition makes is available to none |
| `PartitionSoundness.OutputIsOwn` | vllm/env_override.py:293-313 | an output of a signature was made by the partition or is one of its inputs, and the partition does not free it |
| `PartitionSoundness.OutputsAreHeld` | vllm/env_override.py:287-313 | each partition has every output of its signature to hand on, and its signature frees none of them, whatever its unallocated inputs are |
| `PartitionSoundness.UsesAreCovered` | vllm/env_override.py:247-266 | everything a node of a partition reads or writes is allocated nowhere, produced inside, not a node of the graph, or an input of its signature |
| `PartitionSoundness.OutputsAreAvailable` | vllm/env_override.py:293-313 | after the last partition every output of the graph is available under its real name, aliases included, although only held names are handed on |
| `PartitionSoundness.FreedIsGone` | vllm/env_override.py:265-291 | the other half of liveness: in a lawful graph a buffer that some node uses for the last time is available to no later partition |
| `PartitionSoundness.UnmetExactly` | vllm/env_override.py:332-334 | a name made by a partition is unmet after it if and only if the graph returns it or a later partition needs it |
| `PartitionSoundness.SignatureExactly` | vllm/env_override.py:235-328 | every field told from the nodes alone: the inputs are the buffers needed from outside; an input is freed if and only if a node of the partition uses it last; constants are the needed ones; the flag is the given one; in a lawful graph the outputs are the allocated inputs not freed and the buffers made here that the graph returns or a later partition needs |
| `PartitionSoundness.NoMissingOutput` | vllm/env_override.py:309-313 | for lawful graphs no lookup of an output fails |
| `PartitionSoundness.AliasStaysUnmet` | vllm/env_override.py:303-334 | an alias is unmet exactly when the graph returns it |
| `PartitionSoundness.ProducerSettles` | vllm/env_override.py:332-334 | a buffer's producer settles all demands for it |
| `PartitionSoundness.LeftOverExactly` | vllm/env_override.py:212-336 | a produced name is unmet in the end if and only if it is an output of the graph and an alias; without such aliases only names that no partition produces are left |
| `PartitionSoundness.LeftOverHappens` | vllm/env_override.py:303-334 | a lawful graph whose returned alias stays unmet |
| `PartitionSoundness.UnallocatedInputExactly` | vllm/env_override.py:215-313 | outputs are always allocated; an unallocated buffer is an input if and only if it is a last use of the partition that it does not produce, or what it takes stands for it |
| `PartitionSoundness.UnallocatedInputHappens` | vllm/env_override.py:268-286 | a lawful graph of two partitions, the second of which reads a buffer without layout of the first for the last time, gets it as an input, and does not find it available |
| `MemoryPlan.Wrapper.DropPointless` | vllm/env_override.py:166-172 | drops the trailing planning lines that name no output |
| `MemoryPlan.Wrapper.PlanLine` | vllm/env_override.py:177-184 | one line against the stack: planned against the top state, a new state, a finished state, or a failure on an empty stack |
| `MemoryPlan.Wrapper.MemoryPlanReuse` | vllm/env_override.py:166-186 | the lines are rewritten in place as the pass prescribes, also when it raises; the result is the finished states or the exception |
| `MemoryPlan.MachineFollowsNesting` | vllm/env_override.py:175-184 | on nested lines the stack machine does what the recursion over subgraphs does and leaves all states below alone |
| `MemoryPlan.BalancedIsNested` | vllm/env_override.py:175-184 | every balanced list of lines is the flattening of a nesting |
| `MemoryPlan.TrimDropsExactly` | vllm/env_override.py:166-172 | what is dropped is a tail of planning lines none of which names an output, and all of that tail |
| `MemoryPlan.TrimKeepsBalance` | vllm/env_override.py:166-172 | trimming keeps balanced lines balanced |
| `MemoryPlan.PassPlansByNesting` | vllm/env_override.py:166-186 | for every balanced list the pass raises nothing and plans each line against the state of its innermost subgraph only; finished states come out innermost first |
| `MemoryPlan.RunByDepth` | vllm/env_override.py:175-184 | the stack is as deep as the nesting, and a line fails exactly when it needs a state and there is none |
| `MemoryPlan.PassSucceedsExactly` | vllm/env_override.py:166-186 | the pass raises nothing if and only if every line that needs a state finds one and all subgraphs are closed, and raises the closing assertion if and only if some are left open; it also accepts one exit too many |
| `MemoryPlan.UnbalancedButAccepted` | vllm/env_override.py:185-186 | an unbalanced list that the closing assertion accepts |
| `CuMemChunks.BaseChunk` | csrc/cumem_allocator.cpp:25-43 | for every environment value, a whole number of megabytes: the value given if it is not 0 and fits a word as bytes, and else 256 |
| `CuMemChunks.ConfiguredTiles` | csrc/cumem_allocator.cpp:25-43 | every chunk but the last has the configured number of bytes, or 256 MB, rounded up by less than one granule, and none has more |
| `CuMemChunks.RoundUp` | csrc/cumem_allocator.cpp:343 | rounding on machine words gives a multiple of the granularity that fits a word, overflow included |
| `CuMemChunks.RoundUpExact` | csrc/cumem_allocator.cpp:343 | without overflow the rounded size covers the request with less than one granule to spare |
| `CuMemChunks.RoundUpCoversExactly` | csrc/cumem_allocator.cpp:343 | the rounded size covers the request if and only if the sum in the rounding does not overflow, and is 0 if and only if it does |
| `CuMemChunks.ChunkSizes` | csrc/cumem_allocator.cpp:368-393 | for every reservation, overflowing ones included: without overflow the chunks tile it, as positive multiples of the granularity, all but the last of full size, that add up to it; with overflow there are none |
| `CuMemChunks.ByteInOneChunk` | csrc/cumem_allocator.cpp:184-203 | every byte of the reservation lies in exactly one chunk |
| `CuMemChunks.OverflowPlansNothing` | csrc/cumem_allocator.cpp:343-393 | for every request: it gets no chunks if and only if it is empty or one of the two roundings overflows |
| `CuMemDriver.FirstFailureExactly` | csrc/cumem_allocator.cpp:240-261 | the first error is 0 if and only if no call failed, and otherwise the status of the first call that did |
| `CuMemDriver.CheckedIsClearExactly` | csrc/cumem_allocator.cpp:87-98 | after any sequence of checked calls the code is clear if and only if it was clear before and none of them failed |
| `CuMemAllocator.ChunksRemoved` | csrc/cumem_allocator.cpp:243-250 | removing the chunks' addresses undoes mapping them |
| `CuMemAllocator.BytesAreMapped` | csrc/cumem_allocator.cpp:184-203 | after mapping, every byte of the range lies in a new mapping, chunk i right behind the chunks before it and to the i-th new handle, and nothing else is mapped anew |
| `CuMemAllocator.FailedAttemptExactly` | csrc/cumem_allocator.cpp:174-203 | the driver calls of a failed attempt one by one: creates, maps end to end, unmaps of what was mapped, and one release of each handle, in order |
| `CuMemAllocator.Allocator.EnsureContext` | csrc/cumem_allocator.cpp:109-117 | one driver call or three; for any driver the code is that of the last one that failed, and what it was before if none did |
| `CuMemAllocator.Allocator.ReleaseFirst` | csrc/cumem_allocator.cpp:252-257 | for any cells: releases what they name, in order, whatever fails; the result is the first error; 0 means that each cell named a live handle that no earlier cell named, and that all of them are gone; on a reliable driver this is also enough |
| `CuMemAllocator.Allocator.UnmapFirst` | csrc/cumem_allocator.cpp:243-250 | unmaps the same address and size pairs that mapping used, whatever fails; for any driver the result is the first error, and 0 means that all chunks are gone |
| `CuMemAllocator.Allocator.CreateHandles` | csrc/cumem_allocator.cpp:174-183 | one handle per chunk, or the handles before the failing one are released; with the error code set on entry it stops after one create and releases nothing; after any outcome the cells hold the handles created, in order, and beyond them what they held; the code is the status of the create that failed |
| `CuMemAllocator.Allocator.Undo` | csrc/cumem_allocator.cpp:189-201 | unmaps what was mapped and releases every handle once |
| `CuMemAllocator.Allocator.MapHandles` | csrc/cumem_allocator.cpp:184-203 | all chunks mapped end to end, chunk i to handle i, or, for every failing chunk and with rollback calls that succeed, nothing mapped and every handle released; the code is the status of the map that failed |
| `CuMemAllocator.Allocator.Attempt` | csrc/cumem_allocator.cpp:174-217 | both phases and the access call, for any driver: the exact calls made, how many are checked, and that only a failing access call leaves everything mapped with the code set |
| `CuMemAllocator.Allocator.CreateAndMap` | csrc/cumem_allocator.cpp:119-217 | with a clear error code: all chunks mapped to new handles and access given, or, for every failure point and with other calls that succeed, nothing left behind and each created handle released exactly once; with the code set, before the call or by a context call that fails: failure, and the first handle is lost if it was created; for any driver the exact calls, the code as the last failing status, and the cells |
| `CuMemAllocator.Allocator.UnmapAndRelease` | csrc/cumem_allocator.cpp:219-262 | for any cells, every chunk unmapped and every cell's handle released in order whatever fails; for any driver the code becomes the first failure of these calls; on a reliable driver a mapped allocation is unmapped, what the cells name is gone, and no call fails if and only if the cells name distinct live handles |
| `CuMemAllocator.Allocator.PythonCreateAndMap` | csrc/cumem_allocator.cpp:688-753 | success means that the code was clear and everything is mapped; failure from a clear code leaves nothing, given a reliable driver; a code set before the call or by a failing context call makes it fail and lose the first handle; the cells after any outcome; afterwards the code is clear |
| `CuMemAllocator.Allocator.PythonUnmapAndRelease` | csrc/cumem_allocator.cpp:590-686 | for any driver and any cells, success if and only if the code was clear before and no call failed, and then a mapped allocation is unmapped and what the cells name is gone; on a reliable driver exactly when the cells name distinct live handles; the code is clear afterwards |
| `CuMemAllocator.Allocator.ReserveRocm` | csrc/cumem_allocator.cpp:50-71 | an accepted address is aligned and newly reserved; on failure, with a reliable driver, nothing stays reserved; the exact calls, and the status of the last one or 801 for a misaligned address |
| `CuMemAllocator.Allocator.AskGranularity` | csrc/cumem_allocator.cpp:323-341 | makes sure of a context and asks for the granularity; the code is the last of these calls that failed |
| `CuMemAllocator.Allocator.PlanChunks` | csrc/cumem_allocator.cpp:343-393 | without overflow the rounded size covers the request and its chunks tile it, each of the configured size; with overflow in either rounding there are no chunks |
| `CuMemAllocator.Allocator.MapReservation` | csrc/cumem_allocator.cpp:427-448 | the reservation is wholly mapped, or, on a reliable driver, given up with nothing left of it |
| `CuMemAllocator.Allocator.MyMalloc` | csrc/cumem_allocator.cpp:323-451 | success maps an aligned, tiled reservation that covers the request in chunks of the configured size, ending with the access call, or, for a size whose rounding overflows, maps nothing and still succeeds; failure on a reliable driver with a working callback leaves the driver as it was and the code set to the status of a call or 801; a null result with a clear code means a failed callback, and keeps the reservation with nothing mapped; with the code set on entry the call fails and touches nothing |
| `CuMemRuns.WokeKeeps` | csrc/cumem_allocator.cpp:688-753 | a wake that succeeds leaves the allocation wholly mapped with its own, new handles in its cells, and everything else as it was |
| `CuMemRuns.FailureKeeps` | csrc/cumem_allocator.cpp:174-203 | a wake that fails, at any point and made asleep or awake, keeps the allocation wholly mapped with all handles live or wholly unmapped with none |
| `CuMemRuns.SleepKeeps` | csrc/cumem_allocator.cpp:590-686 | sleep, unless a wake was made while awake, leaves the allocation wholly unmapped with no handle live, and everything else as it was |
| `CuMemRuns.WokeFromSleep` | csrc/cumem_allocator.cpp:184-203 | waking an allocation that is awake cannot succeed |
| `CuMemRuns.AlwaysWhole` | csrc/cumem_allocator.cpp:590-753 | along every run of sleeping and waking at any time, with create and map failing anywhere, in which no sleep follows a wake made while awake, the allocation is whole, its cells are its own, and the error code is clear between calls |
| `CuMemRuns.SleepLeaks` | csrc/cumem_allocator.cpp:252-257 | sleeping after the cells were overwritten by a second wake leaves every handle of the allocation live |
| `CuMemRuns.UnsafeLeaks` | csrc/cumem_allocator.cpp:174-262 | every history in which a sleep follows a wake made while awake has a run that is not whole after that sleep |
| `CuMemRuns.AlwaysWholeExactly` | csrc/cumem_allocator.cpp:590-753 | for every history of calls that can happen: all its runs are whole throughout if and only if no sleep in it follows a wake made while awake, or there are no chunks |
| `CuMemRuns.WakeWakeSleep` | vllm/device_allocator/cumem.py:229-232 | for every allocation, the run of waking, waking again and sleeping, after which nothing is mapped and all its handles are live |
| `CuMemRuns.NewAllocationIsFresh` | csrc/cumem_allocator.cpp:427-448 | a new allocation is a start of such runs |
| `CuMemRuns.WakeIsAStep` | csrc/cumem_allocator.cpp:688-753 | the wake call, made at any time, is a step of such runs |
| `CuMemRuns.SleepIsAStep` | csrc/cumem_allocator.cpp:590-686 | the sleep call on a mapped allocation is a step of such runs, and succeeds if and only if its cells name distinct live handles |
| `SpinLoop.FaithfulStep` | csrc/spinloop.cpp:128-152 | every step, of the waiter or of others, keeps: while the monitor is untriggered, the bytes read since arming are the buffer's |
| `SpinLoop.NoLostWakeup` | csrc/spinloop.cpp:93-152 | if the buffer lies in one line, in no state of any run is the waiter asleep on an untriggered monitor while the condition holds |
| `SpinLoop.LostWakeupHappens` | csrc/spinloop.cpp:91-152 | for every buffer with a byte outside the line, a condition and a run that loses a wakeup |
| `SpinLoop.NoLostWakeupExactly` | csrc/spinloop.cpp:91-152 | no condition and no run loses a wakeup if and only if the monitor is not used, the buffer is empty, or it ends within the line its first byte is in |
| `SpinLoop.OnlyPolls` | csrc/spinloop.cpp:126-165 | without the monitor the waiter never arms or waits |
| `SpinLoop.CounterCounts` | csrc/spinloop.cpp:90-124 | in every state of every run the counter is the number of iterations that passed the clock check, modulo its word |
| `SpinLoop.CadenceAcrossWrap` | csrc/spinloop.cpp:89-124 | with a timeout set, exactly one of any 16 consecutive iterations of any run reads the clock, also where the counter wraps |
| `SpinLoop.OnTimeStep` | csrc/spinloop.cpp:107-124 | every step keeps the count of iterations that go on after the deadline below the distance to the next clock check |
| `SpinLoop.DeadlineIsKept` | csrc/spinloop.cpp:89-124 | in every run at most 15 iterations go on after the deadline, and the loop gives up only when a timeout of more than a nanosecond is set and has passed |
| `SpinLoop.DeadlineIsNoticed` | csrc/spinloop.cpp:107-124 | undisturbed, from the top of any iteration with a false condition, a waiter whose deadline has passed gives up, with and without the monitor |
| `SpinLoop.ConditionIsNoticed` | csrc/spinloop.cpp:93-105 | undisturbed, a reading of a buffer on which the condition holds returns true, before arming and after |
| `SpinLoop.NeverOverlooked` | csrc/spinloop.cpp:93-152 | in every run, while the buffer keeps satisfying the condition, a reading begun on it leads nowhere but to the end of the loop |
| `SpinLoop.TrueIsFounded` | csrc/spinloop.cpp:93-152 | in every run, true is returned only on bytes read one after the other from the buffer and of which the condition holds |
| `SpinLoop.FailureEndsLoop` | csrc/spinloop.cpp:93-124 | the callback, or the clock when it is read, may fail exactly where it is used, and that ends the loop |
| `SpinLoop.EndIsFinal` | csrc/spinloop.cpp:93-168 | in every run the end is final |
| `ClientPool.InitialHolds` | benchmarks/benchmark_hidden_state_extraction.py:238-246 | the filled queue satisfies the invariant: each prompt once, one sentinel per client, prompts first |
| `ClientPool.CopiesKept` | benchmarks/benchmark_hidden_state_extraction.py:142-176 | no step makes or loses a prompt: queued, held and delivered copies stay the same in number |
| `ClientPool.StepKeeps` | benchmarks/benchmark_hidden_state_extraction.py:142-176 | every step of every client keeps the invariant and lowers a measure of the work left |
| `ClientPool.AlwaysHolds` | benchmarks/benchmark_hidden_state_extraction.py:142-176 | the invariant holds in every state of every interleaving |
| `ClientPool.NeverStuck` | benchmarks/benchmark_hidden_state_extraction.py:142-149 | while a client is active, some client can move |
| `ClientPool.RunsAreBounded` | benchmarks/benchmark_hidden_state_extraction.py:142-176 | every run takes at most two steps per item |
| `ClientPool.QuietMeansDrained` | benchmarks/benchmark_hidden_state_extraction.py:142-176 | at rest no client is active, each has met one sentinel or crashed, and exactly the crashed ones' sentinels are left |
| `ClientPool.ExactlyOnceExactlyWhenNoCrash` | benchmarks/benchmark_hidden_state_extraction.py:132-256 | at rest every prompt has exactly one result if and only if no client crashed; then the queue is empty, all items are acknowledged and each client has met one sentinel |
| `ClientPool.LostPrompts` | benchmarks/benchmark_hidden_state_extraction.py:132-176 | a prompt without a result was held by exactly one crashed client, or all clients crashed |
| `ClientPool.CrashLosesPrompt` | benchmarks/benchmark_hidden_state_extraction.py:142-176 | a run from the filled queue in which one client crashes, that comes to rest with a prompt missing |
| `WeightedTime.ShareBounds` | tools/report_build_time_ninja.py:74-82 | a command's share of a stretch lies between 0 and the stretch |
| `WeightedTime.WeightedWithinDuration` | tools/report_build_time_ninja.py:74-89 | a weighted duration lies between 0 and the duration |
| `WeightedTime.SharesAddUp` | tools/report_build_time_ninja.py:74-82 | the shares of a stretch add up to the stretch if some command runs in it and to 0 otherwise |
| `WeightedTime.WeightedTimeIsConserved` | tools/report_build_time_ninja.py:207-256 | the weighted durations of all commands add up to the time during which some command runs |
| `WeightedTime.RunsThroughout` | tools/report_build_time_ninja.py:225-228 | a command that runs at one time strictly inside a stretch runs throughout it |
| `WeightedTime.WeightedTotalAndLength` | tools/report_build_time_ninja.py:207-256 | the sum of weighted durations is at most the span of the build, and equal to it if and only if some command runs at every instant |
| `WeightedTime.TotalIsOccupied` | tools/report_build_time_ninja.py:207-256 | time in commands added up by command or by stretch of time is the same |
| `BuildSweep.SortEvents` | tools/report_build_time_ninja.py:224 | the events in order of time, starts before stops, and the same events |
| `BuildSweep.LiveIsRunning` | tools/report_build_time_ninja.py:225-242 | between two different times the commands held as running are those that run throughout |
| `BuildSweep.GainIsShare` | tools/report_build_time_ninja.py:238-245 | what an event adds to the running total is the share of every command running then, and only of these |
| `BuildSweep.LevelsGiveWeighted` | tools/report_build_time_ninja.py:238-253 | after any number of events, a command's weighted duration so far is the difference of two running totals |
| `BuildReport.StartFirst` | tools/report_build_time_ninja.py:225-228 | a command's start comes before its stop in the sweep exactly when it does not stop before it starts, equal times included |
| `BuildReport.StartKeepsHolding` | tools/report_build_time_ninja.py:238-248 | a start event keeps the sweep's invariant |
| `BuildReport.StopKeepsHolding` | tools/report_build_time_ninja.py:238-255 | a stop event does, and the weight it stores is what the command received while it ran |
| `BuildReport.NothingLeftRunning` | tools/report_build_time_ninja.py:256 | after the last event nothing is running, so the closing assertion holds |
| `BuildReport.AllEnded` | tools/report_build_time_ninja.py:249-253 | the accumulated total is the sum of the weighted durations |
| `BuildReport.HandleEvent` | tools/report_build_time_ninja.py:238-255 | one event keeps the sweep's invariant and gives a stopped command its weight; it fails only on a command that stops before it starts |
| `BuildReport.SweepEvents` | tools/report_build_time_ninja.py:229-256 | fails only without events or on a command that stops before it starts; otherwise every target has received its weight |
| `BuildReport.EarliestExactly` | tools/report_build_time_ninja.py:209-214 | the earliest start is found if and only if no start is negative or the last entry's start is the first |
| `BuildReport.EarliestMissesNegative` | tools/report_build_time_ninja.py:209-214 | two entries, the first with a negative start, for which the report finds the second |
| `BuildReport.LatestIs` | tools/report_build_time_ninja.py:210-216 | the latest end found is at least every end and at least 0, and is one of the ends unless it is 0 |
| `BuildReport.LengthIsSpan` | tools/report_build_time_ninja.py:209-220 | without negative starts the length runs from the first event to the last |
| `BuildReport.Collect` | tools/report_build_time_ninja.py:207-220 | extent, command time and one start and one stop event per entry |
| `BuildReport.SummarizeEntries` | tools/report_build_time_ninja.py:198-256 | fails exactly on no entries and on a command that stops before it starts; otherwise every target's weight is its even share of every stretch and the total is their sum |
| `BuildReport.ReportIsSound` | tools/report_build_time_ninja.py:84-89 | every weight lies between 0 and its duration; the CPU time is the length of every stretch of time, counted once for each command running in it; the weighted total is the time something ran, so at most the length, and equal to it if and only if something ran at every instant |
| `NinjaLog.ShowAllGroupsEverything` | tools/report_build_time_ninja.py:112-148 | one target per command hash, in order of first appearance, with the times of its first record and all its names in order |
| `NinjaLog.LastBuildIsMaximal` | tools/report_build_time_ninja.py:125-142 | in the last build end times never decrease and each hash has one start and end; it is cut off only by a record that conflicts with the build before it |
| `NinjaLog.StartsOverExactly` | tools/report_build_time_ninja.py:125-142 | the reader starts over on a record if and only if the record conflicts with the build read so far |
| `NinjaLog.OnlyTheLastBuildCounts` | tools/report_build_time_ninja.py:112-148 | for every log, reading without show_all is reading all of the last build and nothing else |
| `NinjaLog.EarlierBuildsAreForgotten` | tools/report_build_time_ninja.py:125-142 | a log reads the same as its part from the last boundary on |
| `NinjaLog.ReadingIsGrouped` | tools/report_build_time_ninja.py:112-148 | in either mode the result groups the records that count, each name in the target of its hash only |
| `NinjaLog.AddRecord` | tools/report_build_time_ninja.py:131-147 | appends the name to the hash's target, made new if there is none, and changes no other target |
| `NinjaLog.ReadRecord` | tools/report_build_time_ninja.py:125-147 | one record, with the two reasons to start over |
| `NinjaLog.ReadTargets` | tools/report_build_time_ninja.py:104-148 | fails exactly on a wrong header or on a time that is not a number; corrupt lines are skipped; the targets returned are new, distinct and hold the groups in order |
| `NinjaLog.RecordsExactly` | tools/report_build_time_ninja.py:115-124 | the records are the lines with five good fields, in order, with their milliseconds as seconds |
| `NinjaLog.SummarizeRead` | tools/report_build_time_ninja.py:198-256 | summarizing entries read from records keeps their times and names, fails exactly on no records and on a command that ends before it starts, and otherwise reports even shares |
| `NinjaLog.ReportBuild` | tools/report_build_time_ninja.py:315-318 | reading and summarizing in one: on a good log the entries are the commands of the last build, in order of first appearance, with their names and with the times of their lines; the report fails exactly on a log without records and on a command that ends before it starts, and otherwise gives every command its even share |
| `NinjaLog.EndsEarlyExactly` | tools/report_build_time_ninja.py:104-148 | for the records of one build, some command ends before it starts if and only if some record does |
| `Int8Quant.RoundExactly` | vllm/_xpu_ops.py:744-747 | rounding gives the one integer less than half a unit away, and of two at half a unit the even one |
| `Int8Quant.MinOf` | vllm/_xpu_ops.py:735 | an element of the row that is at most every element |
| `Int8Quant.MaxOf` | vllm/_xpu_ops.py:736 | an element of the row that is at least every element |
| `Int8Quant.ScaleCovers` | vllm/_xpu_ops.py:737-743 | qmax steps of the scale reach every element of the row from 0, or any two elements from each other, also when the scale is clamped up |
| `Int8Quant.ScaleIsLeast` | vllm/_xpu_ops.py:737-743 | no smaller scale from 1e-5 up covers all elements |
| `Int8Quant.RangeExactly` | vllm/_xpu_ops.py:733-734 | the range has as many integers as the bits tell apart, one more below 0 than above, or none below 0 |
| `Int8Quant.QuantizeExactly` | vllm/_xpu_ops.py:743-750 | the zero point is 0 or the rounded -min / scale, and an element becomes the integer in the range nearest to element / scale + zero point, ties to even after the zero point is added |
| `Int8Quant.ErrorIsHalfAStep` | vllm/_xpu_ops.py:733-750 | for every row and every width from 2 bits up, in both modes, the quantized value is in range and stands for a value at most half a step from the input |
| `Int8Quant.OrderIsKept` | vllm/_xpu_ops.py:746-750 | a larger input is never quantized to a smaller value |
| `Int8Quant.ZeroPointInRange` | vllm/_xpu_ops.py:743-744 | if 0 lies between the extremes the zero point is one of the quantized values |
| `Int8Quant.ZeroIsExact` | vllm/_xpu_ops.py:737-750 | a zero in the row comes back as exactly zero, in both modes |
| `Int8Quant.FitsAByte` | vllm/_xpu_ops.py:746-750 | up to 8 bits the result fits the signed or unsigned byte it is stored in |
| `Int8Quant.ZeroPointFitsExactly` | vllm/_xpu_ops.py:744 | the rounded quotient, which is cast before it is negated, and its negation both fit 32 bits if and only if the quotient lies strictly between -2147483647.5 and 2147483647.5 |
| `Int8Quant.LargeConstantRow` | vllm/_xpu_ops.py:743-744 | a row far outside this range |
| `Int8Quant.BoundaryRow` | vllm/_xpu_ops.py:743-744 | a row whose negated quotient fits 32 bits while the quotient that is cast does not |

## Left out

- Floating-point rounding, data-type casts on store, and the values of exp and log: numbers are exact reals, exp and log are any functions, and a division by zero has any value.
- The kernel's float accumulation order in the lane sum, which only matters with rounding.
- Calls with no scheduled tokens in prefix-caching mode: the run theorem in `PrefixCache` is about calls with at least one; `ScanResume` covers the others.
- Loads of the kernel outside a read-only tensor read as zero in the model; a launch within its tensors' extents makes none.
- The order of names within a partition signature, and symbol inputs: names are sets, and symbol inputs come from torch.
- A circular chain of mutation names, on which `is_none_layout` would not return: the partition pass requires that chains end.
- Which names count as graph outputs in the planning pass: they are a parameter.
- CuMemAllocator.Allocator.MyMalloc: a chunk size whose rounding overflows to 0 is excluded, since the code then divides by it; a failing host malloc and a negative size are not modelled.
- CuMemRuns.AlwaysWholeExactly: the driver never gives out a handle value twice; sleeping an allocation that is asleep is not a step of the runs, as the code's callers keep track of that.
- The CUDA branch of the allocator, device properties, and Python reference counting and argument parsing: straight-line or foreign code.
- `my_free` end to end: it frees the range with the caller's size, so any claim would need that size to be the recorded one.
- What mwaitx does besides waking up: it may also return at any time, as it does on its own timeout.
- The callback of the spin loop may depend on the monitored buffer only.
- The engine call and file reading of a benchmark client: a step that succeeds or raises. What gather does with an exception is not modelled.
- Splitting log lines into fields and parsing numbers: a line is corrupt, has bad numbers, or is a record.
- The stability of the event sort: events that compare equal may come in any order and nothing depends on it.
- Printing, extension grouping and command-line handling of the report: output formatting.
- Reshaping of tensors around the quantizer: rows are quantized one at a time. One bit is excluded: the symmetric scale would divide by zero.
- Wrappers around kernels whose code is not in the repository, other monkeypatches of torch, configuration, networking and other benchmark scripts: shallow or decided elsewhere.
