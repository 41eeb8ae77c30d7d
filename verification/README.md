# Verified models of vLLM's compiler patch, caches, allocator and tools

This project models the parts of the repository that carry real algorithms or protocols, and proves
what they are for. `dafny verify dfyconfig.toml` checks all of it.

| file | what it models |
|---|---|
| `PartitionSignatures.dfy` | the backward liveness pass that gives every graph partition its signature, and the meaning of the partitioned program |
| `SelectiveScan.dfy` | the chunked selective-scan kernel, in place, with its checkpoints |
| `ScanResume.dfy` | the chunk metadata builder, where checkpoints land, and resuming from the cache |
| `ScanInterleaving.dfy` | all programs of a launch at once, token by token |
| `ScanService.dfy` | runs of whole launches: resuming, other requests and interleaving together |
| `PlainScan.dfy` | the scan without prefix caching: one slot per request |
| `Int8Quant.dfy` | the per-token int8 reference quantiser over exact reals, with the 32-bit cast of its zero point |
| `ChunkPlan.dfy`, `RocmAllocator.dfy` | the ROCm sleep-mode allocator over a failing driver |
| `BlockStore.dfy` | storing and loading blocks by temp file and rename, interleaved and in batches |
| `NinjaReport.dfy` | the weighted build-time sweep and the log reader |
| `FlatLogprobs.dfy` | the flat log-probability container against a list of dictionaries |
| `BadWords.dfy` | the bad-words logits mask and whole generations |
| `SpinLoop.dfy` | waiting for a store with monitor hardware |
| `ForwardContext.dfy` | sequence-parallel sizes and nested context overrides |
| `Arith.dfy`, `Wrappers.dfy` | sums, quotients and optional values used by the others |

Conventions. Ordered sets whose order the source does not use are sets. Floating-point arithmetic is
either uninterpreted (the scan step) or exact (quantiser, build times, log-probabilities). Clocks,
driver faults, system-call failures, schedules and inode numbers are free choices of the
environment. Dictionaries whose order shows are lists of pairs. The fault model of the driver is the
class `RocmAllocator.Driver`: creating, mapping, reserving and granting access may fail at any time,
and undoing succeeds whenever it names something that is there. It counts the calls that fail. The
outcomes of the system calls of a store or load are given to it as a record.

Where code and comments disagree the code is modelled: the build report says it warns when the
weighted total is off by more than half a second, but compares seconds with 500.

Some expected properties do not hold, and the exact condition is proved instead:

- a downward slice of the flat container, or one that selects nothing, does not behave like the list
  slice (`SliceAgreesExactly`);
- a buffer no longer than a monitored line may still cross a line and lose a wakeup
  (`NoLostWakeupExactly`);
- a stored block stays only if no loader of its path takes part: one that looked too early can remove
  it (`StoreStaysExactly`);
- the quantiser misses its error bound when the level of the smallest entry does not fit 32 bits, as
  for a constant row of 30000 (`BoundHoldsExactly`, `LargeConstantRowFails`);
- the partitioned program lacks a buffer when a graph output, or a name used across partitions, does
  not stand for a real buffer (`RunsExactly`, with `RenamedOutputFails` and `TwoStepFails`);
- a very large configured chunk size wraps to a zero divisor or to no chunks at all
  (`ChunkSizeUsable`, `Count64Wraps`);
- a failed allocation leaves its error set, so later allocations are refused until a sleep or wake
  call reports it, and running out of host memory leaks the reservation (`Malloc`);
- waking an allocation that is awake, or with a stale error, and sleeping twice can spoil the books;
  the contracts of `Wake`, `Sleep` and `Free` say exactly when.

## Model

| member | source | states |
|---|---|---|
| PartitionSignatures.ComputeSignatures | vllm/env_override.py:198-336 | the backward loop returns, partition by partition, the signatures defined by liveness from behind, pairing the two lists from their ends when their lengths differ, and raises a KeyError exactly when some partition would return a name without a node |
| PartitionSignatures.SignatureSays | vllm/env_override.py:253-324 | name by name and over the nodes alone: which names a signature takes, that it frees one of them if and only if some node of the partition uses it last, which constants it uses, and that its flag is the one given for its partition |
| PartitionSignatures.CallFrees | vllm/env_override.py:271-291 | after a call nothing is left that had its last usage in the partition, and whatever else was there before still is |
| PartitionSignatures.RunFrees | vllm/env_override.py:271-291 | after the whole partitioned program no buffer is left that had its last usage in any partition |
| PartitionSignatures.PartitioningPreservesMeaning | vllm/env_override.py:212-336 | calling the partitions through the computed signatures, each body seeing only its named inputs and freeing at last usage, never lacks a buffer and leaves in every graph output what the unpartitioned graph without any freeing leaves there |
| PartitionSignatures.RunsExactly | vllm/env_override.py:212-336 | from the graph inputs and a store of real buffers the partitioned program never lacks a buffer if and only if graph outputs, and whatever partitions use from outside, stand for real buffers and no in-place write goes to a name that is renamed once more |
| PartitionSignatures.OneStepRunsExactly | vllm/env_override.py:212-336 | with one-step renaming that keeps layouts, as the scheduler does it, the program runs if and only if the graph outputs are real buffers |
| PartitionSignatures.UnrealIsLost | vllm/env_override.py:253-334 | on any graph and store: a renamed name, or one without memory, that the store lacks and that a partition needs or the graph returns keeps the program from running |
| PartitionSignatures.RenamedNeverAppears | vllm/env_override.py:264-313 | no run of nodes ever brings in a renamed name, so a run that succeeds without it never needed it |
| PartitionSignatures.RenamedOutputFails | vllm/env_override.py:305-334 | a concrete schedule: one in-place write whose result the graph returns under its new name does not run |
| PartitionSignatures.TwoStepFails | vllm/env_override.py:264-334 | another: two in-place writes in a row, the second recorded as standing for the first, do not run |
| PartitionSignatures.LiveIsNecessary | vllm/env_override.py:332-334 | on any graph, a successful partitioned run started with every unmet name: the set the pass ends with cannot be smaller |
| PartitionSignatures.LiveIsExact | vllm/env_override.py:332-334 | the partitioned program runs from a store if and only if the store holds the unmet names |
| PartitionSignatures.NeverUnresolved | vllm/env_override.py:309-313 | for a schedule in topological order with correct last usages no lookup of a returned name fails |
| PartitionSignatures.ReturnedIsNeeded | vllm/env_override.py:243-313 | a name that a partition defines and returns is taken by a later partition or is a graph output |
| PartitionSignatures.InputsComeFromBefore | vllm/env_override.py:253-285 | every input with a node existed before the partition and is not defined by it |
| PartitionSignatures.LiveIsUsed | vllm/env_override.py:332-334 | unmet names are used by a later partition or the graph, and are allocated real names |
| PartitionSignatures.LiveSurvives | vllm/env_override.py:287-313 | a live name is never freed by the partition before it, and is handed back if that partition takes or defines it |
| PartitionSignatures.LiveExists | vllm/env_override.py:253-334 | what the pass still wants before a schedule already exists at that point |
| PartitionSignatures.LiveIsTaken | vllm/env_override.py:332-334 | an unmet name is an input of a later partition or a graph output |
| PartitionSignatures.SimNodes | vllm/env_override.py:235-303 | inside a partition, running on the inputs alone and freeing on the way tracks the whole graph on everything wanted afterwards |
| PartitionSignatures.SimCall | vllm/env_override.py:282-334 | one partition call takes stores that agree on what is live before it to stores that agree on what is live after it |
| PartitionSignatures.OutputsAreMade | vllm/env_override.py:297-313 | what a signature returns is an input kept alive or a live buffer the partition creates |
| PartitionSignatures.LayoutKeptExactly | vllm/env_override.py:215-233 | with one-step renaming the alias walk answers the same for a renamed name and its buffer if and only if the stated condition on its layouts holds |
| PartitionSignatures.OneStepIsAcyclic | vllm/env_override.py:215-233 | one-step renaming has no cycle, so the alias walk ends |
| SelectiveScan.Program | vllm/_xpu_ops.py:661-881 | one program, in place: null blocks change nothing, otherwise every output and checkpoint is the one computed from the original buffers |
| SelectiveScan.ScanChunks | vllm/_xpu_ops.py:778-870 | the loop over chunks ends with all tokens scanned and every checkpoint stored |
| SelectiveScan.ScanChunkAndStore | vllm/_xpu_ops.py:780-870 | one chunk and its checkpoint move the buffers from one closed form to the next |
| SelectiveScan.ScanChunk | vllm/_xpu_ops.py:790-842 | the token loop of a chunk |
| SelectiveScan.ScanToken | vllm/_xpu_ops.py:791-842 | one token: the output replaces its own delta, the gated output its own z, nothing else changes |
| SelectiveScan.StoreState | vllm/_xpu_ops.py:862-881 | a checkpoint writes the running state into one cell of the cache |
| SelectiveScan.IdleProgram | vllm/_xpu_ops.py:757-778 | an entry without new tokens has no chunks, and its programs change nothing |
| PlainScan.ResumingPlainly | vllm/_xpu_ops.py:687-724 | resuming is invisible without prefix caching too: however a request is cut into launches that load and store one slot, indexed or not, all outputs and the state left in the slot are those of one uninterrupted scan |
| PlainScan.PieceContinues | vllm/_xpu_ops.py:687-881 | one such launch outputs the next part of the uninterrupted scan, leaves its state in that slot and changes no other cell |
| PlainScan.NullProgram | vllm/_xpu_ops.py:675-688 | a program whose slot is the null block changes nothing, with or without prefix caching |
| SelectiveScan.InitialState | vllm/_xpu_ops.py:709-724 | the scan starts from the stored state if there is one and from zero otherwise |
| SelectiveScan.StoreSlot | vllm/_xpu_ops.py:846-860 | the slot computed from the running position is the planned slot of that chunk |
| SelectiveScan.ChunkTokens | vllm/_xpu_ops.py:780-788 | the chunk length read at each pass is the planned one, also without prefix caching |
| SelectiveScan.ProgramOutputs | vllm/_xpu_ops.py:790-842 | each row entry afterwards is the output of the recurrence at that token, gated where there is a gate |
| SelectiveScan.ChunkSum | vllm/_xpu_ops.py:757-786 | running totals of chunk lengths are differences of the cumulative boundaries |
| ScanResume.ComputeChunkMetadata | vllm/v1/attention/backends/mamba_attn.py:265-325 | the three lists hold the start of every chunk, its request, and the last chunk of each request, for the chunks of all requests in order; every chunk between the ends of two requests is marked with the request it belongs to |
| ScanResume.OwnersFollow | vllm/v1/attention/backends/mamba_attn.py:291-321 | the marks follow from where the requests end |
| ScanResume.AddRequest | vllm/v1/attention/backends/mamba_attn.py:291-321 | one request adds the rest of a chunk begun earlier and then whole chunks |
| ScanResume.AddBlocks | vllm/v1/attention/backends/mamba_attn.py:312-318 | the loop over aligned chunks |
| ScanResume.ChunksAreAligned | vllm/v1/attention/backends/mamba_attn.py:275-318 | the chunks of a request are the cuts of its tokens at absolute block boundaries, whatever was computed before |
| ScanResume.ChunkEnds | vllm/v1/attention/backends/mamba_attn.py:298-318 | chunk k ends at the end of its block or with the request |
| ScanResume.AlignedTotal | vllm/v1/attention/backends/mamba_attn.py:320 | the chunks use up exactly the new tokens |
| ScanResume.BlockIndices | vllm/v1/attention/backends/mamba_attn.py:375-417 | the block indices of the backend in terms of full blocks and a rest |
| ScanResume.BuiltEntry | vllm/_xpu_ops.py:757-768 | what the kernel reads for an entry are exactly the chunks built for that request |
| ScanResume.BuilderDescribes | vllm/v1/attention/backends/mamba_attn.py:265-417 | chunk metadata and block indices together describe every request that has tokens to scan |
| ScanResume.CheckpointPlacement | vllm/_xpu_ops.py:757-860 | the position arithmetic stores non-final chunk k at block first + k, for a first chunk that starts anywhere in its block |
| ScanResume.DescribedPlan | vllm/_xpu_ops.py:675-870 | the kernel accepts the built metadata, scans the aligned chunks and stores chunk k, final or not, in the slot of block first + k, so no slot twice |
| ScanResume.JobCheckpoint | vllm/_xpu_ops.py:846-870 | each stored checkpoint is the state of the uninterrupted scan after exactly that many tokens |
| ScanResume.ContinuedOutputs | vllm/_xpu_ops.py:712-842 | a program resumed from the cache outputs what the uninterrupted scan outputs there |
| ScanResume.ContinuedCache | vllm/_xpu_ops.py:846-870 | a program carries the cached states on by exactly its tokens, and leaves earlier blocks alone |
| ScanResume.CacheThroughout | vllm/_xpu_ops.py:712-881 | over a run of launches of one program each the cache always holds the uninterrupted states |
| ScanResume.ResumingIsInvisible | vllm/_xpu_ops.py:712-881 | however a request is cut into launches of its program, at block boundaries or inside blocks, all outputs and all cached states equal those of one uninterrupted scan |
| ScanService.ResumingIsInvisibleInService | vllm/_xpu_ops.py:661-881 | the same when whole launches run: other requests in the same batches, all channels, and the programs of every launch interleaved in any way |
| ScanService.ActsAlone | vllm/_xpu_ops.py:661-881 | in any interleaving a whole launch leaves, in the rows and slots of one request, what the program of that request alone would leave |
| ScanService.ServicedIsServed | vllm/_xpu_ops.py:661-881 | a run of whole launches is, for each request in it, a run of its own program |
| ScanService.EveryCuttingRuns | vllm/_xpu_ops.py:712-881 | every cutting of a request whose blocks have slots is served by some run of whole launches, so the theorem speaks about all of them |
| ScanService.ServiceExists | vllm/_xpu_ops.py:661-881 | any next piece of a request is served by some whole launch in which every program finishes |
| ScanResume.LaunchExists | vllm/v1/attention/backends/mamba_attn.py:265-417 | any next piece of a request can be launched on any cache that has its slots |
| ScanInterleaving.AnyScheduleIsOutOfPlace | vllm/_xpu_ops.py:661-881 | under any interleaving of the programs of a launch, token by token, the buffers end as an out-of-place computation from the originals |
| ScanInterleaving.OutOfPlaceIsUnique | vllm/_xpu_ops.py:790-881 | that condition determines delta, z and the states completely |
| ScanInterleaving.EnoughStepsFinish | vllm/_xpu_ops.py:778-881 | a program finishes after its tokens, its checkpoints and two more steps, however it is interleaved |
| ScanInterleaving.EveryGridFinishes | vllm/_xpu_ops.py:778-881 | every launch has a schedule under which all its programs finish |
| ScanInterleaving.AloneIsRunProgram | vllm/_xpu_ops.py:661-881 | the step machine run alone gives the same buffers as the kernel loop |
| ScanInterleaving.StepIsLocal | vllm/_xpu_ops.py:790-869 | a step depends only on what its program sees and changes only what it writes |
| ScanInterleaving.StepAdvances | vllm/_xpu_ops.py:778-881 | every step moves a program one token or checkpoint on and keeps kernel order |
| ScanInterleaving.AloneStep | vllm/_xpu_ops.py:790-869 | alone, a step takes the closed form of the buffers to the next closed form |
| ScanInterleaving.StepInv | vllm/_xpu_ops.py:661-881 | every step of any program keeps all programs where running alone would have brought them |
| ScanInterleaving.PackedRowsApart | vllm/_xpu_ops.py:726-754 | packed rows of different batch entries or channels do not overlap |
| ScanInterleaving.LaunchIsApart | vllm/_xpu_ops.py:1071-1123 | a launch over packed rows whose entries keep to their own slots meets the conditions of the interleaving theorem |
| Int8Quant.BoundHoldsExactly | vllm/_xpu_ops.py:899-916 | the dequantised value misses the input by at most half a step, for every entry and every outcome of the 32-bit cast of the zero point, if and only if the mode is symmetric or the level of the smallest entry fits 32 bits |
| Int8Quant.QuantizationError | vllm/_xpu_ops.py:899-916 | in those cases every entry comes back within half a step |
| Int8Quant.LostZeroPoint | vllm/_xpu_ops.py:908-910 | in the others some outcome of the cast brings the smallest entry back wrong |
| Int8Quant.LargeConstantRowFails | vllm/_xpu_ops.py:901-916 | a concrete row: one entry of 30000 comes back more than 8000 too small, whatever the cast gives |
| Int8Quant.SmallRowsFit | vllm/_xpu_ops.py:901-910 | rows whose smallest entry is at most 21474 in size always fit |
| Int8Quant.LevelsFit | vllm/_xpu_ops.py:912-916 | the levels fit the target byte and the scale keeps its floor, whatever the cast gives |
| Int8Quant.ScaleIsTight | vllm/_xpu_ops.py:903-909 | above its floor the scale is as fine as the range allows: the largest entry in size reaches the highest level exactly, or the span takes exactly all steps; at the floor everything still fits |
| Int8Quant.LevelTable | vllm/_xpu_ops.py:899-900 | the lowest and highest level of every width and mode |
| Int8Quant.TiesToEven | vllm/_xpu_ops.py:910-914 | half-way values round to the even neighbour |
| Int8Quant.WithinRange | vllm/_xpu_ops.py:901-910 | with the uncast zero point every scaled value is within half a level of the range, also at the 1e-5 floor |
| Int8Quant.LevelError | vllm/_xpu_ops.py:912-916 | rounding and clamping one value costs at most half a step |
| Int8Quant.ClampKeepsRounding | vllm/_xpu_ops.py:912-916 | clamping adds nothing to the rounding error near the range |
| Int8Quant.LevelRange | vllm/_xpu_ops.py:899-916 | the levels fit int8 or uint8 |
| ChunkPlan.BaseChunk | csrc/cumem_allocator.cpp:25-43 | the configured number of megabytes in bytes whenever that is positive and fits 64 bits, and 256 megabytes otherwise |
| ChunkPlan.AlignUpIsLeast | csrc/cumem_allocator.cpp:343 | rounding up gives the least multiple of the granularity that is not below the size |
| ChunkPlan.AlignUpWraps | csrc/cumem_allocator.cpp:343 | the 64-bit rounding agrees with it if and only if the addition does not wrap |
| ChunkPlan.ChunkSizeUsable | csrc/cumem_allocator.cpp:368-372 | the rounded chunk size is a usable divisor if and only if its own rounding does not wrap |
| ChunkPlan.Count64Wraps | csrc/cumem_allocator.cpp:371-372 | the 64-bit chunk count is the least sufficient one if and only if its addition does not wrap; otherwise it is zero |
| ChunkPlan.PlanChunks | csrc/cumem_allocator.cpp:371-393 | the chunks are positive whole granules that add up to the aligned size, and chunk i starts at i times the chunk size; after a wrapped count there are none |
| RocmAllocator.Allocator.constructor | csrc/cumem_allocator.cpp:83-85 | a new allocator has no entries and no error |
| RocmAllocator.Allocator.CreateHandles | csrc/cumem_allocator.cpp:174-183 | the create loop makes one new handle per chunk or leaves the handles as they were; with a stale error it keeps at most the first |
| RocmAllocator.Allocator.MapChunks | csrc/cumem_allocator.cpp:184-203 | the map loop maps all chunks one after the other, or unmaps and releases everything |
| RocmAllocator.Allocator.ReleaseHandles | csrc/cumem_allocator.cpp:177-199 | releasing the handles just created gives back the earlier handles |
| RocmAllocator.Allocator.UnmapChunks | csrc/cumem_allocator.cpp:189-195 | unmapping at the running offsets gives back the earlier mappings |
| RocmAllocator.Allocator.CreateAndMap | csrc/cumem_allocator.cpp:174-217 | from a clear error the call succeeds if and only if no driver call fails; a failed create or map leaves handles and mappings exactly as before; only a failed access grant leaves the memory mapped |
| RocmAllocator.Allocator.ReserveRocmAddress | csrc/cumem_allocator.cpp:50-71 | an accepted address is aligned and disjoint from all others, otherwise no reservation is left; the first try is enough if it succeeds, and after one failure the second is accepted if and only if the address it gives is aligned |
| RocmAllocator.Allocator.UnmapAndRelease | csrc/cumem_allocator.cpp:239-262 | every chunk that is mapped is unmapped and every handle released, and the error is set exactly when something to undo was missing |
| RocmAllocator.Allocator.GiveBack | csrc/cumem_allocator.cpp:436-448 | a failed allocation gives its address back unless memory is still mapped there |
| RocmAllocator.Allocator.RecordAndMap | csrc/cumem_allocator.cpp:414-448 | recording and mapping a fresh reservation ends either fully mapped or with the driver as it was |
| RocmAllocator.Allocator.MapNew | csrc/cumem_allocator.cpp:414-450 | whatever fails, the books stay consistent with the driver |
| RocmAllocator.Allocator.Malloc | csrc/cumem_allocator.cpp:323-451 | without a stale error, a failing granularity query or driver call, a host failure or a wrapped chunk size the call succeeds; success returns an aligned fresh address mapped over tiling chunks, and is the Alloc step of the books; each failure leaves a stated state, and only a failure of host memory, or dividing by a chunk size that wrapped to zero, leaks a reservation; a stale error or a failing granularity query refuses the call and changes nothing else |
| RocmAllocator.Allocator.Free | csrc/cumem_allocator.cpp:454-571 | an awake allocation is unmapped and released, a sleeping one only unreserved; everything comes back, as the Drop step of the books, if and only if the size is the recorded one and the entry is marked asleep just when it is held by a placeholder; otherwise the reservation stays and the error is set |
| RocmAllocator.Allocator.HoldPlaceholder | csrc/cumem_allocator.cpp:690-705 | the freed address is reserved again as it was, or nothing is left reserved for it; an address that is not reserved sets the error |
| RocmAllocator.Allocator.Sleep | csrc/cumem_allocator.cpp:681-715 | all memory of the allocation goes, the address stays reserved, the error is cleared, and success is the Rest step of the books; a resident allocation goes to sleep whenever no driver call fails and the driver honours the wanted address; failure means a stale error, a lost address or an allocation that held no memory, and then the books stay right if and only if, before the call, none of its recorded handles and chunk addresses was in use |
| RocmAllocator.SleepOfEmpty | csrc/cumem_allocator.cpp:681-715 | putting an allocation without memory to sleep keeps the books right if and only if nothing recorded for it is in use |
| RocmAllocator.Allocator.Wake | csrc/cumem_allocator.cpp:762-785 | the call succeeds if and only if there was no stale error and no driver call fails; success from a placeholder is the Rouse step of the books, and without a stale error waking from a placeholder never spoils them; for every other way the call states what it leaves, and that the books stay right exactly when no recorded handle of an awake entry was overwritten, no stray handle was made and nothing was mapped without an address |
| RocmAllocator.FreeUndoesMalloc | csrc/cumem_allocator.cpp:542-560 | allocating and freeing gives back exactly the earlier driver state |
| RocmAllocator.MallocKeeps | csrc/cumem_allocator.cpp:352-450 | adding an allocation keeps reservations disjoint, mappings exact and handles in one-to-one use |
| RocmAllocator.MapInKeeps | csrc/cumem_allocator.cpp:771-773 | mapping into a placeholder keeps them |
| RocmAllocator.MapOutKeeps | csrc/cumem_allocator.cpp:681-705 | unmapping keeps them and leaves a placeholder |
| RocmAllocator.SleepKeeps | csrc/cumem_allocator.cpp:681-705 | so does putting to sleep, with or without the address |
| RocmAllocator.WakeKeeps | csrc/cumem_allocator.cpp:771-773 | so does waking |
| RocmAllocator.FreeKeeps | csrc/cumem_allocator.cpp:538-560 | so does freeing, and nothing is left mapped in the range |
| RocmAllocator.RunKeeps | csrc/cumem_allocator.cpp:323-785 | over every fault-free run of malloc, sleep, wake and free the books stay consistent, and an allocation that is not freed keeps its address, size and chunks and stays reserved |
| RocmAllocator.CallsMakeRuns | csrc/cumem_allocator.cpp:323-785 | successful calls one after the other make such a run: the steps the methods promise are the steps of the run |
| RocmAllocator.DriverIsDetermined | csrc/cumem_allocator.cpp:323-785 | the books determine the driver: with the same awake entries only one set of mappings and handles is consistent |
| RocmAllocator.StaleWake | csrc/cumem_allocator.cpp:771-785 | a wake with a stale error does harm if and only if the driver hands out a handle |
| RocmAllocator.FailedWake | csrc/cumem_allocator.cpp:174-203 | a wake whose create or map fails does harm if and only if the entry was awake and one of its handle cells was overwritten |
| RocmAllocator.WakeOfGone | csrc/cumem_allocator.cpp:771-773 | waking an allocation that lost its address leaves mapped memory nobody owns |
| RocmAllocator.ActKeeps | csrc/cumem_allocator.cpp:323-785 | each such call keeps reservations disjoint, awake allocations mapped exactly and handles in one-to-one use |
| RocmAllocator.NothingLeft | csrc/cumem_allocator.cpp:538-560 | once everything is freed the driver holds no reservation, mapping or handle |
| RocmAllocator.ResidentIsCovered | csrc/cumem_allocator.cpp:184-203 | every address of an awake allocation lies in one of its mapped chunks, backed by a live handle |
| RocmAllocator.PlaceholderEmpty | csrc/cumem_allocator.cpp:684-705 | a sleeping allocation has a reservation and nothing mapped in it |
| RocmAllocator.WakeFindsRoom | csrc/cumem_allocator.cpp:771-773 | mapping never succeeds over an awake allocation |
| RocmAllocator.ConsistentInside | csrc/cumem_allocator.cpp:352-450 | all mapped memory lies inside reservations |
| BlockProtocol.PublishedAreWhole | csrc/fs_io.cpp:40-108 | in every interleaving of storers and loaders, with every failure, a destination holds its first content or the complete buffer of a storer for it |
| BlockProtocol.LoadsAreWhole | csrc/fs_io.cpp:83-108 | a successful load fills its buffer with the beginning of one whole block, even if the path is replaced or removed meanwhile |
| BlockProtocol.TempHasOneOwner | csrc/fs_io.cpp:50-76 | whoever renames or removes a temp file finds its own inode there, and no other live storer has that inode or path |
| BlockProtocol.LostOnlyToLoaders | csrc/fs_io.cpp:86-105 | a published file goes away if and only if a loader that gave up on that path removes it |
| BlockProtocol.StoreStaysExactly | csrc/fs_io.cpp:40-108 | whenever a storer has reported success its destination is there, in every interleaving, if and only if no loader of that path takes part, or the block is absent and every storer of it finds its temp name taken |
| BlockProtocol.UnloadedStays | csrc/fs_io.cpp:40-108 | a path that nobody loads, once there, stays there under every schedule |
| BlockProtocol.LoaderUndoesStore | csrc/fs_io.cpp:87-91 | with a loader of an absent path some interleaving ends with the store reported as done and the file missing |
| BlockProtocol.LoaderRemovesPresent | csrc/fs_io.cpp:87-104 | so it does with a block that was there from the start |
| BlockProtocol.NothingToLose | csrc/fs_io.cpp:50-55 | a storer of an absent block whose temp name, like that of every storer of it, is taken by a left-over file never reports success |
| BlockProtocol.StoreSucceeds | csrc/fs_io.cpp:40-78 | a storer with a free temp name that meets no failure publishes its block |
| BlockProtocol.LoadSucceeds | csrc/fs_io.cpp:83-108 | a loader of a file that is long enough, and that meets no failure, ends with the beginning of that file and changes nothing |
| BlockProtocol.FailureIsReported | csrc/fs_io.cpp:50-105 | one failing system call, at whatever point of whatever interleaving, and the storer or loader never reports success |
| BlockProtocol.StepInv | csrc/fs_io.cpp:40-108 | every system call of every agent keeps the invariant |
| BlockProtocol.RunInv | csrc/fs_io.cpp:40-108 | so does every schedule |
| BlockProtocol.StorerStep | csrc/fs_io.cpp:40-78 | a storer changes only its own inode and temp path, and publishes only complete buffers |
| BlockProtocol.LoaderStep | csrc/fs_io.cpp:83-108 | a loader changes no data and only reads whole blocks |
| BlockStore.Disk.StoreBlock | csrc/fs_io.cpp:40-78 | the store succeeds if and only if the block is there already, or the temp name is free and none of its system calls fails or writes short; the error is that of the first call that fails; on success the block appears whole, otherwise the files are as before except for a part of the block under the temp name when its removal fails too |
| BlockStore.Disk.Cleanup | csrc/fs_io.cpp:53-76 | removing after a failure removes that name or, failing itself, changes nothing |
| BlockStore.Disk.LoadBlock | csrc/fs_io.cpp:83-108 | the load succeeds if and only if the file is there and long enough and none of its system calls fails or reads short; the error is that of the first call that fails; on success the buffer holds its beginning and nothing changes, otherwise exactly that file is removed or, if that fails, nothing |
| BlockStore.Disk.BatchLookup | csrc/fs_io.cpp:110-115 | one flag per path, true exactly for existing files |
| BlockStore.Disk.BatchStore | csrc/fs_io.cpp:210-254 | the least index whose store does not go well is reported, with every earlier block stored and no later one touched |
| BlockStore.Disk.BatchLoad | csrc/fs_io.cpp:277-317 | the least index whose load does not go well is reported, with every earlier buffer filled and no later one touched, as far as no other load goes into the same buffer |
| BlockStore.StoredLookup | csrc/fs_io.cpp:42-44 | in a batch the content already there wins, then the first store |
| BlockStore.RoundTrip | csrc/fs_io.cpp:42-44 | after a batch every destination holds its buffer whenever destinations determine their content |
| BlockAlone.StorerIsStoreBlock | csrc/fs_io.cpp:40-78 | a storer stepped alone, whatever its calls do, ends in an outcome that the store call allows |
| BlockAlone.LoaderIsLoadBlock | csrc/fs_io.cpp:83-108 | a loader stepped alone ends in an outcome that the load call allows, with the bytes it promises |
| BlockAlone.LoaderSucceedsExactly | csrc/fs_io.cpp:83-108 | a loader none of whose calls fails succeeds if and only if the file is there and long enough |
| BlockAlone.StorerSucceedsExactly | csrc/fs_io.cpp:40-78 | a storer none of whose calls fails succeeds if and only if the block is there or its temp name is free |
| BlockAlone.StorerCleansUp | csrc/fs_io.cpp:58-76 | a storer that has to clean up leaves the files as they were, or, if the removal fails, just the bytes it wrote under its temp name |
| BlockAlone.StorerEnds | csrc/fs_io.cpp:40-78 | a storer whose transfers move at least a byte is done after its bytes and six steps |
| BlockAlone.LoaderEnds | csrc/fs_io.cpp:83-108 | a loader, too, after its bytes and four steps, also when the file is too short |
| BlockStore.Disk.StoreThenLoad | csrc/fs_io.cpp:229-308 | a batch store and then a batch load that both succeed give every buffer back, whenever destinations determine their content; after a successful store the load succeeds if and only if none of its own calls fails or reads short |
| NinjaSweep.SummarizeEntries | tools/report_build_time_ninja.py:198-265 | the weights add up to the length of the union of the tasks, which is at most the length of the build; each weight lies between zero and the duration; bad tasks and the empty list raise |
| NinjaSweep.Sweep | tools/report_build_time_ninja.py:229-256 | the sweep fails if and only if some task ends before it starts; otherwise each task gets its fair share and nothing is left running |
| NinjaSweep.CollectEvents | tools/report_build_time_ninja.py:207-220 | start and stop of every task, the total time, and the first and last moment as long as no time is negative |
| NinjaSweep.SortFacts | tools/report_build_time_ninja.py:223-228 | sorting keeps exactly the events and orders them by time, starts before stops |
| NinjaSweep.RunningCovers | tools/report_build_time_ninja.py:238-254 | over a gap of positive length the running tasks are exactly those that cover it |
| NinjaSweep.Advance | tools/report_build_time_ninja.py:240-244 | dividing a gap by the number of running tasks adds each task's part |
| NinjaSweep.StartKeeps | tools/report_build_time_ninja.py:245-247 | a start records the weighted time so far |
| NinjaSweep.StopKeeps | tools/report_build_time_ninja.py:248-254 | a stop settles the task with its share |
| NinjaSweep.EventFacts | tools/report_build_time_ninja.py:248-254 | a stop finds its task running if and only if the task ends no earlier than it starts |
| NinjaSweep.ReportMeasuresUnion | tools/report_build_time_ninja.py:207-256 | the total of the report is the length of the union of the tasks, on whatever points that is measured |
| FairShare.SharesAddUp | tools/report_build_time_ninja.py:237-256 | summing fair shares by task equals summing covered gaps, for any points |
| FairShare.ShareBounds | tools/report_build_time_ninja.py:74-89 | a share is never negative nor longer than the task so far |
| FairShare.CoveredBounds | tools/report_build_time_ninja.py:220-221 | covered time is at most the time spanned |
| FairShare.PointsDoNotMatter | tools/report_build_time_ninja.py:223-244 | covered time does not depend on the points: any two ascending lists with all starts and ends among them and the same ends give the same |
| FairShare.GapIsCovered | tools/report_build_time_ninja.py:240-244 | a gap counts as covered exactly when its moments lie in the union of the tasks |
| NinjaLog.ReadTargets | tools/report_build_time_ninja.py:104-148 | without show_all the result is the grouping by command of the lines since the last reset; with it, of all lines |
| NinjaLog.ReadLine | tools/report_build_time_ninja.py:124-147 | one line is added to the targets, or starts afresh when it shows a new build |
| NinjaLog.GroupFacts | tools/report_build_time_ninja.py:132-147 | one target per command, with all its names in order and the times of its first line |
| NinjaLog.BuildIsOne | tools/report_build_time_ninja.py:124-143 | in the kept lines end times never decrease and lines of one command have the same times |
| NinjaLog.LineStep | tools/report_build_time_ninja.py:124-147 | the two tests of the reader recognise exactly the lines that do not belong to the build |
| NinjaLog.SignMeansBreak | tools/report_build_time_ninja.py:124-143 | a line that shows a sign does not belong to the build |
| NinjaLog.NoSignMeansSame | tools/report_build_time_ninja.py:124-143 | a line that shows none does |
| NinjaLog.LastBuildWins | tools/report_build_time_ninja.py:124-143 | a log that ends in a build whose first line cannot belong to what came before shows just that build |
| FlatLogprobs.RunRefines | vllm/logprobs.py:63-152 | any run of append, append_fast, extend and upward non-empty slices keeps the container equal to the list of dictionaries |
| FlatLogprobs.OpRefines | vllm/logprobs.py:63-133 | each operation does what it does on the list |
| FlatLogprobs.AppendRefines | vllm/logprobs.py:63-93 | appending items appends the dictionary they build |
| FlatLogprobs.ExtendRefines | vllm/logprobs.py:95-98 | extending appends one position per dictionary, none read as empty |
| FlatLogprobs.GetItemRefines | vllm/logprobs.py:112-120 | reading by an index from either end reads the list, index errors included |
| FlatLogprobs.SliceUpRefines | vllm/logprobs.py:121-133 | slicing upwards slices the list and gives a valid container again |
| FlatLogprobs.SliceDownExact | vllm/logprobs.py:121-133 | slicing downwards is right if and only if one position or only empty positions are chosen |
| FlatLogprobs.SliceAgreesExactly | vllm/logprobs.py:121-133 | which slices agree with the list, for every start, stop and step; an empty choice raises |
| FlatLogprobs.NextPositionAgrees | vllm/logprobs.py:175-206 | the flat and the dictionary path store the same next position, duplicates resolved alike |
| FlatLogprobs.NextItemsAre | vllm/logprobs.py:184-204 | column k of the next position has the sampled rank first and then rank k, as far as all columns and the wanted number reach |
| PyValues.LastValueWins | vllm/logprobs.py:186-205 | a dictionary built from pairs has each key once, with its last value |
| PyValues.FromDistinct | vllm/logprobs.py:66-72 | pairs with distinct keys are their own dictionary |
| PyValues.SelectedWalks | vllm/logprobs.py:121-123 | a slice selects indices in range, going up or down |
| PyValues.SelectedExactly | vllm/logprobs.py:121-123 | which indices a slice selects: the whole steps from its start to before its stop, going up or down, with missing, negative and out-of-range bounds meaning what they mean for lists |
| PyValues.LastPositions | vllm/logprobs.py:121-123 | a slice from minus m on selects exactly the last m positions |
| PyValues.PutKeepsPlaces | vllm/logprobs.py:186-205 | setting a key leaves the order of the keys, or adds the key behind them |
| FlatLogprobs.Container.Append | vllm/logprobs.py:63-72 | one more position with the items of the dictionary |
| FlatLogprobs.Container.AppendFast | vllm/logprobs.py:74-93 | one more position with the zipped columns, as long as the shortest |
| FlatLogprobs.Container.Extend | vllm/logprobs.py:95-98 | one more position per element |
| FlatLogprobs.Container.AppendForNextPosition | vllm/logprobs.py:184-193 | one more position with ranks after the sampled rank, -1 meaning all |
| FlatLogprobs.Container.At | vllm/logprobs.py:112-120 | the dictionary of that position |
| FlatLogprobs.Container.SliceOf | vllm/logprobs.py:121-133 | a new container, or the error; going up it stands for the slice of the list, and otherwise it reads back like that slice if and only if one position or only empty ones are chosen |
| FlatLogprobs.Container.Iterate | vllm/logprobs.py:146-152 | all positions in order |
| BadWords.NeverGenerated | vllm/logits_process.py:56-87 | whatever logits come in, a history chosen from masked logits contains no bad word |
| BadWords.ExactlyTheClean | vllm/logits_process.py:56-104 | with finite logits exactly the histories without a bad word can be generated |
| BadWords.Generate | vllm/logits_process.py:52-104 | a generation that calls one processor at every step, computing its bias once, and takes any token above minus infinity contains no bad word, stops early only when every token is masked, and raises exactly on ids out of range or empty words, at the first call |
| BadWords.EndsAt | vllm/logits_process.py:70-80 | a token completes a word exactly when the word then ends the history |
| BadWords.BothBiases | vllm/logits_process.py:85 | adding both biases masks exactly the hits and leaves the others unchanged, also when one of the two is a single entry that is stretched |
| BadWords.StretchedIsMask | vllm/logits_process.py:85 | for one vocabulary size that is the mask of the forbidden tokens |
| BadWords.ForbiddenIsHit | vllm/logits_process.py:64-104 | a token is forbidden if and only if it is a one-token word or completes a longer one |
| BadWords.LongBiasStep | vllm/logits_process.py:66-83 | one word of the loop biases its last token if and only if the history ends in the rest of it |
| BadWords.NoBadWordsProcessor.constructor | vllm/logits_process.py:52-54 | nothing is cached at first |
| BadWords.NoBadWordsProcessor.Call | vllm/logits_process.py:56-87 | the mask is the same whether the one-token bias is computed or cached; ids out of range, empty words and, after a change of the vocabulary size, sizes that do not add up raise, each exactly when stated |
| BadWords.NoBadWordsProcessor.InitWordBias | vllm/logits_process.py:89-104 | the cached bias masks exactly the one-token words; with ids out of range nothing is cached |
| BadWords.NoBadWordsProcessor.LastTokenBias | vllm/logits_process.py:64-83 | the bias masks exactly the last tokens of longer words that the history is about to complete, and fails exactly on an empty word or a last token beyond the logits |
| BadWords.NoBadWordsProcessor.CheckTokenIdsBounds | vllm/logits_process.py:106-121 | passes if and only if every id is in the vocabulary |
| SpinLoop.NoLostWakeup | csrc/spinloop.cpp:126-152 | with the buffer in one monitored line the waiter never sleeps unwoken while the callback would say yes, in any interleaving |
| SpinLoop.NoLostWakeupExactly | csrc/spinloop.cpp:91-152 | among buffers the code accepts that holds if and only if the buffer lies in one line |
| SpinLoop.CrossingLosesWakeup | csrc/spinloop.cpp:91-152 | a buffer that crosses into the next line loses a wakeup |
| SpinLoop.Responsive | csrc/spinloop.cpp:93-152 | once the callback would say yes, two steps of the waiter return true |
| SpinLoop.StepInv | csrc/spinloop.cpp:93-152 | every step of the waiter, the hardware or a writer keeps the invariant |
| SpinLoop.ClockEverySixteen | csrc/spinloop.cpp:107-124 | with a timeout at most 15 passes go by without a look at the clock, however often the 32-bit counter wraps |
| SpinLoop.TimesOut | csrc/spinloop.cpp:107-124 | once the clock has run out and the callback keeps saying no, sixteen passes return false, wherever the counter stands |
| SpinLoop.StepAnswers | csrc/spinloop.cpp:93-152 | a step answers true, false or fails exactly when the callback says yes, an expired clock is looked at, or a call fails |
| SpinLoop.WaitsWhenItMay | csrc/spinloop.cpp:91-152 | a pass goes into the hardware wait if and only if the buffer is no longer than a line and the processor has the instructions, and leaves it if and only if it was woken |
| SpinLoop.NeverWaitsUnqualified | csrc/spinloop.cpp:91-168 | a buffer that does not qualify never gets into the hardware wait, in any interleaving |
| SpinLoop.StoreLands | csrc/spinloop.cpp:126-152 | a store changes the byte it names and no other |
| ForwardContext.SizesAreDifferences | vllm/forward_context.py:123-128 | the sizes are the differences of the independently written cumulative counts |
| ForwardContext.RankHoldsItsTokens | vllm/forward_context.py:61-69 | the entries of a rank are equal, and their sum is the least multiple of the group size that is not below its tokens |
| ForwardContext.OverridesRestore | vllm/forward_context.py:244-256 | any nesting of overrides, raising or not, leaves the context as it was, and every look sees the innermost override |

## Left out

- PartitioningPreservesMeaning: assumes topological order, correct last usages in real names, graph inputs that are not renamed, and the condition of `RunsExactly`.
- ComputeSignatures: symbol inputs, and the order in which inputs and outputs are listed, are not modelled; a cyclic renaming, on which the alias walk does not end, is excluded.
- Program: dtype casts, masks over the state width and the strides of u, B and C are inside the uninterpreted step.
- ResumingIsInvisibleInService: between launches the cached slots of the request are assumed untouched; eviction and sharing policies of the cache manager are not modelled.
- QuantizationError: the cast of the scale to the input type is the identity, so rounding of the scale is not bounded; infinities and not-a-number are not modelled.
- Malloc: what happens after a division by zero is undefined; the model stops there.
- Free: entries of failed allocations, whose handle cells are already released, are excluded.
- Sleep: entries of failed allocations, whose handle cells are already released, are excluded.
- Wake: entries of failed allocations, whose handle cells are already released, are excluded.
- RocmAllocator.Driver: reserving, creating and mapping follow the documented driver interface, not code of this repository.
- GiveBack: which of several errors is reported.
- UnmapAndRelease: which of several errors is reported, device contexts and the CPU backup of contents during sleep are not modelled.
- StoreBlock: O_DIRECT alignment is not modelled, and the creation of parent directories is one call with a status.
- BatchLoad: buffers are the same or apart; buffers that overlap in part are not modelled.
- SummarizeEntries: the per-extension listing and all printing; start and end times are assumed to parse.
- ReadTargets: the header line and number parsing.
- NoLostWakeup: a callback reads the buffer in one step, and the monitored line has the size the processor reports.
- NextPositionAgrees: decoding of tokens.
- Call: infinities other than minus infinity and not-a-number are not modelled.
- OverridesRestore: setting the context with metadata and forward-time logging; `sp_local_sizes`, which always resets to none, is not modelled.
- The tokenizer step that turns bad words into token ids.
- The CUDA branch of the allocator, RDMA and fabric flags.
- The other patches of `vllm/env_override.py`, kernel wrappers, build scripts and benchmarks.
