# Verification of the deterministic GEMM engine

This project models the library's three products (`Y = X @ W + bias`, `dW += X^T @ dY`, `dX = dY @ W^T`) from the
dispatch cascades down to the threads of the tiled kernels, and proves what the library exists for: the bits of every
output cell are one fixed term of its row, its column and its bias.

Values are terms (`Terms.Val`): a value in device memory is the tree of rounded operations that produced it, so equal
terms mean equal bits under any deterministic floating-point implementation. Nothing is assumed about the operations;
in particular `fma(0, 0, c) == c` is not, since it fails for `c = -0` (section 6.3 of IEEE 754-2008), and so the
zero-padding steps are part of every chain. `Terms.Exact` is a second reading, in which every operation is exact, and
in which every route computes the textbook product. `Bits.Bits` is a third: the bit pattern of a term on a machine. Two
laws of IEEE machines (a second padding step changes nothing more, and 1 * v is v for whatever an fma returns) decide
there which kernel pairs with different slab depths can be told apart by their output bits. `Rounding.Rounded` is a
fourth, with f64 exact and one rounding for each f32 operation. `Reference` spells every plan out in single operations,
so that what a cell is can be read there without any other definition.

| file | contents |
|---|---|
| `Numerics`, `Terms`, `Operands` | index arithmetic, terms, matrices as the kernels address them, multiply-add and mma chains |
| `Plans` | the reduction plans: what term each kernel family leaves in a cell, congruence and exactness |
| `Swizzle`, `Geometry`, `Loading` | tile order, thread-to-register map, copy schemes, each with its inverse |
| `TileKernel`, `TileCompute`, `TileStore`, `TileLaunch` | one tiled kernel, imperative: staging, sweep, epilogue, main loops, a grid in any order |
| `Pipeline` | the main loops, with two stages or one, as a state machine over all interleavings of threads and asynchronous copies |
| `Barriers` | shared memory handed from thread to thread between barriers, over all interleavings: the ultra-thin and transposition kernels |
| `Kernels`, `SmallKernels`, `TensorCore` | the kernels with their compiled constants, each proved against its plan |
| `Routing`, `Dispatch`, `TypedDispatch` | cascades, mirrors, partition; the launch sequences on shared scratch; the 16-bit tiers |
| `Engine`, `Bridge` | native-or-fallback with grow-only scratch; the event bridge between streams |
| `Reference` | every plan and every route's cell, written out operation by operation |
| `Rounding` | terms as rounded reals: the split-M reducer rounds once |
| `Bits` | terms as bit patterns: what of a kernel's slab depth its output shows |
| `Results` | the statements across modules |

Conventions. Dimensions are `m` (batch), `k` (`n_in`), `n` (`n_out`). `Routing.Sane` says they are positive and that
the three matrices have fewer than 2^31 elements, which the 32-bit kernel arguments need. Allocation outcomes are an
input of the engine's operations. alpha is 1 (the constant `One`, kept in the terms) and beta is 0, as every
dispatcher passes them. Products of two variables are written `Times`, quotients `Quot` and `Rem`, to keep index
proofs linear. Matrices read by a launch are passed as sequences, because the kernels declare their inputs
restrict-qualified; what a launch writes is an array.

Where the code and its comments disagree, the code is followed. The documentation promises full shape coverage
(src/engine.rs:69, src/error.rs:14); the cascades leave out some single-column shapes, given exactly by
`Routing.ForwardCoverage` and `Routing.DwCoverage`. The comment at kernels/sgemm_bi.cu:60 gives 2 for `WMITER`, which is
1 with the constants in the file; the warps of `nn_narrow_small` are stacked by row, whatever the comments at
kernels/sgemm_bi.cu:3110-3111 say.

## Model

| member | source | states |
|---|---|---|
| Swizzle.TileOfIdOf | kernels/sgemm_bi.cu:200-205 | every tile of the grid is reached, short last group included: its computed id is valid and leads back to it |
| Swizzle.IdOfTileOf | kernels/sgemm_bi.cu:200-205 | no tile is reached by two ids |
| Swizzle.SwizzleIsBijection | kernels/sgemm_bi.cu:143-147 | for every group size the walk is a bijection of the tile ids onto the tile grid |
| Swizzle.GroupSizeOnlyPermutesTiles | src/kernels.rs:147-153 | another group size visits the same tiles in another order |
| Swizzle.FirstTile | kernels/sgemm_bi.cu:200-205 | the walk starts at tile (0, 0) |
| Swizzle.NextTile | kernels/sgemm_bi.cu:200-205 | the next id is the next row of the column inside the group, after the group's last row the next column, after its last column the next group |
| Swizzle.RowMajorOrder | kernels/sgemm_bi.cu:5204-5206 | group size one is the row-major order of the tensor-core kernels |
| Geometry.OwnerOfRegister | kernels/sgemm_bi.cu:149-155 | a thread's registers are distinct elements inside the tile, found again by the owner functions |
| Geometry.RegisterOfOwner | kernels/sgemm_bi.cu:404-412 | every tile element is in exactly one register of exactly one thread |
| Geometry.RegisterRun | kernels/sgemm_bi.cu:409-412 | four neighbouring registers are four neighbouring columns from a multiple of four |
| Loading.CellOfSlot | kernels/sgemm_bi.cu:261-275 | every copy lands inside its slab and no cell has two writers, for all six copy schemes |
| Loading.SlotOfCell | kernels/sgemm_bi.cu:280-285 | every cell of a slab is copied by the thread, iteration and lane the inverse names |
| Loading.QuadRun | kernels/sgemm_bi.cu:280-285 | a 16-byte run starts at a multiple of four and stays inside its slab row |
| TileKernel.CopyQuad | kernels/sgemm_bi.cu:286-289 | a 16-byte copy demands aligned in-bounds source and destination and moves exactly four cells |
| TileKernel.RunInMemory | kernels/sgemm_bi.cu:286-289 | under the kernel's test four neighbours along the output are aligned, consecutive and in bounds |
| TileKernel.RedRunInMemory | kernels/sgemm_bi.cu:3757-3777 | the same for the NT right operand, four neighbours along the reduction |
| TileKernel.StageQuadAlongOutput | kernels/sgemm_bi.cu:279-298 | the vector path of a loader stages the same values as the scalar path and nothing else |
| TileKernel.StageQuadAlongReduction | kernels/sgemm_bi.cu:3757-3777 | the transposing vector path of the NT loader does too |
| TileKernel.ChunkInMemory | kernels/sgemm_bi.cu:5129-5160 | a chunk of eight halves is aligned and in bounds as far as it is valid, and zero past the matrix |
| TileKernel.StageChunk | kernels/sgemm_bi.cu:5129-5160 | the asynchronous staging of the tensor-core kernels stages what their scalar staging would |
| TileKernel.LoadUnguarded | kernels/sgemm_bi.cu:3938-3952 | the split-K kernel's left loader makes no test of the reduction index: the index has to be inside the matrix, and then the value is the zero-filled one |
| TileKernel.StageSlab | kernels/sgemm_bi.cu:239-301 | after all threads have copied, the stage holds the slab, zero-filled outside the matrix; the other stage is untouched |
| TileCompute.SeedRegisters | kernels/sgemm_bi.cu:207-233 | the accumulator of register (i, j) starts from the bias element of its own column, or zero |
| TileCompute.FmaFragment | kernels/sgemm_bi.cu:366-386 | the outer product of the fragments is added to every register once |
| TileCompute.ThreadDot | kernels/sgemm_bi.cu:322-393 | a sweep with prefetched fragments extends every register's chain by the slab's steps in ascending order |
| TileCompute.MmaFragments | kernels/sgemm_bi.cu:5292-5309 | one mma step per fragment pair extends every register's chain by sixteen reduction steps |
| TileCompute.ThreadMma | kernels/sgemm_bi.cu:5264-5311 | a sweep of ascending mma steps extends every chain by the slab's steps |
| TileCompute.ComputeSlab | kernels/sgemm_bi.cu:322-393 | the same for all threads of the CTA |
| TileStore.AddressOf | kernels/sgemm_bi.cu:404-412 | a register inside the matrix has its own output address |
| TileStore.QuadAddress | kernels/sgemm_bi.cu:413-450 | under the store's test four registers go to four consecutive addresses from a multiple of four, in bounds |
| TileStore.StoreQuad | kernels/sgemm_bi.cu:429-450 | a 16-byte store demands an aligned in-bounds address and combines each cell with its own accumulator |
| TileStore.StoreOne | kernels/sgemm_bi.cu:417-427 | the scalar store is predicated by row and column and is one step of the epilogue |
| TileStore.StoreFour | kernels/sgemm_bi.cu:429-450 | the vector store is four such steps |
| TileStore.StoreTile | kernels/sgemm_bi.cu:400-453 | every cell of the tile inside the matrix gets its final value exactly once; nothing else changes |
| TileLaunch.StageTile | kernels/sgemm_bi.cu:315-320 | staging slab k fills one stage and keeps the other |
| TileLaunch.PipelineStep | kernels/sgemm_bi.cu:310-397 | one round stages slab k + 1 and extends all chains by slab k |
| TileLaunch.PipelinedLoop | kernels/sgemm_bi.cu:303-397 | the two-stage loop leaves every register with the chain over all slabs |
| TileLaunch.SingleStageLoop | kernels/sgemm_bi.cu:1870-1948 | so does the single-stage loop |
| TileLaunch.LoadersLegal | kernels/sgemm_bi.cu:286-298 | for every slab of every tile of every split the vector copies are legal |
| TileLaunch.RunCta | kernels/sgemm_bi.cu:106-458 | one CTA writes the cells of its tile, each from its own chain, and nothing else |
| TileLaunch.OneWriter | kernels/sgemm_bi.cu:158-162 | each output index, of whichever split, belongs to exactly one CTA |
| TileLaunch.NumberedCtas | kernels/sgemm_bi.cu:3913-3925 | a flat CTA number below splits x tiles names one CTA of the launch, and every CTA has such a number |
| TileLaunch.LaunchGrid | kernels/sgemm_bi.cu:106-458 | started with the host's CTA count, in any order, every cell is combined once with its chain and no index past the output changes |
| Pipeline.ReadIsSafe | kernels/sgemm_bi.cu:310-324 | while a thread sweeps slab k its stage holds slab k and no copy in flight aims at it, with two stages and one barrier a slab or with one stage and two barriers |
| Pipeline.NextKeepsInv | kernels/sgemm_bi.cu:1870-1948 | every step of every thread and every landing keeps the invariant of its protocol |
| Pipeline.EveryRunComputesTheChain | kernels/sgemm_bi.cu:304-397 | every complete interleaving leaves the same accumulators, those of the sequential chain |
| Pipeline.EveryReadIsSafe | kernels/sgemm_bi.cu:4658-4663 | every shared-memory read of every run is race-free, synchronous stores included |
| Pipeline.EveryStepDecreases | kernels/sgemm_bi.cu:4885-4897 | every step shortens what is left, so every run ends |
| Pipeline.SomeStepIsPossible | kernels/sgemm_bi.cu:4885-4897 | no reachable state is stuck before all threads have finished |
| Pipeline.ThreadCanStep | kernels/sgemm_bi.cu:304-320 | a thread waits for nothing but its own copies and the barriers |
| Pipeline.RunCompletes | kernels/sgemm_bi.cu:304-397 | every run, from any contents of shared memory, can be continued until all threads have finished |
| Kernels.UnsplitValid | kernels/sgemm_bi.cu:21-96 | the constants of every unsplit kernel make an exact geometry and exact loaders |
| Kernels.SplitValid | kernels/sgemm_bi.cu:3851-3858 | so do those of the three partial kernels, given what their callers guarantee |
| Kernels.RunUnsplit | kernels/sgemm_bi.cu:2859-3253 | every unsplit kernel (three layouts, four tile shapes, f32 or 16-bit operands) leaves one bias-seeded ascending chain per cell, padded to its slab depth; equal depths give equal terms |
| Kernels.TileShapeNeverShows | kernels/sgemm_bi.cu:3054-3253 | kernels of the same slab depth (small narrow, narrow, Big) build the same term for every cell of every shape, for any group sizes |
| Kernels.RunSplit | kernels/sgemm_bi.cu:732-905 | a partial kernel fills the slot of every chunk and touches nothing past the last slot |
| Kernels.SlotCell | kernels/sgemm_bi.cu:2029-2225 | slot f of the scratch is the chunk-f accumulator of the cell |
| Kernels.HostGridIsTiles | src/dispatch.rs:666-672 | in 32-bit arithmetic the host starts exactly one CTA per tile |
| Dispatch.HostSplitCtasAre | src/dispatch.rs:330-340 | for a split route it starts one CTA per tile and chunk, which is what the partial kernel decodes |
| Plans.ChunksPartition | kernels/sgemm_bi.cu:2039-2044 | chunks follow each other without gap or overlap and the last one ends the axis |
| Plans.PieceIsUnsplitOnSlice | kernels/sgemm_bi.cu:723-729 | a chunk's partial is the unsplit kernel's accumulator on the matrices cut to the chunk |
| Plans.ValueCong | src/dispatch.rs:13-18 | under any plan a cell's term depends on its row data, its column data and its bias alone |
| Plans.PieceSumIsDot | kernels/sgemm_bi.cu:4062-4066 | in exact arithmetic ascending partial sums are the dot product up to the chunk's end |
| Plans.SlabTreeIsDot | kernels/sgemm_bi.cu:2657-2703 | the eight-slab tree is the whole dot product, empty slabs included |
| Plans.LanesAreDot | kernels/sgemm_bi.cu:2734-2739 | the 32 strided lanes cover the reduction axis |
| Plans.ValueIsProduct | src/dispatch.rs:7-9 | whatever the plan, the exact value of a cell is the product plus the bias |
| Plans.UpcastAt | kernels/sgemm_bi.cu:4158-4169 | upcasting as an operand is read is reading the upcast operand |
| SmallKernels.StageRow | kernels/sgemm_bi.cu:2643-2646 | 256 threads striding over a row stage all of it |
| SmallKernels.SlabPartial | kernels/sgemm_bi.cu:2648-2672 | a warp's partial is the chain over its slab, which may be empty |
| SmallKernels.UltraThin | kernels/sgemm_bi.cu:2622-2704 | the ultra-thin kernel leaves the eight-slab plan's value in every cell |
| SmallKernels.LaneAccumulate | kernels/sgemm_bi.cu:2735-2739 | a lane's loop is the chain of the indices congruent to it |
| SmallKernels.Butterfly | kernels/sgemm_bi.cu:2741-2746 | the xor butterfly leaves lane 0 with the halving tree over all 32 lanes |
| SmallKernels.Gemv | kernels/sgemm_bi.cu:2716-2801 | the NN and TN vector kernels leave the strided plan's value |
| SmallKernels.OuterProduct | kernels/sgemm_bi.cu:2816-2834 | the NT vector kernel leaves alpha * dY * W in every cell |
| SmallKernels.ReduceCell | kernels/sgemm_bi.cu:4062-4084 | partials ascending, then the tail step by step, then alpha, then bias |
| SmallKernels.FoldTail | kernels/sgemm_bi.cu:4069-4075 | the reducer's tail pointers address row m from `main` on and the rows of W from `main` on |
| SmallKernels.SplitkReduce | kernels/sgemm_bi.cu:4042-4087 | every output gets the split plan's value at its stride; the columns between are kept |
| SmallKernels.ReduceCellWide | kernels/sgemm_bi.cu:935-940 | the split-M sum runs in f64, ascending, and is narrowed once |
| SmallKernels.SplitmReduce | kernels/sgemm_bi.cu:925-941 | dW gets its old value plus the split-M plan's value |
| SmallKernels.ColumnGemv | kernels/sgemm_bi.cu:4094-4113 | column `col_idx` of dX gets its chain; no other column changes |
| SmallKernels.Transpose | kernels/sgemm_bi.cu:4131-4156 | the blocked transposition is the transposition for any dimensions |
| SmallKernels.TransposeAt | src/dispatch.rs:1060-1084 | walking the transposed matrix is walking the original |
| SmallKernels.UpcastInto | kernels/casts.cu:15-22 | the upcast kernel converts exactly n elements |
| SmallKernels.DowncastInto | kernels/casts.cu:6-13 | the downcast kernel rounds exactly n elements |
| Routing.SaneIs | src/dispatch.rs:152-154 | the dimensions the model covers: positive, each matrix under 2^31 elements |
| Routing.ChunkLength | src/dispatch.rs:57-58 | the chunk length is a positive multiple of 16 that covers the batch in the wanted number of chunks |
| Routing.ScratchRecheckIsImplied | src/dispatch.rs:60-62 | the final scratch re-check can never reject on its own |
| Routing.PartitionIsSound | src/dispatch.rs:44-64 | 16 divides c, f >= 2, (f - 1) * c < batch <= f * c, f * n_in * n_out fits the scratch, and base * f stays under twice the target grid |
| Routing.WantedSplitIsGreatest | src/dispatch.rs:54-56 | the wanted factor is the greatest f with f <= ceil(284 / base) and f * n_in * n_out <= 2^23, or one |
| Routing.ChunkIsLeast | src/dispatch.rs:57-58 | no smaller multiple of 16 covers the batch in f chunks |
| Routing.PartitionSplitsIff | src/dispatch.rs:44-64 | the whole partition from the greatest factor, the least chunk length and the number of chunks: split or not, and into what |
| Routing.PartitionExamples | src/dispatch.rs:44-64 | a batch of 4096 on a 128 x 128 layer splits into 256 chunks of 16, one of 256 into 16 |
| Routing.ForwardRegions | src/dispatch.rs:151-707 | the forward cascade as disjoint regions of shapes, every gate constant included |
| Routing.DwRegions | src/dispatch.rs:727-895 | the same for dW |
| Routing.DxRegions | src/dispatch.rs:924-1530 | the same for dX |
| Routing.ForwardCoverage | src/dispatch.rs:151-707 | forward is uncovered exactly for N = 1 and K < 32 |
| Routing.DwCoverage | src/dispatch.rs:727-895 | dW is uncovered exactly for N = 1 and (K < 4 or M < 32) |
| Routing.DxCoverage | src/dispatch.rs:924-1530 | dX is never uncovered |
| Routing.FullCoverageFails | src/engine.rs:69 | concrete shapes on which the promise of full coverage fails |
| Routing.PlansFit | src/dispatch.rs:135-1531 | every routed shape meets what its plan needs of the reduction length |
| Routing.MirrorsAgree | src/dispatch.rs:1553-1698 | the three hand-copied predicates hold exactly where their cascade picks the Big kernel |
| Routing.TypedBucketsCoincide | src/dispatch.rs:1951-2067 | a native typed kernel runs exactly where the f32 cascade runs its twin, although gates are tried in another order |
| Routing.OnePlanForAllBatchesIff | src/dispatch.rs:13-18 | exactly which layers keep one forward plan over all batch sizes |
| TensorCore.TensorValid | kernels/sgemm_bi.cu:5187-5244 | the constants of both tile families make an exact geometry and exact staging, 16-byte or scalar |
| TensorCore.RunTensor | kernels/sgemm_bi.cu:5830-5967 | both tile families leave the same bias-seeded chain of ascending mma steps, zero-filled to 64 |
| TensorCore.TileFamilyNeverShows | kernels/sgemm_bi.cu:5735-5747 | the 128 and 64 tiles give every element the same chain of mma steps, for every shape and layout |
| TensorCore.TensorCoverage | src/dispatch.rs:1732-1744 | the tier covers exactly outputs of at least 64 x 64 |
| Dispatch.ForwardGates | src/dispatch.rs:314-517 | the forward gates bound the partials by 2^23 and give the unchecked split-K kernel its alignment |
| Dispatch.DxGates | src/dispatch.rs:1035-1058 | the dX gates bound the transpose by 2^22 and the partials by 2^23, with the same alignment |
| Dispatch.ThroughTranspose | src/dispatch.rs:1060-1105 | a column computed through the transposed W has the value of the same plan on W |
| Dispatch.Device.constructor | src/kernels.rs:201-216 | the two scratch buffers have the sizes the gates assume |
| Dispatch.Device.SplitThenReduce | src/dispatch.rs:325-385 | partials then reducer give the split plan's value whatever the scratch held before |
| Dispatch.Device.ForwardSplit | src/dispatch.rs:314-581 | the three split routes of forward do |
| Dispatch.Device.Forward | src/dispatch.rs:135-708 | every cell of Y is its route's term, nothing else changes, and Uncovered is returned exactly when no route exists |
| Dispatch.Device.DwSplit | src/dispatch.rs:796-840 | the split-M route adds its plan's value to dW |
| Dispatch.Device.BackwardDw | src/dispatch.rs:717-896 | the same for dW, accumulating |
| Dispatch.Device.DxSplit | src/dispatch.rs:1033-1430 | transpose, split and reduce, tail columns: dX holds the route's term in every column |
| Dispatch.Device.TailColumns | src/dispatch.rs:1136-1166 | the launches over the last columns write those columns and no other |
| Dispatch.Device.BackwardDx | src/dispatch.rs:908-1531 | every cell of dX is its route's term, for every shape |
| TypedDispatch.ForwardUpcast | kernels/sgemm_bi.cu:4158-4169 | the forward term on 16-bit operands is the f32 term on upcast operands |
| TypedDispatch.DwUpcast | kernels/sgemm_bi.cu:4158-4169 | the same for dW |
| TypedDispatch.DxUpcast | kernels/sgemm_bi.cu:4158-4169 | the same for dX |
| TypedDispatch.ForwardTyped | src/dispatch.rs:1930-2075 | dtype errors first; a native forward is the rounded f32-tier term on upcast inputs, else Uncovered |
| TypedDispatch.BackwardDwTyped | src/dispatch.rs:2078-2179 | a native dW adds the f32-tier term on upcast inputs |
| TypedDispatch.BackwardDxTyped | src/dispatch.rs:2182-2284 | a native dX is the rounded f32-tier term on upcast inputs |
| TypedDispatch.ForwardTc | src/dispatch.rs:1783-1830 | tensor-core forward: dtype errors, exact coverage, and a term that does not name the tile |
| TypedDispatch.BackwardDwTc | src/dispatch.rs:1836-1879 | the same for dW, accumulating in f32 |
| TypedDispatch.BackwardDxTc | src/dispatch.rs:1884-1925 | the same for dX |
| Engine.Engine.constructor | src/engine.rs:54-58 | an engine starts with three empty slots and its own device |
| Engine.Engine.WithUpcastScratch | src/engine.rs:255-275 | for any outcomes of the allocations: the slots that are too small get exactly max(need, 1) elements, in order, up to the first failure; the rest are kept, and it fails only because of a failed allocation |
| Engine.Engine.PresizeUpcastScratch | src/engine.rs:251-253 | pre-sizing is one such request |
| Engine.PresizeIsLeast | src/engine.rs:245-250 | the documented formula asks for no more than the three operations do together |
| Engine.PresizeCovers | src/engine.rs:245-250 | the documented formula covers every operation on dimensions up to its own |
| Engine.CapacitiesNeverShrink | src/engine.rs:260-273 | over any history of requests, failures included, no capacity shrinks |
| Engine.PresizedNeverReallocates | src/engine.rs:245-250 | after pre-sizing any sequence of typed calls within the dimensions keeps the very same three buffers |
| Engine.Engine.Forward | src/engine.rs:122-144 | native or fallback, Y is the rounded f32-tier cell of the upcast inputs and the caller's bias; mixed dtypes are refused exactly; native shapes never touch the scratch, others grow it as the allocations allow |
| Engine.Engine.BackwardDw | src/engine.rs:148-172 | the same for dW += the f32-tier cell of the upcast inputs |
| Engine.Engine.BackwardDx | src/engine.rs:175-192 | the same for dX, on every shape |
| Bridge.EngineInner.constructor | python/src/lib.rs:140-163 | building an engine creates two events: neither existed before, they differ, nothing is captured in them, and earlier work is untouched |
| Bridge.EngineInner.Dispatch | python/src/lib.rs:80-83 | what the dispatcher enqueues goes to the engine's stream in order |
| Bridge.EngineInner.Bridged | python/src/lib.rs:61-96 | one call's kernels follow the caller's earlier work and precede its later work, even when the dispatcher fails midway |
| Bridge.HolderCanStep | python/src/lib.rs:61-96 | the holder of the mutex always has a next step, and an idle engine takes a call from any stream |
| Bridge.BridgedIsACall | python/src/lib.rs:61-96 | what the bridged call does to the driver is the sequence of steps of one call in the run model, idle to idle |
| Bridge.OthersCanStep | python/src/lib.rs:53-55 | other threads may launch, wait, create and record in between at any moment |
| Bridge.NextKeepsInv | python/src/lib.rs:16-19 | every host step, of the mutex holder or of any other thread, keeps the ordering invariant although the two events are reused |
| Bridge.WorkBeforePrecedesKernels | python/src/lib.rs:71-79 | in every run, work a stream had before a call from it precedes every kernel of the call |
| Bridge.KernelsPrecedeWorkAfter | python/src/lib.rs:84-92 | in every run, a returned call's kernels precede all later work of its stream |
| Results.ForwardComputesProduct | src/dispatch.rs:7 | on every covered shape forward cell (i, j) is (X @ W)[i, j] plus bias element j in exact arithmetic |
| Results.DwComputesProduct | src/dispatch.rs:8 | on every covered shape dW ends as dW + X^T @ dY |
| Results.DxComputesProduct | src/dispatch.rs:9 | on every shape dX is dY @ W^T, tail columns and folded tails included |
| Results.TypedForwardComputesProduct | src/engine.rs:112-121 | so does the typed forward, on the 16-bit matrices |
| Results.TypedDwComputesProduct | src/engine.rs:146-148 | and the typed dW |
| Results.TypedDxComputesProduct | src/engine.rs:174-175 | and the typed dX |
| Results.TensorForwardComputesProduct | src/dispatch.rs:1776-1783 | the tensor-core forward computes X @ W + bias |
| Results.TensorDwComputesProduct | src/dispatch.rs:1832-1836 | the tensor-core dW adds X^T @ dY |
| Results.TensorDxComputesProduct | src/dispatch.rs:1881-1884 | the tensor-core dX is dY @ W^T |
| Results.ForwardBatchInvariance | src/dispatch.rs:13-18 | two batches in the same bucket give a shared input row the identical output row |
| Results.DxBatchInvariance | src/dispatch.rs:470-498 | the same for a shared row of dY |
| Results.TensorBatchInvariance | src/dispatch.rs:1710-1718 | for two batch sizes, each launched with the tile its own shape picks, a shared input row gets the identical output row |
| Results.TileBoundaryExists | src/dispatch.rs:1732-1744 | two batch sizes of one layer do pick different tiles |
| Results.CtaFor | kernels/sgemm_bi.cu:1870-1948 | every CTA of every launch is an instance of the interleaving model of its own protocol: two stages for the pipelined kernels, one for the others |
| Results.EveryInterleavingFeedsTheEpilogue | kernels/sgemm_bi.cu:304-397 | every interleaving of a CTA of any launch, under the protocol its kernel has, leaves the registers the sequential kernel stores |
| Barriers.ReadIsSafe | kernels/sgemm_bi.cu:2643-2669 | a cell a thread is about to read holds its final value and no thread is at work in the round that writes it |
| Barriers.NextKeepsInv | kernels/sgemm_bi.cu:2643-2669 | every read, write, arrival and barrier passage of every thread keeps the block invariant |
| Barriers.EveryRunComputes | kernels/sgemm_bi.cu:2643-2669 | every complete interleaving of a block leaves in every cell what the rounds compute one after the other |
| Barriers.SomeStepIsPossible | kernels/sgemm_bi.cu:2643-2669 | no block is stuck at a barrier |
| Barriers.ThreadCanStep | kernels/sgemm_bi.cu:2643-2669 | a thread with work left waits for nothing but the barrier it stands at |
| Reference.ElementOf | kernels/sgemm_bi.cu:4158-4169 | what a kernel reads for a matrix element: the element, upcast if 16-bit, zero outside |
| Reference.WholeSteps | kernels/sgemm_bi.cu:207-458 | an unsplit cell: the bias, ascending fma steps to the end of the last slab, alpha |
| Reference.TensorSteps | kernels/sgemm_bi.cu:5246-5311 | a tensor-core cell: the bias, ascending mma steps of sixteen to a multiple of 64, alpha |
| Reference.ColumnSteps | kernels/sgemm_bi.cu:4094-4113 | a tail column: zero, ascending fma steps, no alpha |
| Reference.OuterSteps | kernels/sgemm_bi.cu:2816-2834 | a single-column dX cell: alpha times dY, times W |
| Reference.SlabSteps | kernels/sgemm_bi.cu:2648-2664 | warp i of the ultra-thin kernel: zero, ascending fma steps over [i * ceil(K/8), (i + 1) * ceil(K/8)) cut at K |
| Reference.EightSlabsSteps | kernels/sgemm_bi.cu:2671-2703 | an ultra-thin cell: the eight partials in the written tree, alpha, bias |
| Reference.LaneSteps | kernels/sgemm_bi.cu:2735-2739 | lane l: zero, fma steps at l, l + 32, l + 64 and so on |
| Reference.ButterflyRounds | kernels/sgemm_bi.cu:2741-2746 | lanes 16 apart meet first, then 8, 4, 2 and 1 |
| Reference.StridedSteps | kernels/sgemm_bi.cu:2735-2753 | a vector-product cell: the 32 lanes, the butterfly, alpha, bias |
| Reference.PieceSteps | kernels/sgemm_bi.cu:2039-2044 | a chunk's partial: zero, ascending fma steps over the chunk, zero-filled to the end of its last slab |
| Reference.SplitSteps | kernels/sgemm_bi.cu:4062-4083 | a split-K cell: partials first to last, the tail continuing from their sum, alpha, bias |
| Reference.SplitWideSteps | kernels/sgemm_bi.cu:935-940 | a split-M cell: partials widened and added in f64 first to last, alpha in f64, one narrowing |
| Reference.ForwardCellIs | src/dispatch.rs:151-707 | which of these a forward cell follows on each route |
| Reference.DwCellIs | src/dispatch.rs:727-895 | the same for dW |
| Reference.DxCellIs | src/dispatch.rs:924-1530 | the same for dX, column by column |
| Rounding.SplitMRoundsOnce | kernels/sgemm_bi.cu:935-940 | with f64 taken as exact, the split-M reducer is the f32 rounding of the exact sum of its f32 partials |
| Barriers.ThinRunComputes | kernels/sgemm_bi.cu:2622-2704 | every complete interleaving of an ultra-thin CTA leaves the eight-slab plan's value in its columns |
| Barriers.TransposeRunComputes | kernels/sgemm_bi.cu:4131-4156 | every complete interleaving of a transposition block leaves the transposed elements |
| Bits.PaddedBits | kernels/sgemm_bi.cu:1735-1748 | chain links past the end of the matrices are padding steps fma(0, 0, c) on the bits of the accumulator |
| Bits.WholeBits | kernels/sgemm_bi.cu:1735-1748 | a kernel shows the bits of the unpadded accumulator if its slab depth divides K, and otherwise those after one padding step |
| Bits.SlabDepthShows | kernels/sgemm_bi.cu:1735-1748 | 16-deep and 32-deep kernels give the same bits unless K mod 32 is 16; there they do if and only if one padding step leaves the accumulator unchanged |
| Bits.SixteenShows | kernels/sgemm_bi.cu:1735-1748 | the exception is real: with signed zeros and K = 16 the two depths differ |

## Left out

- The NVRTC compilation, module loading and architecture strings (src/kernels.rs): foreign calls; only the two scratch sizes and the group size appear, as constants and a parameter.
- IEEE 754 arithmetic, bf16 and f16 rounding: operations are uninterpreted constructors; `Bits` assumes two laws about them and nothing else. A NaN payload can differ between two equal terms only if the hardware's own operation is not a function of its inputs.
- The inside of `mma.sync` and `ldmatrix` fragments: one mma step is one constructor over sixteen row and sixteen column elements; the fragment register maps of the ISA are a finite table and are not checked.
- Contraction of `alpha * acc + C` by the compiler: with alpha = 1 the fused form rounds the same sum once, and the model writes the unfused one.
- The `beta != 0` branches, the `post_op` argument and the `assert` on alpha: never taken with the arguments the dispatchers pass.
- Padding of shared-memory rows for bank conflicts in the tensor-core kernels, cache hints and register allocation: no effect on values.
- Base pointers: every matrix and both scratch buffers are taken to start on a 16-byte boundary, as device allocations do.
- Dimensions of zero and matrices of 2^31 elements or more: outside the 32-bit arguments of the kernels.
- Kernel launch failures and device memory limits: the only failing driver call in the model is the scratch allocation.
- The split-K kernel's second barrier comes after its store (kernels/sgemm_bi.cu:4025); the one-stage machine has it before. The kernel stages one slab only, so no later copy could tell.
- The CTAs of the small kernels are taken in order; each output index has one writer there by construction. Inside a CTA the ultra-thin and transposition kernels are covered by `Barriers`.
- Termination of the runs of `Barriers`: each thread's work per round is finite, no measure is given.
- The vector kernels exchange lanes by warp shuffles, which synchronise by themselves: taken as one step per round.
- Bridge.WorkBeforePrecedesKernels: driver calls are taken to succeed; an early return through a failed record or wait is not modelled.
- Pipeline.EveryStepDecreases: termination is shown as a decreasing measure; fairness of the hardware scheduler is not needed and not modelled.
- The kernels no dispatcher loads (`nn_splitk_big_partial`, `nt_splitn_big_partial`, `tn_narrow_splitm_partial`).
- The C interface, the Python argument parsing, the autograd layer, examples and type stubs: thin wrappers.
- Performance claims: the wave-fill gates are kept because they route, nothing is said about speed.
