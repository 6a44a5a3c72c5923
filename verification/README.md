# Verified models of an on-device LLM inference engine

This project models the parts of the engine whose correctness cannot be settled by testing, and
proves what they promise. Everything is plain Dafny 4.11: `dafny verify dfyconfig.toml` checks it.

* **The SpinPool dispatch protocol** (`SpinPool*.dfy`): a transition system in which every atomic
  load, store, `fetch_add`, park, unpark and chunk execution is one step, with any number of workers
  and any interleaving. An inductive invariant gives exactly-once execution, no lost wakeup and safe
  shutdown over whole runs of up to 2^48 publishes, and one publish more can lose a worker for good:
  the guarantee holds exactly up to the wrap of the 48-bit sequence number. Distances to completion
  that no other thread's step can raise give termination under every schedule that keeps giving each
  thread its turns, and what a call hands over is exactly what its records show.
* **The aperturb measurement operator** (`Keep`, `Logits`, `KernelSpec`, `Kernel`, `Readout`, `Basis`,
  `DecideSpec`, `Decide`, `DecideTheorems`, `Gather`, `Recompute`, and the laws in `KernelLaws`,
  `ReadoutLaws`, `DecideLaws`): the imperative kernels over flat
  buffers, each proved equal to a cell-by-cell meaning, and the identities between the forms: blocked
  logits against plain dot products, column gather against a gathered cache, fused readout against
  attention followed by projection, the duplicate fold against scoring every candidate; together they
  say that a decision's cells are those of attention recomputed over the retained rows alone. The laws
  say the same of the buffers without the specification's own functions: which element enters which
  sum, how it is weighted, which positions a row may see, and which sums the winner minimises.
* **Linear algebra and files** (`Sums`, `JacobiAlgebra`, `Jacobi`, `StableSort`, `Digest`, `BasisFile`):
  cyclic Jacobi in place, the FNV-1a weight digest modulo 2^64, and the basis file as bytes.
* **KV selection and ragged attention** (`KeepTopK`, `SnapKv`, `Softmax`, `Ragged`, `RaggedLaws`).
* **Block codecs** (`Rounding`, `KvCodec`, `Q4`): bit packing, error bounds and requantization.

Floating point is modelled by `real`. `exp` is a parameter known only to be positive, `sqrt` a
parameter with `sqrt(x) >= 0` and `sqrt(x)^2 == x`, and rounding to half precision an arbitrary
function. Buffers keep the source's flat layouts through `Layout.Ix` and `Layout.Block`; `Layout.Times(n, k)`
is n * k. A loop that
rayon runs over disjoint chunks is a loop over those chunks.

Where code and comments disagree, the code is modelled. Inside `snapkv_per_head_keep_from` a comment
has every head keep an equal count (crates/argus-extension-api/src/lib.rs:1031-1033); two heads do so
exactly when their clamped starts coincide or both have room for the whole budget, so the promise of
the uniform entry point stands and that of the ragged one does not. `validate_within` is said to keep
candidates out of the holes, which a head with nothing resident escapes until the baseline's own readout
refuses it.

## Model

| member | source | states |
|---|---|---|
| SpinPoolInvariant.ActionKeepsInv | engine/src/thread_pool.rs:103-304 | every step of every thread, and every call between dispatches, keeps the inductive invariant |
| SpinPoolInvariant.CompletionIsQuiet | engine/src/thread_pool.rs:112-163 | once `done_count` reaches the active count no thread is inside `steal_work` and every chunk has run once |
| SpinPoolInvariant.NextWord | engine/src/thread_pool.rs:224-232 | for all stamps, the published word carries the next sequence number modulo 2^48 above the new stamp |
| SpinPoolInvariant.PublishIsUnseen | engine/src/thread_pool.rs:224-232 | up to the 2^48th publish, no active worker's last word equals the word being published |
| SpinPoolTheorems.RunInv | engine/src/thread_pool.rs:60-304 | every state of every interleaving satisfies the invariant, up to and including the 2^48th publish |
| SpinPoolTheorems.OnlyCompletionRecords | engine/src/thread_pool.rs:216-218 | a dispatch ends only from its wait, with all active workers counted |
| SpinPoolTheorems.DispatchRunsEveryChunkOnce | engine/src/thread_pool.rs:181-287 | when an item of `dispatch` or `dispatch_batch` completes, each of its chunks ran exactly once with that item's function and context, nothing else ran, and every thread has left `steal_work` |
| SpinPoolBatch.BatchRunsItsItems | engine/src/thread_pool.rs:181-287 | from a call with items up to its return, the records added are those of the items handed over, in order, each chunk of each run exactly once; at the return, of all of them |
| SpinPoolBatch.RequestedWorkersServe | engine/src/thread_pool.rs:239-251 | every item is served by as many workers as the last `set_active_workers` asked for and the pool has |
| SpinPoolBatch.AllWorkersServeByDefault | engine/src/thread_pool.rs:239-242 | until then, by all of them |
| SpinPoolTheorems.NoLostWakeup | engine/src/thread_pool.rs:103-232 | an active worker that has not seen the published generation is never parked without a token unless its unpark is still to come, so the wait cannot hang on it |
| SpinPoolTheorems.CountersAreBounded | engine/src/thread_pool.rs:112-163 | `done_count` never exceeds the stamped active count, `next_chunk` never exceeds `total_chunks + active + 1`, and workers at or above the stamp never work |
| SpinPoolTheorems.ShutdownIsSafe | engine/src/thread_pool.rs:290-304 | between dispatches the claim counter is past the end, so the generation `Drop` publishes hands out no chunk; workers being joined are not parked for good, and all have exited when `drop` returns |
| SpinPoolProgress.WorkerFinishes | engine/src/thread_pool.rs:103-163 | a worker the dispatcher waits for can always report done by steps of its own |
| SpinPoolProgress.DispatchCanFinish | engine/src/thread_pool.rs:181-287 | from every reachable state inside a dispatch some schedule completes it, each chunk run once |
| SpinPoolProgress.ShutdownCanFinish | engine/src/thread_pool.rs:290-304 | from every reachable state inside `drop` some schedule joins every worker |
| SpinPoolFairness.LiveIsEnabled | engine/src/thread_pool.rs:103-287 | inside an item the dispatcher can always step, and while it waits so can every worker it waits for |
| SpinPoolFairness.StepIsCloser | engine/src/thread_pool.rs:103-163 | no step of any thread takes an awaited worker further from reporting done, and its own steps take it closer |
| SpinPoolFairness.FairSetupPublishes | engine/src/thread_pool.rs:181-232 | in every schedule at most eight turns of the dispatching thread bring the item from the call to its publish |
| SpinPoolFairness.FairDispatchFinishes | engine/src/thread_pool.rs:181-287 | in every schedule whatsoever, once the dispatcher and each active worker have had the turns their distance asks for, the item is complete, each chunk run once |
| SpinPoolFairness.FairShutdownFinishes | engine/src/thread_pool.rs:290-304 | in every schedule inside `drop`, a worker with its turns has exited, a dropping thread with its turns has joined them all, and until then one side of the join can step |
| SpinPoolWrap.WrapLosesAWorker | engine/src/thread_pool.rs:103-145 | a run of 2^48 + 1 publishes after which no schedule ever ends the dispatcher's wait: its worker takes the new generation for the one it already served |
| SpinPoolWrap.TurnsAreKeptUpToTheWrap | engine/src/thread_pool.rs:103-232 | every run of at most n publishes keeps every worker's turn if and only if n is at most 2^48 |
| JacobiAlgebra.GivensIsRigid | engine/src/aperturb/subspace.rs:251-254 | a rotation whose cosine and sine are normalised keeps inner products and symmetric blocks |
| JacobiAlgebra.TangentSolves | engine/src/aperturb/subspace.rs:251-252 | the tangent the code computes solves t^2 + 2 theta t = 1 |
| JacobiAlgebra.TangentIsSmall | engine/src/aperturb/subspace.rs:251-252 | of the two tangents that solve it, the one taken has size at most one |
| JacobiAlgebra.EntryVanishes | engine/src/aperturb/subspace.rs:251-264 | the chosen rotation makes entry (p, q) exactly zero |
| JacobiAlgebra.SymmetryKept | engine/src/aperturb/subspace.rs:255-264 | rotating columns then rows keeps symmetry and trace |
| JacobiAlgebra.ColumnsKept | engine/src/aperturb/subspace.rs:265-269 | the accumulated columns stay orthonormal |
| JacobiAlgebra.RowsKept | engine/src/aperturb/subspace.rs:265-269 | the accumulated rows stay orthonormal |
| JacobiAlgebra.SimilarityKept | engine/src/aperturb/subspace.rs:255-269 | A_in V = V A after every rotation |
| JacobiAlgebra.CongruenceForm | engine/src/aperturb/subspace.rs:255-269 | hence A = transpose(V) A_in V, entry by entry |
| JacobiAlgebra.UpperDrops | engine/src/aperturb/subspace.rs:255-264 | the upper off-diagonal sum of squares drops by exactly the square of the zeroed entry |
| JacobiAlgebra.ResidualBounded | engine/src/aperturb/subspace.rs:231-301 | the squared residual of each eigenpair is at most the off-diagonal sum left |
| Jacobi.RotateColumns | engine/src/aperturb/subspace.rs:255-259 | the in-place column loop rotates columns p and q and nothing else |
| Jacobi.RotateRows | engine/src/aperturb/subspace.rs:260-264 | the in-place row loop rotates rows p and q and nothing else |
| Jacobi.ChooseRotation | engine/src/aperturb/subspace.rs:251-254 | the rotation is rigid, turns by at most an eighth of a full turn and zeroes the entry, theta = 0 included |
| Jacobi.RotationStep | engine/src/aperturb/subspace.rs:251-269 | one rotation keeps symmetry, orthogonality, similarity and trace, and removes exactly the square of the zeroed entry |
| Jacobi.ZeroEntry | engine/src/aperturb/subspace.rs:247-269 | the same of the in-place arrays |
| Jacobi.OffDiagonal | engine/src/aperturb/subspace.rs:238-241 | the stopping sum is the sum of squares above the diagonal |
| Jacobi.OneSweep | engine/src/aperturb/subspace.rs:245-271 | a sweep visits every entry above the diagonal once, row by row, zeroing each that is not negligible when its turn comes; it lowers the off-diagonal sum unless every entry is negligible |
| Jacobi.Sweeps | engine/src/aperturb/subspace.rs:237-272 | full sweep follows full sweep as long as the off-diagonal sum exceeds the tolerance, and stops only when it does not or after sixty |
| Jacobi.TwoByTwoIsExact | engine/src/aperturb/subspace.rs:237-272 | two by two, one sweep zeroes the entry exactly, unless its square is within 1e-30 and none is made |
| StableSort.SortDescending | engine/src/aperturb/subspace.rs:273-278 | a permutation in descending key order, equal keys in index order |
| Jacobi.Pivot | engine/src/aperturb/subspace.rs:285-294 | the largest magnitude, the last one among equals |
| Jacobi.GatherColumns | engine/src/aperturb/subspace.rs:281-299 | columns in sorted order, each with its pivot component made non-negative |
| Jacobi.JacobiEigh | engine/src/aperturb/subspace.rs:231-301 | for every symmetric input: values descending and summing to the trace, columns orthonormal with the sign convention, squared residuals at most the final off-diagonal sum; the values are the final diagonal in stable descending order and the vectors the accumulated columns in that order, each up to its sign; the sweeps that led there are traced visit by visit from the input and the identity, at tolerances 1e-30 and 1e-300 and at most sixty sweeps |
| Keep.KeepBuilder.Push | engine/src/aperturb/keep.rs:183-199 | accepts exactly the next (layer, kv_head) in row-major order and appends that list; otherwise changes nothing |
| Keep.Resident | engine/src/aperturb/keep.rs:132-147 | a complete table whose lists are [min(start, current), current) |
| Keep.EqualHeadsEqualTables | engine/src/aperturb/keep.rs:22-28 | two tables of one shape compare equal exactly when every list is equal |
| Keep.Validate | engine/src/aperturb/keep.rs:228-256 | Ok exactly when complete and every list is non-empty, strictly ascending and in range; otherwise the error of the first failing list in row-major order |
| Keep.VerdictUnique | engine/src/aperturb/keep.rs:152-256 | a table and its checks allow one verdict only, so the errors named are the only possible ones |
| Keep.ValidateWithin | engine/src/aperturb/keep.rs:152-169 | Ok exactly when no list starts below its head's first resident position; otherwise the first hole |
| Keep.WithinResident | engine/src/aperturb/keep.rs:152-169 | a usable list passes the hole check exactly when it lies in the resident range or the head holds nothing at all, and in the second case it never lies in the range |
| Keep.NotRaggedIsUniform | engine/src/aperturb/keep.rs:263-268 | not ragged means equal lengths within every layer |
| Keep.MergeHead | engine/src/aperturb/keep.rs:294-304 | the one-pass merge writes the admitted prefix length less one for every row |
| Keep.ForLayer | engine/src/aperturb/keep.rs:290-310 | the boundary table of a layer, every (kv_head, row) |
| Keep.PrefixCounts | engine/src/aperturb/keep.rs:271-277 | on an ascending list the boundary is the number of retained positions at or below the row, less one |
| Keep.RowAdmits | engine/src/aperturb/keep.rs:290-304 | row t admits list entry j exactly when list[j] + rows <= current_pos + t: no position after its own, all before it |
| Keep.BoundaryAdmits | engine/src/aperturb/keep.rs:290-310 | the same of the boundary table, at kp[h * rows + t] |
| Keep.LastRowAdmitsAll | engine/src/aperturb/keep.rs:290-304 | the last row admits every usable list whole |
| Keep.VisibleRows | engine/src/aperturb/keep.rs:331-339 | bit t is set exactly when row t < 32 sees a position in every head |
| Keep.VisibleInBaseline | engine/src/aperturb/keep.rs:331-339 | a row visible to a candidate without holes is visible to the baseline |
| Logits.DividingRatioIsGrouped | engine/src/aperturb/kernel.rs:58-60 | every dividing GQA ratio maps each query head to an existing KV head |
| KernelLaws.GroupsAreConsecutive | engine/src/aperturb/kernel.rs:58-60 | query heads kv * ratio to kv * ratio + ratio - 1, and no others, read KV head kv |
| Logits.BlockScores | engine/src/aperturb/kernel.rs:154-172 | the 8-row, 4-wide accumulation with its component tail gives the plain dot products |
| Logits.LogitsHead | engine/src/aperturb/kernel.rs:151-177 | one head's block: every cell right and stored exactly once, no other cell touched |
| Logits.LogitsInto | engine/src/aperturb/kernel.rs:131-179 | every cell of the block is the dot product over the square root of the head dimension and is stored exactly once; a wrong length is named, first check first |
| KernelLaws.LogitLaw | engine/src/aperturb/kernel.rs:131-179 | z[h][t][p] times the root of the head dimension is the dot product of q[h][t] and k[kv][p], by flat index |
| Softmax.ShiftCancels | engine/src/aperturb/kernel.rs:235-254 | for a true exponential, subtracting the row maximum changes no weight |
| Softmax.WeightsSumToOne | engine/src/aperturb/kernel.rs:247-254 | the weights of a row are positive and sum to one |
| Softmax.WeightIsShare | engine/src/aperturb/kernel.rs:247-254 | the weight of a column is the share of its own exponential in the sum of all |
| Softmax.WeightsAreProportional | engine/src/aperturb/kernel.rs:247-254 | the weights of two columns are to one another as the exponentials of their logits |
| Softmax.LargerLogitWeighsMore | engine/src/aperturb/kernel.rs:247-254 | where exp is strictly increasing, a larger logit has a larger weight |
| Softmax.MixCommutes | engine/src/aperturb/kernel.rs:279-289 | attending over projected values equals projecting the attended values |
| Softmax.MixIsAverage | engine/src/aperturb/kernel.rs:255-262 | an attention component is the average of the value rows, each counted by the exponential of its logit |
| Kernel.SoftmaxRow | engine/src/aperturb/kernel.rs:235-254 | the running max, exponentials and reciprocal give the softmax weights of the admitted columns |
| Kernel.ContractRow | engine/src/aperturb/kernel.rs:493-503 | the constant-rank body writes the weighted sum of the retained rows |
| Kernel.ContractRowDyn | engine/src/aperturb/kernel.rs:507-515 | the runtime-rank body adds the same sum to what the row holds |
| Kernel.ProjectHead | engine/src/aperturb/kernel.rs:342-355 | the constant-rank projection of one head's values |
| Kernel.ProjectHeadDyn | engine/src/aperturb/kernel.rs:359-370 | the runtime-rank projection, by the same specification |
| Kernel.ProjectValuesInto | engine/src/aperturb/kernel.rs:298-335 | every cell of the projected values for every rank, or the first wrong length |
| KernelLaws.ValueLaw | engine/src/aperturb/kernel.rs:298-335 | vb[h][p][k] is v[kv][p] against column k of head h's slab of the basis, by flat index |
| Kernel.AttendInto | engine/src/aperturb/kernel.rs:202-275 | every cell is the softmax attention over the admitted columns, blind rows clamped to one; the first query head with an empty list is the error |
| KernelLaws.AttendLaw | engine/src/aperturb/kernel.rs:202-275 | x[t][h][e] is the average of v[kv][p][e] over the admitted columns p, counted by exp(z[h][t][p]), by flat index |
| Kernel.AttendProjectInto | engine/src/aperturb/kernel.rs:382-486 | every cell is the sum over heads of the attention over projected values, with the same clamp and errors |
| KernelLaws.FusedLaw | engine/src/aperturb/kernel.rs:382-486 | w[t][k] is the sum over the heads of the averages of vb[h][p][k], counted by exp(z[h][t][p]), by flat index |
| Kernel.ProjectInto | engine/src/aperturb/kernel.rs:522-541 | every cell is the plain projection, skipped zero components included |
| KernelLaws.ProjectLaw | engine/src/aperturb/kernel.rs:522-541 | w[t][k] is row t of x against column k of the basis, by flat index |
| KernelSpec.FusedIsTwoStep | engine/src/aperturb/kernel.rs:279-294 | `project_values_into` then `attend_project_into` gives the same buffer as `attend_into` then `project_into`, for every geometry, rank and choice of admitted columns |
| KernelSpec.GatherColumnsIsGatherCache | engine/src/aperturb/kernel.rs:594-635 | attention over the shared logits with a column gather equals attention recomputed over physically gathered K and V, whether the lists have one length or many |
| Gather.BoundaryAdmitsTheSame | engine/src/aperturb/kernel.rs:594-635 | one boundary table admits the same columns of a keep-set and of the identity table on the gathered slots |
| Gather.GatheredAttentionAgrees | engine/src/aperturb/kernel.rs:202-275 | `attend_into` with a keep-set, ragged or not, and `attend_into` over the gathered cache with the identity table and the same boundary fill the same buffer |
| Gather.GatheredIsGather | engine/src/aperturb/kernel.rs:594-635 | every choice of cached rows can be gathered to the front of enough slots |
| Recompute.ReadoutIsTwoStep | engine/src/aperturb/kernel.rs:279-294 | the readout a decision uses is attention over the keep-set followed by projection |
| Recompute.ReadoutIsRecomputed | engine/src/aperturb.rs:515-561 | and equals logits, attention and projection computed anew from a cache that holds the retained rows alone |
| Recompute.CellsAreRecomputed | engine/src/aperturb.rs:535-560 | every cell of every decision that returns scores compares two such recomputed readouts, the resident rows' and the candidate's |
| Readout.CellGrid.FillLayer | engine/src/aperturb/readout.rs:168-203 | the layer's cells are displacement and angle of each row pair, other layers untouched; the first row with a zero baseline or a zero candidate is the error |
| ReadoutLaws.CellsAreBalanced | engine/src/aperturb/readout.rs:168-203 | the displacement x of a row is not negative and x^2 times the baseline's square sum is the square sum of the differences; one minus the angle has the sign of the inner product and its square times both square sums is the square of it, by flat index |
| Readout.Aggregate | engine/src/aperturb/readout.rs:206-233 | mean and root mean square of the visible cells of both values for any number of layers, or NoVisibleRows exactly when the mask is empty |
| ReadoutLaws.ScoresByKind | engine/src/aperturb/readout.rs:92-99 | the score a kind names: mean times n is the sum of the visible cells of that value, RMS is not negative and its square times n the sum of their squares, n being layers times visible rows |
| Readout.SameRowIsZero | engine/src/aperturb/readout.rs:182-197 | identical rows give displacement and angle exactly zero |
| Readout.DcosInRange | engine/src/aperturb/readout.rs:197 | the angle readout lies in [0, 2] |
| Readout.MeanAtMostRms | engine/src/aperturb/readout.rs:118-122 | mean never exceeds RMS over the same visible cells |
| Readout.InnerKept | engine/src/aperturb/kernel.rs:16-24 | inner products survive any matrix with orthonormal columns |
| Readout.ScoresKept | engine/src/aperturb/kernel.rs:16-24 | all four scores are the same in r-space and after mapping both rows through each layer's left factor |
| Basis.FromLayers | engine/src/aperturb.rs:93-114 | accepted exactly when every layer has d * rank elements, otherwise the first misfit |
| Basis.FromFactors | engine/src/aperturb.rs:118-143 | column k of every layer scaled by its singular value, over as many layers as both lists hold; otherwise the first layer whose factors do not fit, with the length found and the length wanted |
| Basis.FactorLaw | engine/src/aperturb.rs:134-138 | b[e * rank + k] is v[e * rank + k] times s[k] |
| Basis.Untruncated | engine/src/aperturb.rs:197-216 | every weight transposed, or the first misfit |
| Basis.UntruncatedIsExact | engine/src/aperturb.rs:189-195 | projecting through the transposed weight is multiplying by the weight |
| DecideSpec.WinnerUnique | engine/src/aperturb.rs:587-595 | there is one earliest minimum |
| DecideSpec.Resume | engine/src/aperturb.rs:545-560 | a fault scan may be resumed wherever nothing has failed yet |
| DecideLaws.FirstFaultIsFirst | engine/src/aperturb.rs:515-561 | the error of a run is that of the first layer with a fault: its head's, or its first failing candidate's |
| DecideLaws.RefusedExactly | engine/src/aperturb.rs:456-472 | nothing is refused up front exactly when the pool is not empty, 1 <= rows <= 32, rows <= current_pos and the basis has the query width |
| Decide.Representatives | engine/src/aperturb.rs:499-501 | each candidate's representative is the earliest equal keep-set |
| Decide.CandidateLoop | engine/src/aperturb.rs:545-560 | skipping duplicates finds the fault a full scan finds, and leaves every representative's cells and mask one layer further |
| Decide.LayerLoop | engine/src/aperturb.rs:515-561 | the first fault of the whole unfolded run, or all cells and masks of the representatives |
| Decide.ShareWithDuplicates | engine/src/aperturb.rs:566-572 | every candidate ends with exactly the cells and mask its own keep-set gives |
| Decide.PickWinner | engine/src/aperturb.rs:587-595 | the earliest of the smallest scores |
| Decide.RepsAndRepeats | engine/src/aperturb.rs:511-514 | candidates scored plus candidates folded is the pool |
| Decide.ValidatePool | engine/src/aperturb.rs:480-483 | Ok exactly when every candidate passes both checks; otherwise the error of the first that fails |
| Decide.Decide | engine/src/aperturb.rs:449-602 | the outcome, errors included, is that of scoring every candidate separately against what is resident; the winner is the earliest minimum; attend_n = n_layers * (1 + candidates - folded), and folded and logits_n count what they say |
| DecideTheorems.ResidentCandidateScoresZero | engine/src/aperturb.rs:535-560 | a candidate equal to the resident set scores exactly zero in all four readouts |
| DecideTheorems.ScoresInRange | engine/src/aperturb.rs:545-585 | for every candidate of every decision: angles in [0, 2] and mean at most RMS |
| DecideTheorems.CandidatesAreResident | engine/src/aperturb.rs:477-483 | if a decision returns scores, every list of every attended head lies in that head's resident range |
| DecideTheorems.DividingRatioAttendsAll | engine/src/aperturb/kernel.rs:58-60 | when the query heads divide among the KV heads, every KV head is attended |
| DecideTheorems.ResidentIsNotEmpty | engine/src/aperturb/kernel.rs:413-418 | what rules out a head with nothing resident is the baseline's own empty-list error |
| DecideTheorems.CountedRowsSeenByBaseline | engine/src/aperturb.rs:538-552 | every row counted for a candidate is non-blind in the baseline at every layer |
| DecideLaws.ColumnsRead | engine/src/aperturb.rs:545-552 | the columns a row of a candidate reads are its list's positions p with p + rows <= current_pos + t, and the first one in any case |
| DecideLaws.CountedRowsExactly | engine/src/aperturb.rs:538-560 | row t counts for a candidate exactly when the first retained position of every head of every layer is not after it |
| DecideLaws.DecisionCellsBalance | engine/src/aperturb.rs:545-560 | every cell of a decision balances the readout rows of baseline and candidate |
| DecideLaws.WinnerBySums | engine/src/aperturb.rs:587-595 | the winner has the smallest average of the cells, or of the squared cells, that the configured readout names, and strictly smaller than every candidate before it |
| DecideLaws.CountersExactly | engine/src/aperturb.rs:511-534 | folded counts the candidates whose keep-set an earlier one has, logits_n the layers without exported logits of the right length, attend_n is n_layers * (1 + candidates - folded) |
| Digest.MultiplyInjective | engine/src/aperturb/basis_file.rs:181-184 | multiplying by the odd prime is injective modulo 2^64 |
| Digest.MixInjectiveInWord | engine/src/aperturb/basis_file.rs:181-184 | a mixing step is injective in the word |
| Digest.MixInjectiveInState | engine/src/aperturb/basis_file.rs:181-184 | and in the state |
| Digest.Digester.Layer | engine/src/aperturb/basis_file.rs:187-195 | a layer feeds its index, its length and its bit patterns, in order |
| Digest.DigestTable | engine/src/aperturb/basis_file.rs:203-209 | feeding the layers one at a time gives the digest of the table |
| Digest.OneWeightShows | engine/src/aperturb/basis_file.rs:151-195 | two tables of the same shapes that differ in exactly one bit pattern always have different digests |
| Digest.DigestOfSingle | engine/src/aperturb/basis_file.rs:168-195 | one layer of one weight: layer count, index, length and bit pattern are eaten in this order |
| Digest.DigestOfNothing | engine/src/aperturb/basis_file.rs:164-175 | the digest of no layers is 0xaf63bd4c8601b7df |
| Digest.DigestOfOne | engine/src/aperturb/basis_file.rs:164-195 | the digest of one layer that holds the bit pattern 1, as a literal |
| BasisFile.Write | engine/src/aperturb/basis_file.rs:212-246 | the bytes appended field by field are the encoding, dimensions cut to 32 bits; no fraction, no file |
| BasisFile.FileLayout | engine/src/aperturb/basis_file.rs:212-246 | the name, version 1, three 32-bit dimensions, three 64-bit words and the floats stand at bytes 0, 8, 12, 16, 20, 24, 32, 40 and 48 |
| BasisFile.ByteOfNumber | engine/src/aperturb/basis_file.rs:212-246 | numbers are little-endian |
| BasisFile.LayerAt | engine/src/aperturb/basis_file.rs:212-246 | layer l begins behind the l layers before it |
| BasisFile.WordAt | engine/src/aperturb/basis_file.rs:212-246 | and float k of it 4 k bytes later |
| BasisFile.ReadExactly | engine/src/aperturb/basis_file.rs:251-345 | the reader accepts exactly the writer's bytes for a basis of the expected dimensions, fraction and digest, and returns that basis and residual |
| BasisFile.ReadOfWrite | engine/src/aperturb/basis_file.rs:212-345 | a written basis reads back bit for bit, with its residual, exactly when its dimensions fit 32 bits |
| BasisFile.WriteOfRead | engine/src/aperturb/basis_file.rs:251-345 | any accepted byte string is exactly what the writer emits for the value returned |
| KeepTopK.CompileKeepTopK | crates/argus-extension-api/src/lib.rs:859-882 | prefix, then the best middle positions by score with ties to the lower index, then the recent window |
| KeepTopK.TopKShape | crates/argus-extension-api/src/lib.rs:859-882 | strictly ascending, inside [start, current), of exactly the three parts' length |
| KeepTopK.TopKLength | crates/argus-extension-api/src/lib.rs:859-882 | that length is the smaller of the whole budget and what is resident |
| KeepTopK.DroppedIsDominated | crates/argus-extension-api/src/lib.rs:867-876 | a dropped position is in the middle and ranks behind every kept middle position |
| KeepTopK.KeptExactly | crates/argus-extension-api/src/lib.rs:859-882 | positions before start + prefix and from current - recent on are all kept; of the rest one only if no dropped position scores higher, or as high and earlier |
| KeepTopK.TopKUnique | crates/argus-extension-api/src/lib.rs:854-858 | spec and scores determine the list |
| KeepTopK.ScoresOutsideDoNotMatter | crates/argus-extension-api/src/lib.rs:868-870 | only scores between prefix and window are consulted |
| SnapKv.AvgPool1d | crates/argus-extension-api/src/lib.rs:931-944 | the zero-padded window sum over the kernel size, at every position |
| SnapKv.PoolLaw | crates/argus-extension-api/src/lib.rs:931-944 | a pooled value times the kernel is the sum of the inputs from kernel / 2 before the position on, as many as the kernel |
| SnapKv.HeadLaw | crates/argus-extension-api/src/lib.rs:1008-1018 | a query head's score times kernel and window is its raw attention over that stretch |
| SnapKv.GroupLaw | crates/argus-extension-api/src/lib.rs:1020-1030 | a KV head's score times the group size is the sum over query heads kv * groups on, as many as the group has |
| SnapKv.PerHeadKeepFrom | crates/argus-extension-api/src/lib.rs:998-1046 | each KV head's list is the top-k of the mean pooled score of its query heads |
| SnapKv.KeptPerHead | crates/argus-extension-api/src/lib.rs:1034-1043 | every KV head keeps its first protected positions from its own start and the whole window, and the rest by its own score, ties to the lower position |
| SnapKv.GroupsAre | crates/argus-extension-api/src/lib.rs:1003-1005 | a group is as large as the ratio of query heads to KV heads, and all but the window is scored |
| SnapKv.FallbackUnreached | crates/argus-extension-api/src/lib.rs:1042 | the score fallback is never reached: any value in its place gives the same list |
| SnapKv.LengthsAgreeExactly | crates/argus-extension-api/src/lib.rs:1031-1033 | two heads keep equally many if and only if their clamped starts coincide or both have room for protected + heavy + window |
| SnapKv.UniformLengthsAgree | crates/argus-extension-api/src/lib.rs:974-992 | without starts all lists have equal length |
| SnapKv.RaggedLengthsDiffer | crates/argus-extension-api/src/lib.rs:1031-1033 | an input on which the equal count fails: starts 0 and 6 of 8 keep 4 and 2 |
| Ragged.RaggedHead | engine/src/backend.rs:514-572 | one head: zero weights over the holes, softmax weights over the resident slots, and their weighted sum of values |
| Ragged.AttentionRagged | engine/src/backend.rs:467-574 | all heads' outputs and score rows, or a refusal that leaves the output alone |
| Ragged.AttentionDense | engine/src/backend.rs:339-411 | the head-major arm of the dense form: outputs and score rows over every slot |
| RaggedLaws.RaggedOutLaw | engine/src/backend.rs:514-572 | out[h][e] is the average of v[kv][slot][e] over the slots the head holds, counted by the exponential of the scaled dot product, and zero of none, by flat index |
| RaggedLaws.RaggedScoreLaw | engine/src/backend.rs:526-560 | the score of a slot is the share of its own exponential, and zero of a hole |
| RaggedLaws.StartIs | engine/src/backend.rs:500-525 | of the slots of the row, a head reads exactly those from its own start on |
| RaggedLaws.DenseLaw | engine/src/backend.rs:353-411 | outputs and scores of the dense form, over every slot |
| Ragged.HolesDoNotMatter | engine/src/backend.rs:514-572 | neither output nor scores depend on K or V below a head's start |
| Ragged.ScoreRowSums | engine/src/backend.rs:526-560 | a score row is zero below the start and sums to one when any slot is resident, to zero otherwise |
| Ragged.RaggedIsDense | engine/src/backend.rs:353-572 | with all starts and the base zero, outputs and scores equal the dense form's |
| KvCodec.PutThenLane | crates/argus-kv-codec/src/lib.rs:45-51 | packing a code and unpacking it gives the code back and disturbs no other place |
| KvCodec.PackOfUnpack | crates/argus-kv-codec/src/lib.rs:65-71 | unpacking a byte and packing it again gives the byte back |
| KvCodec.LanesAreDigits | crates/argus-kv-codec/src/lib.rs:45-71 | a byte's codes are its digits to the base 4, 16 or 256, the first the lowest |
| KvCodec.CodesAreConsecutive | crates/argus-kv-codec/src/lib.rs:45-71 | byte y holds the codes of consecutive values |
| KvCodec.CodeIsNear | crates/argus-kv-codec/src/lib.rs:48 | the clamp never bites, and the code names a level within half a step |
| KvCodec.Quantize | crates/argus-kv-codec/src/lib.rs:36-192 | for 2, 4 and 8 bits: the codes are the rounded positions between the extremes, scale and minimum stored through the rounding |
| KvCodec.ExtremesHaveExtremeCodes | crates/argus-kv-codec/src/lib.rs:36-52 | the least value has code 0 and the greatest the top code |
| KvCodec.Dequantize | crates/argus-kv-codec/src/lib.rs:62-201 | every value is its code times the stored scale plus the stored minimum |
| KvCodec.BlockError | crates/argus-kv-codec/src/lib.rs:36-201 | every round trip is within d/2 + L abs(rnd(d) - d) + abs(rnd(m) - m), L = 3, 15, 255 |
| KvCodec.QuantizeSliceQ2 | crates/argus-kv-codec/src/lib.rs:78-92 | block i encodes values 32 i to 32 i + 31 |
| KvCodec.DequantizeSliceQ2 | crates/argus-kv-codec/src/lib.rs:95-102 | block i is decoded into its own 32 places |
| KvCodec.SliceError | crates/argus-kv-codec/src/lib.rs:78-102 | the bound holds for every value of a slice of any number of blocks |
| Q4.Quantize | engine/src/quant.rs:44-58 | scale max_abs / 7 stored through the rounding, and the rounded codes of all 32 values in their nibbles |
| Q4.ByteIsTwoCodes | engine/src/quant.rs:49-53 | byte i is code i plus sixteen times code i + 16, both raised by 8 |
| Rounding.RoundHalves | engine/src/quant.rs:50-51 | halves round away from zero, and rounding is odd |
| Q4.Dequantize | engine/src/quant.rs:60-70 | every value is its code times the stored scale |
| Q4.CodeInRange | engine/src/quant.rs:50-51 | codes lie in [-7, 7], so the clamp never bites |
| Q4.CodeIsNear | engine/src/quant.rs:46-51 | the code names a level within half a step of the value |
| Q4.RequantizeIsFixedPoint | engine/src/auf/dtype_convert.rs:300-323 | a quantized block survives dequantizing and requantizing exactly when it was all zero or its scale did not round to zero |
| Q4.QuantizedUnique | engine/src/quant.rs:44-58 | values and rounding determine the block |
| Q4.FlushedScaleBreaks | engine/src/quant.rs:44-70 | for every rounding and every block with a non-zero value whose scale rounds to zero, only zeros come back and the block is lost |
| Q4.SurvivesHalfPrecision | engine/src/quant.rs:44-70 | under half precision a block survives if and only if it is all zero or its largest magnitude exceeds 7 * 2^-25 |

## Left out

- SpinPoolTheorems.RunInv: holds up to the 2^48th publish, which SpinPoolWrap.TurnsAreKeptUpToTheWrap shows to be the exact limit.
- SpinPoolProgress.DispatchCanFinish: exhibits one schedule; SpinPoolFairness.FairSetupPublishes and FairDispatchFinishes speak of all of them.
- SpinPoolProgress.ShutdownCanFinish: exhibits one schedule; SpinPoolFairness.FairShutdownFinishes speaks of all of them.
- Weak memory orderings: the pool is sequentially consistent, with one dispatching thread.
- IEEE rounding, NaN, infinities and signed zeros: arithmetic is over `real`, so the non-finite logit error, the NaN branches of ragged attention and the uniform fallback for a non-finite sum do not arise.
- Jacobi.JacobiEigh: works on a two-dimensional array in place of the flat row-major vector.
- Keep.ForLayer: positions and boundaries are unbounded integers; the source stores them as u32 and i32.
- Decide.Decide: keeps the cell grids as values and allocates its buffers per layer instead of reusing them; each kernel's contract overwrites its whole buffer.
- Decide.Decide: takes pools whose tables have the geometry's shape; the source would index out of bounds.
- Readout.Aggregate: over zero layers the source's four scores are NaN, which 0 stands for here; the winner is the first candidate either way.
- Recompute.CellsAreRecomputed: speaks of layers whose logits are computed; exported logits are taken as they come.
- Q4.SurvivesHalfPrecision: does not model overflow to infinity.
- BasisFile.ReadExactly: does not model overflow of n_layers * d * rank in a 64-bit `usize`, nor file errors.
- Ragged.AttentionRagged: the cache capacity and the scale are given, f16 rows are taken as already widened, and score rows are returned instead of written at a stride.
- KvCodec.Quantize: one codec with three widths; the 4- and 8-bit source bodies are written out separately.
- Subspace iteration, its gates and its sketch: convergence depends on spectra and tolerances.
- The rank rule, metric keys, `keep_union`, `keep_intersect`, `max_pool1d`, `evict`: single-branch or set operations that would only add easy members.
- GPU backends, tensors, registries, C tables, timing, logging, model files and scripts.
