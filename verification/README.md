# Verified models of TensorRT-LLM

A Dafny model of the parts of TensorRT-LLM whose correctness rests on state that several operations share: the
attention-bias fusion of the graph rewriter, the multi-node NVLink (MNNVL) address-space allocator, the FetchContent
cache of git and LFS objects, LoRA weight reordering and the LoRA adapter registry, the managed-weights file, two graph
walks with a shared visited set, managed blocks in config files, the lint ratchet, and the token limits of a build.
Everything below is a statement about the model; nothing was executed.

`dafny verify dfyconfig.toml` checks the project.

## How it is organised

| files | what they model |
|---|---|
| `Network`, `FusionMeaning`, `FusionPass`, `GraphRewriter` | networks and the values of their tensors; the relation between a rewritten network and the original; the pattern and the replacement of outputs; the network object and the rewrite loop |
| `FusionMatch`, `FusionProofs`, `FusionTypes`, `FusionOutcome`, `FusionRun`, `FusionCompletes` | what matches; one rewrite; tensor types; what all passes keep; what a half-finished pass looks like; and exactly when `optimize` completes |
| `MnnvlState`, `MnnvlProofs`, `MnnvlMemory`, `MnnvlCluster`, `MnnvlReuse`, `MnnvlOrphans`, `StridedView` | the allocator of one process, its invariant, the class with its loops, all ranks together, when a region is shared, regions without an owner, and the strided tensor view |
| `GitCache`, `GitCacheWriter`, `GitCacheRuns`, `GitCacheRemovals`, `GitCacheSolo`, `LfsPool` | one update of the cache, the writer with its loops, interleaved writers, what they remove, a writer alone, and the LFS pool |
| `LoraInterleave`, `LoraProofs`, `LoraFused`, `LoraExperts`, `LoraAdapter`, `LoraRegistry`, `LoraBuffers`, `LoraManager` | tensor-parallel reordering of fused weights, the two fused modules, stacked experts; what one load leaves behind, many loads, the rows the engine reads, and the manager object |
| `Json`, `ManagedWeights`, `ManagedWeightsProofs`, `ManagedWeightsLayout` | the JSON text of the header (RFC 8259), the file writer and reader, their round trip, and the bytes of the file |
| `MethodSearch`, `ModuleTree`, `ModuleRoutes`, `ModuleParameters`, `ParameterNames` | inherited-method lookup, module traversal and its order, parameters and their names |
| `ManagedBlock`, `LintOrder`, `LintRatchet`, `LintBaseline` | managed-block replacement with the generate and check commands; counting lint violations, comparing with a baseline, and writing one |
| `TokenLimits` | sequence and token limits of a build |
| `Wrappers`, `Arithmetic` | shared datatypes and facts |

State that the source updates in place is a class whose methods carry the loops of the source; each method's
postcondition ties its new state to a function of the old one, and the theorems are about those functions and about
every sequence of operations.

## What the model assumes

- Attention with bias `c` on `x` equals attention without bias on `x + c`, and SUM commutes (`Network.Lawful`). Nothing
  else is assumed about layers.
- `cuMemAddressReserve` returns a non-zero range that is disjoint from the live reservations and, for the fabric page
  size, aligned; all ranks get the handles that the ranks created for the same open; sizes and granularity are positive.
- `git rev-list` decides whether an ancestry is present; `update-ref` with an expected value is a compare-and-swap; a
  fetch adds objects and advertised refs and removes no object.
- A LoRA checkpoint is a value: which layers and modules it holds, with opaque rows; LORA_MODULE_IDS is a parameter.
- `numpy.reshape` infers one dimension that is given as a negative number.
- Paths are made relative to the repository by some function of the file name; the lint tool's report is a parameter.

## Where the code falls short of what one would expect

- `Tensor.replace_all_uses_with` raises when one layer reads the tensor in two slots: the user list names the layer
  twice and the second visit finds nothing to change. `FusionCompletes.OptimizeCompletesIff` says for which networks
  `optimize` completes, and `GraphRewriter.FusionCanRaise` gives one on which it raises. The network is then left
  half-way, but still has its old meaning.
- `FLayerInfo.replace_input_with` computes the replaced inputs and drops them, so a record can name a tensor that was
  replaced. The invariant of the model is therefore that records denote the values of the original call.
- `interleave_fused_lora_weights_for_tp` loses rows when one part is empty and another is not, because splitting an
  empty tensor gives one piece and the zip stops there (`LoraProofs.ShardsCorrectIff`).
- An MNNVL open that fails after it has reserved a region leaves it reserved. Only an open that goes through while that
  region is still the current one gives it an owner; after another reservation it stays for good
  (`MnnvlOrphans.ClosingEverythingRestores`, `MnnvlOrphans.LostForGood`, `MnnvlOrphans.FailedOpenLeaks`).
- A close that a garbage collection runs between the fit test of an open and its mapping is harmless unless it closes
  the last object of the current region; then the open goes on at address 0 (`MnnvlOrphans.CloseInsideOpen`).
- A managed-weights file with an int8 weight can be written but not read. Metadata in the header makes the reader raise,
  or, if it happens to look like a weight, come back as one (`ManagedWeightsProofs.RoundTrip`,
  `ManagedWeightsProofs.MetadataCanBeAWeight`).
- A LoRA load that fails after its file was read leaves the uid registered, so that a second attempt is skipped
  (`LoraRegistry.FailedLoadStaysRegistered`).
- The docstring of `replace_managed_block` asks that the block include both markers; that alone does not make
  generation repeatable (`ManagedBlock.IdempotentIff`, `ManagedBlock.TrailingTextRepeats`).
- Dot-free names are not enough for parameter names to differ: without a prefix, an empty child name is invisible
  (`ParameterNames.EmptyNamesCollide`). `ParameterNames.NamesEqualIff` says exactly which parameters share a name.
- A baseline written from a scan reports regressions against that same scan when a file is called `_meta`
  (`LintBaseline.WrittenComparesCleanIff`), and a file whose baseline entry is not an object is never compared
  (`LintRatchet.FindRegressions`).

## Model

| member | source | states |
|---|---|---|
| `GraphRewriter.TrtNetwork.Optimize` | tensorrt_llm/graph_rewriting.py:639-645 | Always ends; the final network and whether it completed are those of `Optimized`, for which the next rows say what values and types are kept, when it completes and what is left to rewrite. |
| `GraphRewriter.OptimizePreservesMeaning` | tensorrt_llm/graph_rewriting.py:639-645 | Whatever `optimize` leaves behind, completed or stopped by a raise: the network is acyclic, has the outputs in their order, and each has the value it had, for every lawful semantics and every input. |
| `FusionCompletes.OptimizeCompletesIff` | tensorrt_llm/graph_rewriting.py:612-645 | On every freshly built network: `optimize` completes if and only if, in the network it is given, no layer makes the matcher raise and no output of a matching layer is read twice, by one layer or by a fusion of an earlier layer; and one pass does all the work. |
| `FusionCompletes.InOrderCompletesIff` | tensorrt_llm/graph_rewriting.py:612-645 | When layers read only earlier layers, only double reads that are in the given network count. |
| `FusionCompletes.DoubleReads` | tensorrt_llm/functional.py:563-569 | Half-way through the pass an output is read twice exactly when the given network says so. |
| `FusionTypes.OptimizeKeepsTypes` | tensorrt_llm/graph_rewriting.py:416-433 | Completed or raised: every network output and every given layer keeps its type; an attention layer that is added has the two types the plugin chose for its recorded call, in this order, except where its output has become a network output; any other added layer is a cast. |
| `FusionTypes.RewriteTypes` | tensorrt_llm/graph_rewriting.py:394-454 | One rewrite: nothing is retyped but outputs of the new layer, and these exactly when they are marked, to the type of the output they replace. |
| `FusionTypes.ReplaceOutputTypes` | tensorrt_llm/graph_rewriting.py:408-433 | Replacing an output adds one cast, to the old type, exactly if the types differ, and retypes the new tensor exactly if the old one was a network output. |
| `FusionMatch.MatchMeans` | tensorrt_llm/graph_rewriting.py:612-629 | A layer matches exactly if it is an attention plugin with a recorded call without bias, whose packed qkv one slot of the whole network reads, and that qkv is a sum of just one constant-foldable and one other tensor; these two are handed on. |
| `FusionMatch.MatchRaises` | tensorrt_llm/graph_rewriting.py:618-622 | The matcher raises exactly on a plugin that was not recorded, or whose singly read qkv no layer produces. |
| `FusionMatch.SingleUserMeans` | tensorrt_llm/network.py:842-857 | The user list has one entry exactly if one input slot in the network reads the tensor. |
| `FusionMatch.UsersAscend` | tensorrt_llm/network.py:842-857 | Users come in layer order. |
| `FusionOutcome.OptimizedIsRelated` | tensorrt_llm/graph_rewriting.py:639-645 | The result, completed or not, is related to the given network. |
| `FusionOutcome.OptimizedSettles` | tensorrt_llm/graph_rewriting.py:639-645 | When it completes, no layer that is not removed still matches. |
| `FusionProofs.PassShrinks` | tensorrt_llm/graph_rewriting.py:248-270 | A pass that rewrites has strictly fewer attention calls without bias, so the loop ends. |
| `FusionRun.MatchAgrees` | tensorrt_llm/graph_rewriting.py:612-627 | The matcher decides about a layer not yet visited as it does on the given network, whatever was rewritten before. |
| `FusionRun.SameFoldable` | tensorrt_llm/graph_rewriting.py:593-603 | Rewriting earlier layers changes no answer of the depth-limited folding test on the tensors a later match looks at. |
| `FusionRun.SameSingleUser` | tensorrt_llm/graph_rewriting.py:615-622 | Nor whether the sum has the attention layer as its only user. |
| `GraphRewriter.FusionPreservesMeaning` | tensorrt_llm/graph_rewriting.py:394-454 | For every semantics in which SUM commutes and a bias may be moved into attention, and every input assignment: a network related to the original is acyclic, has as many outputs in the same order, and each output has the value it had. |
| `GraphRewriter.TrtNetwork.RunPass` | tensorrt_llm/graph_rewriting.py:248-270 | One pass over the layers present when it starts, stopping at the first that raises, as `PassTo` gives it. |
| `GraphRewriter.TrtNetwork.VisitLayer` | tensorrt_llm/graph_rewriting.py:258-267 | One layer of a pass: a removed layer is skipped, no match leaves the network and the flag as they were, a rewrite sets the flag, a raise ends the pass. |
| `GraphRewriter.TrtNetwork.MatchAndRewrite` | tensorrt_llm/graph_rewriting.py:612-636 | Declines, raises or rewrites exactly as the pattern decides, and the new state is the one of `RewriteAt`. |
| `GraphRewriter.TrtNetwork.Rewrite` | tensorrt_llm/graph_rewriting.py:629-636 | After a match: the new attention layer is added and both old outputs are replaced, in order, stopping at the first that raises. |
| `GraphRewriter.TrtNetwork.GetUsers` | tensorrt_llm/network.py:842-857 | A layer is listed as a user once per input slot that reads the tensor, in layer order. |
| `GraphRewriter.TrtNetwork.GetEltwiseInputs` | tensorrt_llm/graph_rewriting.py:587-610 | Splits the inputs into constant-foldable and other ones, both in input order. |
| `GraphRewriter.TrtNetwork.RewireUser` | tensorrt_llm/functional.py:563-567 | Every slot of one user that reads the old tensor reads the new one; the count of changed slots is returned. |
| `GraphRewriter.TrtNetwork.ReplaceAllUsesWith` | tensorrt_llm/functional.py:556-573 | Runs over the user list taken before the first change and fails at the first user with no slot left to change. |
| `GraphRewriter.TrtNetwork.ResetNetworkOutputTensors` | tensorrt_llm/graph_rewriting.py:416-433 | All outputs are re-marked in their old order with the old tensor replaced, and the new tensor takes the old type. |
| `GraphRewriter.TrtNetwork.ReplaceOutputUsesWith` | tensorrt_llm/graph_rewriting.py:435-454 | Users, tensor info and network outputs together, or a raise after the users that were already rewired. |
| `GraphRewriter.FusionCanRaise` | tensorrt_llm/functional.py:563-569 | A well-formed five-layer network on which `optimize` raises, because one layer reads the attention output in two slots. |
| `GraphRewriter.RaisesWhenReadTwice` | tensorrt_llm/functional.py:563-569 | Every fresh network with a matching layer whose first output one layer reads twice makes the rewrite of that layer raise, and `optimize` too. |
| `FusionProofs.RewriteOutcome` | tensorrt_llm/graph_rewriting.py:612-636 | A matched rewrite completes if and only if no layer reads either old output in two slots. |
| `FusionProofs.ReplaceOutputOutcome` | tensorrt_llm/graph_rewriting.py:435-454 | Replacing one output completes if and only if no layer reads it twice, and then every use has moved. |
| `FusionProofs.ReplaceUsesSucceeds` | tensorrt_llm/functional.py:556-573 | For a list of actual users, the replacement succeeds if and only if the list has no repeats. |
| `FusionProofs.ReplaceUsesIsComplete` | tensorrt_llm/functional.py:556-573 | After success exactly the listed layers read the new tensor wherever they read the old one, all others are unchanged. |
| `FusionProofs.StaleUserRaises` | tensorrt_llm/functional.py:568-568 | A listed user that does not read the tensor makes the replacement raise. |
| `FusionProofs.RewriteDetaches` | tensorrt_llm/graph_rewriting.py:394-454 | After a completed rewrite nothing reads the two old outputs and neither is a network output. |
| `FusionProofs.RewriteShrinksUnbiased` | tensorrt_llm/graph_rewriting.py:612-636 | The set of attention calls recorded without bias loses exactly the rewritten one, also when the rewrite raises. |
| `FusionProofs.RewriteKeepsRelated` | tensorrt_llm/graph_rewriting.py:612-636 | One whole rewrite, completed or not, keeps the network related to the original. |
| `FusionProofs.FuseKeepsRelated` | tensorrt_llm/graph_rewriting.py:629-633 | The updated record and the layer built from it denote the old attention layer. |
| `FusionProofs.SwapInfoKeepsRelated` | tensorrt_llm/graph_rewriting.py:408-414 | Swapping the tensor info changes no layer: it adds at most a cast that nothing reads, and no live tensor changes its meaning. |
| `FusionProofs.ReplaceOutputKeepsRelated` | tensorrt_llm/graph_rewriting.py:394-454 | Replacing an output by one that stands for the same original tensor keeps the relation. |
| `FusionProofs.ConstFoldableMeans` | tensorrt_llm/graph_rewriting.py:593-603 | Foldable at depth 0 if and only if every chain of producers above the tensor ends at a layer without inputs within the depth limit; a network input on a chain rules it out. |
| `FusionProofs.FoldableIsConstant` | tensorrt_llm/graph_rewriting.py:593-603 | A foldable tensor has the same value for all network inputs. |
| `FusionProofs.SplitSumDenotes` | tensorrt_llm/graph_rewriting.py:615-633 | Bias-free attention on a sum and biased attention on one summand denote the same original layer, whichever order the sum has. |
| `FusionMeaning.SameValue` | tensorrt_llm/graph_rewriting.py:394-454 | In related networks every live tensor has the value of the original tensor it stands for. |
| `FusionMeaning.OutputsKeepMeaning` | tensorrt_llm/graph_rewriting.py:416-433 | Output by output, values and order are kept. |
| `FusionMeaning.RelatedIsAcyclic` | tensorrt_llm/graph_rewriting.py:612-636 | A network related to an acyclic one is acyclic, though new layers feed older ones. |
| `FusionMeaning.ConstructedIsRelated` | tensorrt_llm/graph_rewriting.py:545-555 | A freshly built network, with its recorded calls, is related to itself. |
| `FusionMeaning.ValueIsRankFree` | tensorrt_llm/graph_rewriting.py:394-454 | Values do not depend on the topological numbering used to define them. |
| `Network.AcyclicHasNoCycle` | tensorrt_llm/network.py:842-857 | A network with a topological numbering has no directed cycle of producers and consumers. |
| `MnnvlCluster.SegmentsBackedByTheirRank` | tensorrt_llm/_mnnvl_utils.py:185-331 | After every interleaving of collective opens (some failing) and local closes, on every rank, segment `i` of every live object is mapped to the memory rank `i` created for that open, even when the ranks differ in offset and stride. |
| `MnnvlOrphans.ClosingEverythingRestores` | tensorrt_llm/_mnnvl_utils.py:334-353 | A rank that has closed everything has nothing mapped and no counts; it is back in its initial state if and only if, in the run, every open that failed after reserving was followed by one that went through before the next reservation. |
| `MnnvlOrphans.RunStanding` | tensorrt_llm/_mnnvl_utils.py:185-353 | Whether a rank has no orphan, one that can still be used, or a lost one is decided event by event from which opens reserve and which go through. |
| `MnnvlOrphans.LostForGood` | tensorrt_llm/_mnnvl_utils.py:170-182 | A reserved region that is neither counted nor current stays reserved through every run. |
| `MnnvlOrphans.OrphanSurvivesRun` | tensorrt_llm/_mnnvl_utils.py:205-208 | An orphan stays one through every run without an open that goes through in it while it is current. |
| `MnnvlOrphans.OrphanStays` | tensorrt_llm/_mnnvl_utils.py:205-208 | The same for each single event. |
| `MnnvlOrphans.FailedOpenOrphans` | tensorrt_llm/_mnnvl_utils.py:205-208 | An open that fails before mapping leaves an orphaned region if and only if it had to reserve one. |
| `MnnvlOrphans.FailedOpenLeaks` | tensorrt_llm/_mnnvl_utils.py:205-208 | A concrete run that ends with no live object and a region still reserved. |
| `MnnvlOrphans.CloseInsideOpen` | tensorrt_llm/_mnnvl_utils.py:203-208 | A close between the fit test of an open and its mapping leaves the room alone if and only if it did not close the last object of the current region. |
| `MnnvlOrphans.InterruptedOpenKeepsInv` | tensorrt_llm/_mnnvl_utils.py:296-331 | In that case the open completes and keeps the whole invariant. |
| `MnnvlOrphans.NoRegionNoReservation` | tensorrt_llm/_mnnvl_utils.py:296-314 | Otherwise it would map every slice at address 0, which no reservation covers. |
| `MnnvlReuse.FittingOpensShareRegion` | tensorrt_llm/_mnnvl_utils.py:203-331 | Consecutive opens whose rounded sizes together fit in the rest of the current region reserve nothing, whatever the driver would offer, and lie in it one behind the other. |
| `MnnvlReuse.FittingOpen` | tensorrt_llm/_mnnvl_utils.py:203-208 | A request that fits reserves nothing, whether the open goes through or fails, and is placed at the current start plus offset. |
| `MnnvlReuse.OverflowingOpen` | tensorrt_llm/_mnnvl_utils.py:170-208 | A request that does not fit adds exactly one reservation, of the least number of pages that holds it, and is placed at its start. |
| `MnnvlReuse.CloseOutcome` | tensorrt_llm/_mnnvl_utils.py:334-353 | A close unmaps the slices of its allocation and no others; the region is freed exactly if no other live allocation is in it, and then no region is current if it was that one. |
| `MnnvlReuse.CloseEventOutcome` | tensorrt_llm/_mnnvl_utils.py:334-353 | A close takes away just the closed object of the closing rank. |
| `MnnvlReuse.UnequalSizesRefused` | tensorrt_llm/_mnnvl_utils.py:199-201 | When ranks ask for different sizes nothing changes anywhere. |
| `MnnvlCluster.LiveSegmentBacked` | tensorrt_llm/_mnnvl_utils.py:296-331 | In every cluster state that satisfies the invariant, each segment of each live object is mapped, with enough room, to its own rank. |
| `MnnvlCluster.NothingLive` | tensorrt_llm/_mnnvl_utils.py:334-353 | A rank whose objects are all closed has no allocation, mapping or count, and is initial if and only if no region is orphaned. |
| `MnnvlCluster.RunLeavesNoOrphans` | tensorrt_llm/_mnnvl_utils.py:185-353 | Runs in which every open goes through never leave a reserved region without an owner. |
| `MnnvlCluster.ApplyKeepsValid` | tensorrt_llm/_mnnvl_utils.py:185-353 | Every enabled open or close keeps the invariant of all ranks. |
| `MnnvlCluster.OpenKeepsRankValid` | tensorrt_llm/_mnnvl_utils.py:185-331 | An open keeps one rank valid: its objects are exactly its allocations, each with the gathered handles of its open. |
| `MnnvlCluster.CloseKeepsRankValid` | tensorrt_llm/_mnnvl_utils.py:334-353 | A close, in any order, keeps one rank valid. |
| `MnnvlState.SlicesDisjoint` | tensorrt_llm/_mnnvl_utils.py:296-331 | Any two slices of any two live allocations are disjoint. |
| `MnnvlState.MappedRangesSafe` | tensorrt_llm/_mnnvl_utils.py:296-314 | All mapped ranges are pairwise disjoint, each inside one live reservation. |
| `MnnvlState.MappedRangeReserved` | tensorrt_llm/_mnnvl_utils.py:296-314 | Every mapped range, also a single one, lies inside one live reservation. |
| `MnnvlProofs.OpenKeepsInv` | tensorrt_llm/_mnnvl_utils.py:203-331 | A successful open gets a pointer that is not in use and keeps the allocator invariant, reference counts included. |
| `MnnvlProofs.WithRegionKeepsInv` | tensorrt_llm/_mnnvl_utils.py:205-208 | Switching to a new region keeps the invariant and leaves room for the request; it creates an orphan exactly when it reserves. |
| `MnnvlProofs.OpenLeavesNoOrphans` | tensorrt_llm/_mnnvl_utils.py:316-331 | Recording the allocation gives its region an owner. |
| `MnnvlProofs.CloseKeepsInv` | tensorrt_llm/_mnnvl_utils.py:334-353 | A close keeps the invariant and creates no orphan. |
| `MnnvlProofs.AllClosedIsInitial` | tensorrt_llm/_mnnvl_utils.py:334-353 | Without live allocations nothing is mapped or counted, and the state is the initial one if and only if there is no orphan. |
| `MnnvlMemory.MnnvlProcess.OpenMnnvlMemory` | tensorrt_llm/_mnnvl_utils.py:185-331 | Keeps the invariant. A request that fits leaves the reservations and the current region alone and gets start plus offset; any other adds one region and gets its start; a failure raises after that. |
| `MnnvlMemory.MnnvlProcess.CloseMnnvlMemory` | tensorrt_llm/_mnnvl_utils.py:334-353 | Keeps the invariant; fails exactly for an unknown pointer, leaving all unchanged, and otherwise undoes the allocation. |
| `MnnvlMemory.MnnvlProcess.NewMnnvlMemoryAddress` | tensorrt_llm/_mnnvl_utils.py:170-182 | Reserves the page-rounded stride for every rank and resets the bump pointer. |
| `MnnvlMemory.MnnvlProcess.EnsureRegion` | tensorrt_llm/_mnnvl_utils.py:203-208 | Rounds the size to the granularity; if offset plus size is within the stride nothing changes, otherwise one region of whole pages is reserved and becomes current. |
| `MnnvlMemory.MnnvlProcess.MapSlices` | tensorrt_llm/_mnnvl_utils.py:296-314 | Maps one slice per rank at start + stride * rank + offset, and nothing else. |
| `MnnvlMemory.MnnvlProcess.MapAndRecord` | tensorrt_llm/_mnnvl_utils.py:296-331 | Maps the slices, records the allocation, counts the region and advances the offset. |
| `MnnvlMemory.MnnvlProcess.UnmapSlices` | tensorrt_llm/_mnnvl_utils.py:340-343 | Unmaps exactly the slices of one allocation. |
| `MnnvlMemory.MnnvlProcess.DropReference` | tensorrt_llm/_mnnvl_utils.py:344-353 | Lowers the count of the region; the last one frees it and resets the bump pointer when it was the current region. |
| `MnnvlMemory.MnnvlProcess.Release` | tensorrt_llm/_mnnvl_utils.py:334-353 | The whole close of a known pointer. |
| `StridedView.AddressIsExact` | tensorrt_llm/_dlpack_utils.py:143-147 | Dividing the stride by the element size loses nothing: element (i, j) is at ptr + i * stride + j * bytes. |
| `StridedView.ColumnsFill` | tensorrt_llm/_mnnvl_utils.py:101-105 | The columns fill the segment up to less than one element. |
| `StridedView.ElementInOwnSegment` | tensorrt_llm/_mnnvl_utils.py:101-105 | Every element of the view lies inside the range mapped for its own rank, backed by that rank. |
| `StridedView.ElementsDisjoint` | tensorrt_llm/_dlpack_utils.py:143-147 | Different elements of the view have disjoint bytes. |
| `GitCacheRuns.AnchorsSurviveEveryRun` | 3rdparty/fetch_cache.py:419-506 | Over every interleaving of writer steps the pool stays sound (each full-pool anchor points at its commit with the whole ancestry present) and loses no object and no anchor. |
| `GitCacheRemovals.RemovedWasBroken` | 3rdparty/fetch_cache.py:367-395 | Over every interleaving: a ref that a step removes is an advertised one, and the value it has at that moment is a commit that the removing writer found unverified and disconnected at an earlier step; a value another writer has put there since is never removed. |
| `GitCacheRemovals.ConnectedIsNeverRemoved` | 3rdparty/fetch_cache.py:367-395 | No run removes a ref from a commit whose ancestry was present from the start. |
| `GitCacheRemovals.RefAfterStep` | 3rdparty/fetch_cache.py:652-781 | A step leaves a ref as it was, or is a fetch pointing an advertised ref at a present commit, a removal of the value that was checked, or the creation of an absent anchor. |
| `GitCacheRemovals.DeletingWasChecked` | 3rdparty/fetch_cache.py:388-395 | A writer about to remove a ref has checked just that value of it before. |
| `GitCacheRemovals.FetchLands` | 3rdparty/fetch_cache.py:652-742 | What a fetch delivers lands: its objects, and an advertised ref once its commit is present; no other step changes the objects. |
| `GitCacheRuns.FinishedWriterHasAnchored` | 3rdparty/fetch-cache.md:381-402 | From an empty pool, over every interleaving: a writer that has gone through its tips has anchored every one that was connected when it began to replicate, whatever the other writers did. |
| `GitCacheRuns.RunKeepsAhead` | 3rdparty/fetch_cache.py:762-781 | As long as the writer lives, such a tip is anchored or still ahead of it. |
| `GitCacheSolo.LoneWriterUpdates` | 3rdparty/fetch_cache.py:472-506 | The steps refine the whole: whatever order a lone writer takes its refs and tips in, it ends with exactly the refs and objects of the update. |
| `GitCacheSolo.StepProgresses` | 3rdparty/fetch_cache.py:367-395 | Every step of a lone writer keeps the bare equal to the pruned and replicated one for the part done so far. |
| `GitCacheRuns.StepKeepsSound` | 3rdparty/fetch_cache.py:762-781 | Each single step of each writer keeps the pool sound, also a ref write that comes long after its connectivity check. |
| `GitCacheRuns.StepAccumulates` | 3rdparty/fetch-cache.md:260-300 | No step removes an object or an anchor. |
| `GitCacheRuns.CheckedTipStaysConnected` | 3rdparty/fetch_cache.py:762-781 | A writer about to anchor a commit it has checked still finds it connected, whatever the others did since. |
| `GitCacheRuns.EmptyPoolSound` | 3rdparty/fetch_cache.py:419-470 | A new pool is sound. |
| `GitCache.UpdateOutcome` | 3rdparty/fetch_cache.py:472-506 | With one writer: objects grow by the source, anchors are the old ones and the connected tips, and an advertised ref is there exactly if what the source offers, or else what was there, is connected, with that value. |
| `GitCache.UpdateIsIdempotent` | 3rdparty/fetch_cache.py:472-506 | A second update from the same source changes nothing. |
| `GitCache.MemoisedEqualsUnmemoised` | 3rdparty/fetch_cache.py:342-395 | Skipping the commits that are already anchored gives exactly the refs of checking every one. |
| `GitCache.FetchKeepsAnchors` | 3rdparty/fetch_cache.py:652-742 | A fetch keeps every anchor and its connectivity. |
| `GitCache.ConnectedGrows` | 3rdparty/fetch_cache.py:326-339 | More objects never disconnect a commit. |
| `GitCacheWriter.BareRepo.IsConnected` | 3rdparty/fetch_cache.py:326-339 | The ancestry walk answers true exactly when every ancestor is present. |
| `GitCacheWriter.BareRepo.ExistingHaveShas` | 3rdparty/fetch_cache.py:342-364 | Exactly the anchored commits. |
| `GitCacheWriter.BareRepo.PruneDisconnectedFetchRefs` | 3rdparty/fetch_cache.py:367-395 | Deletes exactly the advertised refs whose commit is neither verified nor connected; anchors stay. |
| `GitCacheWriter.BareRepo.ReplicateSrcRefsChecked` | 3rdparty/fetch_cache.py:762-781 | Adds an anchor for exactly the tips that are new and connected. |
| `GitCacheWriter.BareRepo.ReplicateSrcRefs` | 3rdparty/fetch_cache.py:745-759 | Adds an anchor for every tip that is present, without the ancestry check. |
| `GitCacheWriter.EnsureCache` | 3rdparty/fetch_cache.py:419-506 | The whole decision: which bare and which LFS pool are used, when nothing is done, and the state after a failed init, a failed fetch, the up-to-date exit and a full update; the LFS objects are taken in exactly when it succeeds. |
| `GitCacheWriter.ShallowUpdateOutcome` | 3rdparty/fetch_cache.py:496-497 | In the shallow pool anchors are exactly the old ones and the tips that are present, refs are those the source offers or that were there, and a second update changes nothing. |
| `LfsPool.PoolStaysAddressed` | 3rdparty/fetch_cache.py:144-195 | Over every interleaving of ingests, and of sources changing under the copy, a pool file hashes to its name, is never lost, and keeps its content unless the hash collides. |
| `LfsPool.StepKeepsAddressed` | 3rdparty/fetch_cache.py:144-195 | Each step of an ingest keeps the pool content-addressed. |
| `LfsPool.IngestOutcome` | 3rdparty/fetch_cache.py:144-195 | An ingest among any others: a copy that hashes to its name becomes visible under it and stays, any other changes nothing. |
| `LfsPool.PoolDir.IngestLfsObject` | 3rdparty/fetch_cache.py:144-195 | Succeeds exactly for a regular file that hashes to its name, and then the pool holds it. |
| `LfsPool.PoolDir.UpdateLfsPool` | 3rdparty/fetch_cache.py:198-215 | Counts ingested, skipped and failed files and adds exactly the ingestible missing ones. |
| `LfsPool.IngestedKeys` | 3rdparty/fetch_cache.py:198-215 | The pool afterwards holds what it held, unchanged, and exactly the ingestible source files, each new one with the bytes of such a file. |
| `LfsPool.TallyCounts` | 3rdparty/fetch_cache.py:198-215 | Every file is counted once, the ingested ones are the new entries of the pool, the skipped ones those it already held. |
| `LfsPool.SecondPassIsIdle` | 3rdparty/fetch_cache.py:198-215 | A second pass ingests nothing, skips all that the first one stored and rejects the same files. |
| `LoraProofs.ShardsCorrectIff` | tensorrt_llm/lora_manager.py:1006-1037 | Contiguous shard `r` of the reordered tensor is the `r`-th chunk of every part, for every rank, if and only if there is one rank, or no part is empty, or all are. |
| `LoraProofs.EmptyPartLosesRows` | tensorrt_llm/lora_manager.py:1039-1068 | Preparing two rows of fused qkv for two ranks, one query head and no key-value head each, loses one of them. |
| `LoraProofs.ReorderedIsRankShards` | tensorrt_llm/lora_manager.py:1006-1037 | The result is the concatenation of the rank shards, as many as the shortest list of pieces allows. |
| `LoraProofs.RestoreInverts` | tensorrt_llm/lora_manager.py:1006-1037 | An inverse reordering gives the weight back. |
| `LoraProofs.ReorderInverts` | tensorrt_llm/lora_manager.py:1006-1037 | The reordering undoes its inverse. |
| `LoraProofs.ReorderedIsPermutation` | tensorrt_llm/lora_manager.py:1006-1037 | No row is lost or repeated when no part is empty. |
| `LoraProofs.OneRankIsIdentity` | tensorrt_llm/lora_manager.py:1047-1049 | With one rank the reordering is the identity, as the early return assumes. |
| `LoraProofs.PrepareOutcome` | tensorrt_llm/lora_manager.py:1039-1068 | For the fused modules: accepted exactly when the part sizes fit and divide, and then correct if and only if no part is empty or the weight is. |
| `LoraFused.QkvRows` | tensorrt_llm/lora_manager.py:1055-1066 | Rank `r` ends up with the rows of its own query heads, then of its key heads, then of its value heads. |
| `LoraFused.QkvAccepts` | tensorrt_llm/lora_manager.py:1055-1060 | A fused qkv weight is accepted exactly if it has as many rows as the heads of all ranks. |
| `LoraFused.GateUpRows` | tensorrt_llm/lora_manager.py:1051-1066 | Rank `r` ends up with its rows of the first half and then of the second. |
| `LoraFused.GateUpAccepts` | tensorrt_llm/lora_manager.py:1051-1054 | A gate/up weight is accepted exactly if both halves divide among the ranks. |
| `LoraExperts.PrepareStackedOutcome` | tensorrt_llm/lora_manager.py:1109-1148 | Mixture of experts: reordering the stacked tensor along its second dimension raises exactly when any one expert would, and otherwise gives every expert exactly its own reordering. |
| `LoraExperts.ExpertShardsCorrectIff` | tensorrt_llm/lora_manager.py:1109-1148 | Every rank gets its chunk of every part of every expert if and only if no part is empty or there are no rows. |
| `LoraManagers.LoraManager.LoadFromHf` | tensorrt_llm/lora_manager.py:967-1212 | Keeps the registry valid; adapters loaded before are unchanged; the returned uids are exactly the given ones that were not loaded, and with different uids exactly those are added, completely; a wrong number of uids or an unreadable config raises before anything changes. |
| `LoraManagers.LoraManager.LoadFromNemo` | tensorrt_llm/lora_manager.py:811-905 | The same for NeMo files. |
| `LoraManagers.LoraManager.LoadHfDirs` | tensorrt_llm/lora_manager.py:982-1212 | Reads every config first, then loads one adapter after the other up to the first failure. |
| `LoraManagers.LoraManager.Select` | tensorrt_llm/lora_manager.py:967-980 | Which uids a call loads: the ones not loaded yet, in order, each with its file; generated ones are all new and different. |
| `LoraManagers.LoraManager.GenerateUid` | tensorrt_llm/lora_manager.py:1234-1239 | The search for an unused uid ends, with the first counter whose uid is not loaded. |
| `LoraManagers.LoraManager.GenerateUids` | tensorrt_llm/lora_manager.py:967-968 | Generated uids are pairwise different and unused. |
| `LoraManagers.LoraManager.LoadAdapter` | tensorrt_llm/lora_manager.py:1070-1206 | The dictionaries after one load, whether it went through, failed half way or could not read its file. |
| `LoraManagers.LoraManager.ApplyLayers` | tensorrt_llm/lora_manager.py:1084-1197 | The layer loop, up to the first failing entry, touching only the entries of this uid. |
| `LoraManagers.LoraManager.ApplyEntry` | tensorrt_llm/lora_manager.py:1100-1197 | One module: rank, retained pointers, weight row and config row, in that order. |
| `LoraManagers.LoraManager.AppendRows` | tensorrt_llm/lora_manager.py:1191-1197 | The weight row is appended before the config row can fail. |
| `LoraManagers.LoraManager.FilterNew` | tensorrt_llm/lora_manager.py:971-977 | Uids that are registered are skipped, the others kept in order. |
| `LoraManagers.LoraManager.LookupNeverMisses` | tensorrt_llm/lora_manager.py:1272-1296 | A lookup gives the rank and pointers the dictionaries hold, nothing for a request without adapter or a rank of 0, and raises exactly if there is no such row; with device tensors retained only for a uid never registered, and every pointer handed out is that of a tensor still kept. |
| `LoraManagers.LoraManager.InputBuffers` | tensorrt_llm/lora_manager.py:1272-1302 | One column per layer and target module; row `i` has the rank and the pointers the dictionaries hold for uid `i`, and zeros for a request without adapter or without rank; with device tensors retained it never raises for registered uids. |
| `LoraManagers.LoraManager.ReadColumn` | tensorrt_llm/lora_manager.py:1276-1296 | Row `i` of a column is what the dictionaries hold for uid `i`. |
| `LoraBuffers.RowIsRecorded` | tensorrt_llm/lora_manager.py:1276-1296 | From checkpoint to engine: a row for a loaded uid has the rank and the in, out and magnitude pointers that its checkpoint records last for this module of this layer; zeros where it is skipped or absent. |
| `LoraBuffers.LoadEachStands` | tensorrt_llm/lora_manager.py:1208-1212 | Of several loads under different uids each holds, for every module of every layer, what its own checkpoint says. |
| `LoraBuffers.LoadHoldsAll` | tensorrt_llm/lora_manager.py:1086-1181 | The same for one load, over all layers and modules: recorded, skipped or absent. |
| `LoraBuffers.HfModuleEntry` | tensorrt_llm/lora_manager.py:1100-1177 | A Hugging Face module is recorded with its own matrices exactly if it is a target, and skipped otherwise. |
| `LoraBuffers.HfLoads` | tensorrt_llm/lora_manager.py:1070-1206 | A directory loads under a new uid exactly if it could be read, some module is a target, and every target has its matrices, an id and a rank the scale can be divided by. |
| `LoraBuffers.NemoModuleEntry` | tensorrt_llm/lora_manager.py:845-880 | A NeMo layer is recorded for `attn_qkv`, without magnitude; any other target is skipped. |
| `LoraBuffers.NemoLoads` | tensorrt_llm/lora_manager.py:811-905 | A NeMo file loads exactly if it has layers, `attn_qkv` is a target with an id, and no layer lacks a matrix. |
| `LoraBuffers.TableRow` | tensorrt_llm/lora_manager.py:1183-1205 | Row `k` of both tables: in, out and magnitude data in this order padded with zeros, and module id, layer, rank and magnitude flag of the `k`-th recorded module. |
| `LoraBuffers.UnknownIdLeavesRow` | tensorrt_llm/lora_manager.py:1191-1197 | A module without an id stops the load after its weight row, so the weight table is one row longer than the config table. |
| `LoraRegistry.LoadOneOutcome` | tensorrt_llm/lora_manager.py:1070-1206 | Under a new uid a load goes through if and only if the file is readable, no matrix is missing, every recorded module has an id and at least one module is recorded; the uid is registered if and only if the file was readable. |
| `LoraRegistry.FreshLoad` | tensorrt_llm/lora_manager.py:1199-1206 | A load goes through exactly on a loadable checkpoint with at least one recorded module, and then both tables are stacked: padded weight rows and one config row each. |
| `LoraRegistry.FailedLoadStaysRegistered` | tensorrt_llm/lora_manager.py:1084-1085 | A concrete failing load leaves its uid registered without tables, and every later load of that uid is skipped. |
| `LoraRegistry.LoadEachCompletes` | tensorrt_llm/lora_manager.py:1208-1212 | Loads that all go through add exactly their uids to the rank, weight and config maps, each with equal row counts. |
| `LoraRegistry.LoadEachContents` | tensorrt_llm/lora_manager.py:1208-1212 | Loads under different uids do not disturb one another: each uid holds the padded rows and config rows of its own checkpoint. |
| `LoraRegistry.LoadEachKeepsSound` | tensorrt_llm/lora_manager.py:1208-1212 | Whatever fails on the way, the registry stays sound and loaded uids keep their entries. |
| `LoraRegistry.LoadsKeepAllComplete` | tensorrt_llm/lora_manager.py:1208-1212 | From a registry of complete adapters to a registry of complete adapters. |
| `LoraRegistry.PickMeans` | tensorrt_llm/lora_manager.py:971-977 | The picked uids are exactly the given ones that are not loaded. |
| `LoraRegistry.PickPositions` | tensorrt_llm/lora_manager.py:971-977 | The picked pairs are exactly the positions of unloaded uids, in order, each with its own file. |
| `LoraRegistry.DigitsInjective` | tensorrt_llm/lora_manager.py:1234-1239 | Different counters give different uids. |
| `LoraAdapter.LoadTables` | tensorrt_llm/lora_manager.py:1086-1206 | A load into empty tables goes through exactly on a loadable checkpoint, and row `i` of both tables then describes the `i`-th recorded module. |
| `LoraAdapter.LoadKeepsSound` | tensorrt_llm/lora_manager.py:1171-1181 | Every rank that is not zero has its pointers, and they point to kept tensors, also after a load that failed half way. |
| `LoraRegistry.LoadOneHolds` | tensorrt_llm/lora_manager.py:1171-1177 | After a load, looking up a recorded module gives its own rank and the pointers of its own in, out and magnitude tensors. |
| `LoraAdapter.LoadHolds` | tensorrt_llm/lora_manager.py:1086-1177 | The same for the entries of one uid: later layers and other modules do not disturb it. |
| `LoraAdapter.StackPads` | tensorrt_llm/lora_manager.py:1199-1205 | A stacked row starts with the original row and is zero from there to the common width. |
| `LoraAdapter.Widest` | tensorrt_llm/lora_manager.py:1199-1199 | The widest row: an upper bound that some row reaches. |
| `ManagedWeightsProofs.RoundTrip` | tensorrt_llm/builder.py:923-999 | Reading a written file gives back the map of names, dtypes, shapes and bytes if and only if no weight is int8 and no metadata entry is left in the header; it raises if and only if some weight is int8 or the metadata left is not itself readable as a weight; readable metadata comes back as one entry too many. |
| `ManagedWeightsProofs.OffsetsPartitionData` | tensorrt_llm/builder.py:946-951 | The offsets of consecutive weights are adjacent, start at 0 and end at the length of the data. |
| `ManagedWeightsProofs.EntryReadsBack` | tensorrt_llm/builder.py:975-997 | An entry the writer made reads back as the weight, except int8, which raises. |
| `ManagedWeightsProofs.MetadataCanBeAWeight` | tensorrt_llm/builder.py:926-928 | Metadata that describes the bytes of a written weight is returned as a weight of its own. |
| `ManagedWeightsProofs.StringMetadataUnreadable` | tensorrt_llm/builder.py:975-977 | Metadata whose values are all strings makes the reader raise. |
| `ManagedWeightsProofs.WeightEntry` | tensorrt_llm/builder.py:946-951 | The header entry of a weight gives its dtype, its shape and the place of its bytes. |
| `ManagedWeightsProofs.LittleEndianRoundTrip` | tensorrt_llm/builder.py:960-970 | The header length survives its little-endian bytes. |
| `ManagedWeightsProofs.HeaderExists` | tensorrt_llm/builder.py:930-947 | The writer accepts exactly the weights whose dtypes it knows. |
| `ManagedWeights.SerializeManagedWeights` | tensorrt_llm/builder.py:923-965 | The file of the format: length, header text, data in order; raises for an unknown dtype. |
| `ManagedWeights.DeserializeManagedWeights` | tensorrt_llm/builder.py:968-999 | The map that the header of the given bytes describes, or a raise: bytes that are no UTF-8, text that is no JSON object, entries without type, shape or offsets, and data that does not fill its shape. |
| `ManagedWeights.ReadEntries` | tensorrt_llm/builder.py:974-997 | Every header entry in turn, raising at the first that cannot be read. |
| `ManagedWeightsProofs.EntryOutcome` | tensorrt_llm/builder.py:975-997 | In any file, an entry in the form of the writer reads as the bytes between its offsets exactly if the reader knows its type and these bytes, perhaps cut short by the end of the file, fill its shape. |
| `ManagedWeightsLayout.FileLayout` | tensorrt_llm/builder.py:953-965 | Byte by byte: eight bytes of length, lowest first, the header text as ASCII, then the data of the weights. |
| `ManagedWeightsLayout.InfoPrinted` | tensorrt_llm/builder.py:946-953 | The text of a header entry. |
| `ManagedWeightsLayout.LengthByte` | tensorrt_llm/builder.py:960-961 | Byte `i` of the length is its `i`-th digit to the base 256. |
| `Json.DumpParses` | tensorrt_llm/builder.py:953-953 | Parsing printed JSON gives the value back, for all strings (escapes and surrogate pairs included), integers, float texts, literals, arrays and objects. |
| `Json.ValueRoundTrip` | tensorrt_llm/builder.py:953-973 | The same inside any surrounding text: the parser stops exactly at the end of the value. |
| `Json.DumpAscii` | tensorrt_llm/builder.py:954-961 | Printed JSON is ASCII, so the character count is the byte count written as header length. |
| `MethodSearch.HasMethod` | scripts/check_test_list.py:311-330 | Ends on every inheritance graph, cyclic ones included; from an empty visited set it answers true if and only if some class reachable through bases defines the method or a parameterised base of it. |
| `MethodSearch.SearchBases` | scripts/check_test_list.py:326-328 | The loop over bases with the shared visited set: what it has settled stays settled. |
| `MethodSearch.SettledInheritsNothing` | scripts/check_test_list.py:314-316 | A class visited without success, in a settled set, inherits nothing: answering false for it is right. |
| `MethodSearch.InheritsThroughBase` | scripts/check_test_list.py:326-328 | What a base inherits, the class inherits. |
| `MethodSearch.LeadingDigits` | scripts/check_test_list.py:306-306 | The longest run of digits at the front. |
| `MethodSearch.ExpansionMeans` | scripts/check_test_list.py:301-308 | A name counts as an expansion exactly if it is the method, an underscore, a number, and nothing or an underscore and more. |
| `ModuleTree.NamedModules` | tensorrt_llm/module.py:102-114 | Ends on every module graph, shared or cyclic. The start module comes first; every module that is reached past the memo is yielded once, under the first route to it in depth-first order, and yields follow that order; from an empty memo these are exactly the reachable modules. |
| `ModuleTree.WalkChildren` | tensorrt_llm/module.py:109-114 | The loop over children in their order with the memo shared between them: what an earlier child reaches is not yielded below a later one. |
| `ModuleTree.YieldedAreReachable` | tensorrt_llm/module.py:102-114 | A walk from an empty memo has visited exactly the reachable modules. |
| `ModuleRoutes.FirstChildNames` | tensorrt_llm/module.py:109-114 | A module that child `i` reaches past the memo, by any path, is yielded under a path that begins with child `i` or an earlier one. |
| `ModuleRoutes.LoopsCutOut` | tensorrt_llm/module.py:102-114 | Any path past the memo can be cut to one that visits no module twice. |
| `ModuleParameters.NamedParameters` | tensorrt_llm/module.py:150-172 | Every parameter held at or below the module exactly once, under the name of the first place that holds it: first module in depth-first order, first slot in it; names follow the order of places. |
| `ModuleParameters.TakeMembers` | tensorrt_llm/module.py:155-161 | The members of one module that were not taken before, named by its prefix, in slot order, each from the first slot that holds it. |
| `ParameterNames.NamesEqualIff` | tensorrt_llm/module.py:160-160 | In a graph without dots in names, two yielded parameters share a name if and only if there is no prefix and their paths differ only in empty names at the front. |
| `ParameterNames.NamesDistinct` | tensorrt_llm/module.py:160-160 | So all names differ under any prefix, and without one when no child of the start module has the empty name. |
| `ParameterNames.JoinEqualIff` | tensorrt_llm/module.py:112-112 | Two dot-free paths give the same dotted name exactly then. |
| `ParameterNames.PathsDistinct` | tensorrt_llm/module.py:155-161 | Different yielded parameters are reached by different paths. |
| `ParameterNames.EmptyNamesCollide` | tensorrt_llm/module.py:112-112 | A two-module graph with an empty child name on which every result has two parameters of one name. |
| `ParameterNames.DottedNamesCollide` | tensorrt_llm/module.py:112-112 | The same with a dot in a parameter name. |
| `ManagedBlock.IdempotentIff` | scripts/legacy_utils.py:325-341 | Replacing twice is replacing once if and only if the block is itself one managed region and ends in a newline or ends the text. |
| `ManagedBlock.ReplaceOutcome` | scripts/legacy_utils.py:325-341 | Raises exactly when no region is marked; otherwise the text before and after the region is kept and the block stands between. |
| `ManagedBlock.TrailingTextRepeats` | scripts/legacy_utils.py:326-329 | A block that includes both markers but has text after the END line is not stable: the text is added again. |
| `ManagedBlock.Configs.DoGenerate` | scripts/legacy_utils.py:378-402 | All or nothing; afterwards the freshness check finds no difference if and only if both blocks are stable for their files. |
| `ManagedBlock.Configs.DoCheck` | scripts/legacy_utils.py:405-432 | Reports fresh exactly when generation would change no file, and raises exactly when a marker is missing. |
| `ManagedBlock.FindIsFirst` | scripts/legacy_utils.py:330-331 | The search returns the first occurrence, or none when there is none. |
| `LintBaseline.WrittenComparesCleanIff` | scripts/legacy_utils.py:214-243 | A scan compares with the baseline written from it without regressions if and only if no counted file is called `_meta`, and always without improvements. |
| `LintBaseline.TotalsKeyCollides` | scripts/legacy_utils.py:151-168 | A violation in a file of that name is reported as new right after the baseline was written. |
| `LintBaseline.RatchetNeverLoosens` | scripts/legacy_utils.py:452-556 | Over any number of scans that pass and are written back, no file and rule is ever allowed more than at the start. |
| `LintBaseline.PrecommitMode` | scripts/legacy_utils.py:452-511 | The commit passes exactly when no file was rewritten and every count is within the baseline, and violations are listed exactly when one is not. |
| `LintBaseline.IdentifyNewViolations` | scripts/legacy_utils.py:246-282 | Exactly the violations of the regressed pairs, each with its line and message, sorted by file and line, those of one line in the order they were reported. |
| `LintBaseline.ListedExactly` | scripts/legacy_utils.py:246-282 | A regressed pair has every one of its violations listed, any other pair none. |
| `LintBaseline.ListedIffRegressed` | scripts/legacy_utils.py:246-282 | Something is listed if and only if some count is above the baseline. |
| `LintBaseline.SortListings` | scripts/legacy_utils.py:281-281 | A stable sort by file and line. |
| `LintBaseline.UpdateBaseline` | scripts/legacy_utils.py:519-556 | Stores for every file and rule how often it occurs, and nothing else, and the totals of coded violations and files unless a file has taken their key. |
| `LintRatchet.FindRegressions` | scripts/legacy_utils.py:223-230 | Exactly the pairs above their baseline, each with its excess, in ascending order; none if and only if every count is within. |
| `LintRatchet.FindImprovements` | scripts/legacy_utils.py:232-243 | Exactly the checked pairs below their baseline, each once, files ascending. |
| `LintRatchet.CountsAreOccurrences` | scripts/legacy_utils.py:135-148 | The count of a pair is the number of violations of that rule in that file, and pairs without one are not there. |
| `LintRatchet.TotalIsCoded` | scripts/legacy_utils.py:135-148 | All counts together are the violations that carry a code. |
| `LintRatchet.CountViolations` | scripts/legacy_utils.py:135-148 | The counting loop, skipping syntax errors. |
| `TokenLimits.NormalisingIsIdempotent` | tensorrt_llm/builder.py:841-910 | Normalising the limits again changes nothing and is not refused, for all sizes, with and without padding removal. |
| `TokenLimits.NormalisedBounds` | tensorrt_llm/builder.py:841-910 | With padding removal: the input fits the sequence, the token limit is at least the input length (or a cache block) and at most a full batch (or a larger block), and the optimum is at most the limit. |
| `TokenLimits.SpeculatedBounds` | tensorrt_llm/builder.py:1045-1091 | After the speculative step these bounds still hold and the limit covers all drafts of a full batch; only an Eagle model without its layer count raises. |
| `TokenLimits.UncheckedOptimum` | tensorrt_llm/_common.py:241-248 | Without padding removal a given optimum is at most the limit if and only if it was given at most a full batch. |
| `TokenLimits.CheckMaxNumTokens` | tensorrt_llm/_common.py:229-306 | The sequence of corrections is a clamp between the floor and a full batch, where the floor wins, and the optimum is cut to the result. |
| `TokenLimits.GivenLimitsKept` | tensorrt_llm/builder.py:841-910 | Limits that are given within their bounds are kept. |
| `TokenLimits.TokensFilledIn` | tensorrt_llm/_common.py:250-294 | A token limit that is not given or too large becomes a full batch or the larger floor, one that is too small the floor. |
| `TokenLimits.OptimumFilledIn` | tensorrt_llm/_common.py:262-266 | An optimum that is not given is the number of beams of a full batch, cut to the token limit before and after it was corrected. |
| `TokenLimits.SeqLenFilledIn` | tensorrt_llm/builder.py:846-884 | A given sequence length is kept; otherwise it is the input length of an encoder, or the position embeddings, by default 2048, scaled and rounded up where the rotary scaling asks for it. |
| `TokenLimits.SpeculationLengthens` | tensorrt_llm/builder.py:1045-1091 | The speculative step lengthens the sequence by the drafts and the Eagle layers and changes only the token limit besides. |
| `TokenLimits.BuildConfig.InitMaxSeqLen` | tensorrt_llm/builder.py:841-920 | Refuses exactly an encoder with different lengths; otherwise the limits are the normalised ones and the final assertion on the lengths holds. |
| `TokenLimits.BuildConfig.Speculate` | tensorrt_llm/builder.py:1045-1091 | The limits after the speculative step, or after a raise in the middle of it. |

## Left out

- `ModuleList.__repr__` and `parse_test_entry`: text formatting and splitting, which would only add easy members.
- CUDA driver, MPI, TensorRT, torch and git calls themselves: only the facts listed under the assumptions are used.
- Failures inside the mapping loop of `open_mnnvl_memory` and the exchange of file descriptors: an open either goes
  through or fails before the first slice is mapped.
- Zero-sized MNNVL allocations that succeed: `cuMemCreate` refuses size 0, so such an open is one that fails.
- Refname filtering, environment scrubbing and the stand-in repository of the fetch cache: hardening, not cache state.
- The removal of temporary files by a crashed LFS ingest: they are outside the pool that readers see.
- Graph-rewriting patterns other than attention-bias fusion, and custom patterns registered by callers; the plugin's
  choice of output types is a parameter.
- `MnnvlMoe` and the other wrappers over kernels.
- LoRA scaling, dtype casts, the gate/up swap and DoRA normalisation: rows are opaque values. The zero matrices for
  missing qkv modules are part of the checkpoint value, and a module that raises before its rank is recorded (a missing matrix,
  DoRA with MoE, no `lora_alpha`) is one without matrices. The buffers of `InputBuffers` are keyed by layer and module
  rather than by the text that joins them.
- ManagedWeights.DeserializeManagedWeights: does not accept lone surrogate escapes, which `json.loads` does, because
  characters are Unicode scalar values; and has no limit on the digits of an integer.
- ManagedWeightsProofs.RoundTrip: takes metadata as a JSON value without repeated keys, the form `json.dumps` prints it in.
- MnnvlCluster.SegmentsBackedByTheirRank: takes an open as one step of a rank; `MnnvlOrphans` treats a close inside it.
- Unicode digits, or a trailing newline, in the suffix of a parameterised test name: the model takes ASCII digits and the
  end of the name.
- `named_modules` with `remove_duplicate=False`, which does not end on a cyclic graph, and `named_modules_with_parent`.
- Rendering of the config templates: the generated texts are parameters of `DoGenerate` and `DoCheck`.
- ManagedBlock.Configs.DoCheck: does not model the printed diff, only whether there is one.
- LfsPool.PoolDir.UpdateLfsPool: takes the source files as a list with one entry per oid, because the source walks a
  directory tree whose file names are the oids.
- LintBaseline.PrecommitMode: takes the rewritten files as a parameter and leaves out the printed tip about improvements.
- LintBaseline.UpdateBaseline: gives the stored dictionary, not its JSON text.
- TokenLimits.BuildConfig.InitMaxSeqLen: computes the rotary scaling over reals, and leaves out the logged warnings.
