# RecServe, verified

RecServe is a recommendation server: a vector index with exact and approximate retrieval, live
features published by a nearline writer, a GPU batching scheduler, a sharded runner, and two web
policies that turn candidates into stored, repeatable recommendations. This project models its
stateful and arithmetic core in Dafny 4.11 and proves what that core is for.

`dafny verify dfyconfig.toml` checks everything. Scores are exact reals; where heaps and sorts of
the original leave ties open, results are stated up to ties.

## What is modelled

**Retrieval.** `Neighbors` holds the theory of "the k best": when two best-first lists must agree,
how they are cut, and how lists over a partition merge. `Catalogs` and `ExactScans` are the item
matrix in its plain, strided and blocked layouts and the chunked heap scan over them;
`Quantization` is the int8 encoding with its error bound. `HnswGraphs`, `VisitedSets`, `HnswSearch`,
`HnswBuild`, `HnswInserts`, `IndexFiles` and `HnswIndexes` are the HNSW index: flat link arrays,
epoch stamps, greedy descent, beam search, neighbour selection, insertion, and the index file. The
search and build take scores as a function of item ids, which is what `ExactScans.DotItem` computes
for one query and kernel; `Recalls` runs the index and the exact scan on one catalogue and query and
measures one against the other.

**Features.** `FlatUserMaps` is the open-addressing user table. `FeatureTables` is the table of a
snapshot and what a history of deltas folds to. `FeatureSnapshots` is the hazard-pointer publication
protocol as a transition system, one atomic access per step, with any number of slots and readers, an
unbounded run, and a writer that scans the slots one by one; it also has the writer's operations as a
class, whose publishes meet whatever the readers leave in the slots at every scan. `Nearline` is the
pipeline that feeds it. `Rankings` ranks candidates with features.

**Serving.** `GpuRows` is the row layout of a scored batch and `GpuBatchers` the batching scheduler as a
protocol: submissions, stop, and the worker's critical sections interleave, and every clock reading is
arbitrary. `GpuServers` is the scheduler as an object over a catalogue, an abstract scorer and the exact
CPU scan; its methods take the protocol's steps and keep all its invariants. `GpuLaws` says what
those steps come to in terms of the queue, the batch and the answers alone. `ShardPools` is the generation barrier of
the sharded runner, its slicing and its merge, and `ShardedSearches` one query over its shards, whatever
part of its slice each shard's beam looks at.

**Policies.** `PilotModels`, `PilotPolicies`, `PilotStores`, `PilotServices` and `PilotRuns` are the
single-host pilot: ranking, replenishment and fill, the transactional store with its journal, any number
of clients interleaving over it, and the recommendation call with other calls running between its
transactions; `PilotLaws` says what its transactions and answers come to in terms of journal rows, replies
and scores alone. `Selections`, `VectorCaches`, `AppPolicies`, `AppLaws`, `AppRuns` and `AppServices` are the web
application: selection, the vector cache, the account transactions and what each does to an account, their
interleavings, and the policy object whose recommendation call is made of them.

`Arithmetic` and `Basics` hold shared helpers.

Where the original updates an object in place, the model has a class whose methods are proved
against functions of the old state; protocols with several threads or processes are transition
systems whose runs are sequences of states, and their theorems speak about every run.

## Findings

- `Index::build` cuts the layer-0 capacity at 128 links while `Index::load` insists on twice m, so an
  index built with m above 64 saves a file that never loads. `HnswIndexes.BuiltLoadable` is the exact
  condition, `HnswIndexes.WideIndexRejected` the smallest example.
- The flat user map treats the id 0xFFFFFFFF as an empty slot. `FlatUserMaps.FlatUserMap.Get` keeps the
  table correct for every other id after any mix of requests, and its counter exact exactly for the other
  ids; requests for that id alone make the table double without end (`FlatUserMaps.ReservedOutgrows`).
- The sharded runner computes a negative slice size when the last shard would start past the end of
  the catalogue. `ShardPools.SlicesFit` is the exact condition, `ShardPools.SliceCanBeNegative` an
  example with five items over four shards.
- The web application checks the expiry of a request key in its first transaction only; the second
  answers a stored response whatever its age. How long an attempt may take between its transactions is
  the exact condition: `AppRuns.ExpiryNeedsAShortCall` shows that no expired response is answered
  there if and only if they are less than a day apart, over all runs whose clock does not go backwards,
  and `AppRuns.SlowCallExpired` is the run of a call that takes a day. In practice the deadlines around a
  call keep it far shorter.
- `Index::load` accepts an m of up to 1024, while a traversal copies a node's links into a buffer of 128.
  `HnswIndexes.LoadableSearchable` is the exact condition on an accepted index (no degree above 128, which
  m <= 64 implies), `HnswIndexes.WideFileTooWide` an accepted index that does not meet it.

## Model

| member | source | states |
|---|---|---|
| Neighbors.TopListUnique | include/recserve/index.hpp:183-211 | two best-first lists of the k best of the same ids carry the same scores at every position, whatever breaks ties |
| Neighbors.TopListPrefix | include/recserve/index.hpp:177-180 | cutting a best-first list at a smaller k gives the best-first list for that k |
| Neighbors.MergeTopLists | apps/shard.cpp:218-226 | the k best of the ids that parts kept among their own best wide >= k are the k best of all ids |
| Catalogs.DotLayouts | include/recserve/scorer.hpp:100-103 | dot products over two layouts agree as soon as the cells they visit agree |
| Catalogs.Catalog.RebuildSoa | include/recserve/scorer.hpp:49-56 | the strided matrix holds every cell of the row-major one, and nothing else changes |
| Catalogs.Catalog.RebuildBlocked | include/recserve/scorer.hpp:58-69 | the blocked matrix holds every cell in its block and lane, padded with zeros to whole blocks |
| Catalogs.Catalog.QuantizeI8 | include/recserve/scorer.hpp:71-87 | every row is encoded with its own scale, and nothing else changes |
| ExactScans.LaneScore | include/recserve/simd.hpp:217-240 | lane j of a block's sweep is the plain dot product of the item stored there |
| ExactScans.StridedScore | include/recserve/scorer.hpp:100-103 | the strided sum is the plain dot product of the item |
| ExactScans.DotItem | include/recserve/scorer.hpp:89-112 | the single-item score is the score function of the query and kernel |
| ExactScans.ScoreRange | include/recserve/scorer.hpp:114-148 | every score of a scanned range equals the single-item score, under every kernel |
| ExactScans.ScoreBlock | include/recserve/simd.hpp:217-240 | a block sweep accumulates each lane's own dot product |
| ExactScans.Brute | include/recserve/index.hpp:183-211 | the chunked heap scan returns the exact min(k, n) best items, distinct, descending, none omitted that scores higher |
| ExactScans.Offer | include/recserve/index.hpp:196-205 | offering the next item keeps the heap the best k of the items offered, with a worst one in front |
| ExactScans.Int8ItemError | include/recserve/scorer.hpp:95-99 | the int8 score of a catalogue item is within dim * max abs(x) * max abs(y) / 127 of its true dot product |
| Quantization.QuantizeVector | include/recserve/simd.hpp:128-139 | the encoding loop computes scale and codes, and the clamp never changes a code |
| Quantization.EncodeOne | include/recserve/simd.hpp:133-138 | a code lies in -127..127 before clamping and decodes to within half a step |
| Quantization.QuantizedScoreError | include/recserve/simd.hpp:122-146 | the rescaled integer dot product is within the error bound of the true one, zero vectors included |
| Quantization.IntDotFits | include/recserve/simd.hpp:142-146 | every partial int8 sum of up to m terms is at most m * 127 * 127, so 4096 dimensions fit 32 bits |
| Quantization.DotI8Scalar | include/recserve/simd.hpp:142-146 | the scalar loop computes the integer dot product |
| Quantization.DotI8Lanes | include/recserve/simd.hpp:148-196 | accumulating in lanes and summing them with a scalar tail gives the same integer |
| VisitedSets.VisitedSet.NextEpoch | include/recserve/index.hpp:59-64 | the set is empty afterwards in every case, the wrap of the 32-bit counter included |
| VisitedSets.VisitedSet.TestAndSet | include/recserve/index.hpp:65-69 | reports membership and adds exactly one node |
| VisitedSets.VisitedSet.Resize | include/recserve/index.hpp:53-58 | grows to n cells and leaves a large enough set alone |
| HnswGraphs.ClosedReach | include/recserve/index.hpp:421-451 | a set closed under in-limit links contains everything reachable from its members |
| HnswGraphs.WriteLinks | include/recserve/index.hpp:526-532 | replaces one list and its degree and touches no other list of any node or layer |
| HnswGraphs.AppendLink | include/recserve/index.hpp:539-541 | appends one link and touches no other list |
| HnswSearch.CopyLinks | include/recserve/index.hpp:380-389 | the stack buffer of 128 receives exactly the links, in bounds |
| HnswSearch.GreedyDescend | include/recserve/index.hpp:372-400 | the walk is a steepest ascent along links, each node the best neighbour of the one before, and ends where no neighbour scores better on that layer |
| HnswSearch.Descend | include/recserve/index.hpp:170-174 | one steepest ascent on each layer from the top down to the one above the last, none skipped, never below the start, inside every region closed on those layers |
| HnswSearch.SearchLayer | include/recserve/index.hpp:402-460 | terminates; results are distinct, scored, reachable, the best of all visited; all their in-limit neighbours were visited; visiting no more than ef nodes means the visited set is closed |
| HnswSearch.OfferNode | include/recserve/index.hpp:443-449 | offering a marked node keeps the beam the best ef of the visited nodes and loses no unexpanded one |
| HnswSearch.NeighborOfResult | include/recserve/index.hpp:422-451 | an in-limit neighbour of a result is a result or scores no higher than any result |
| HnswSearch.WideBeamSeesAll | include/recserve/index.hpp:421-451 | a beam as wide as the reachable component visits exactly that component |
| HnswSearch.Retrieve | include/recserve/index.hpp:164-181 | returns the k best of what the beam saw from where the descent lands; whatever its width, every neighbour of a kept node was seen, and a beam as wide as the component saw all of it |
| Recalls.Probe | include/recserve/engine.hpp:427-460 | for every beam the list is the best k of the nodes seen from the landing node and the number returned is the share of the exact ids in it; where everything is found, float kernels retrieve the scores of the exact scan position by position, without ties the same list with recall one, and the int8 kernel scores within its error bound of them |
| Recalls.Retrieved | include/recserve/engine.hpp:447-452 | on the index path, for every beam, the list is the best k of the nodes a beam of max(ef, k) saw from the landing node; without an index it is the exact best k |
| Recalls.RecallAtK | include/recserve/quality.hpp:52-61 | the counting loop computes the share of gold ids among the first k predictions, which is one exactly when all of them are there |
| HnswBuild.SelectHeuristic | include/recserve/index.hpp:462-482 | a best-first, pairwise diverse choice of at most m candidates that omits only redundant ones or ones no better than a full choice |
| HnswBuild.SelectedBest | include/recserve/index.hpp:470-481 | a selection starts with a best candidate, so it is empty only without candidates |
| HnswBuild.BackLinkedList | include/recserve/index.hpp:534-556 | a list that takes a link stays free of repeats, within capacity and nonempty, and gains at most the new node |
| HnswBuild.LinkBack | include/recserve/index.hpp:537-555 | appends when there is room and otherwise re-selects the whole list and the new node; no other list changes |
| HnswBuild.Connect | include/recserve/index.hpp:522-557 | the new node gets the picked ids that fit, each picked node takes a back link, and every other list is unchanged |
| HnswBuild.Pending | include/recserve/index.hpp:534-536 | a picked node always exists on the layer when its turn comes, so the level guard never fires |
| HnswInserts.ConnectKeeps | include/recserve/index.hpp:508-514 | linking the next layer down keeps degrees in capacity, links distinct, in range, on the layer and not to self, and every node with company on a layer linked |
| HnswInserts.Insert | include/recserve/index.hpp:486-520 | keeps the whole graph invariant; the node gets its level, cut at 16; the descent through the layers above it ends where the first search starts, each lower search starts at the best choice of the layer above, and on each shared layer its list is a diverse choice among the best nodes a search of the graph before its links found, each chosen node takes the back link or re-selects with the new node among its candidates, and nothing else changed; the entry node moves exactly when the new level is higher |
| HnswInserts.MoveEntryBuilt | include/recserve/index.hpp:516-519 | after the entry point moves, the entry node again has the maximum level |
| HnswInserts.BuiltSearchable | include/recserve/index.hpp:374-460 | on a built graph every traversal stays in bounds on every layer |
| HnswInserts.ClosedBefore | include/recserve/index.hpp:503-505 | above its own layer the node being inserted cannot be reached, so the descent stays among inserted nodes |
| HnswIndexes.Index.Build | include/recserve/index.hpp:97-160 | the graphs of a sequential build, one after each node, start with node 0 alone, and each comes from the one before by an insertion with the same similarity, the node's own level and a beam of max(efConstruction, m); every node has the level drawn for it, at most 16, and the last graph is well-formed over all n nodes |
| HnswIndexes.Index.Retrieve | include/recserve/index.hpp:164-181 | returns the k best of what the beam saw from where the descent lands, whatever its width; on a connected base layer with max(ef, k) >= n that is the exact best-first top k of all n items |
| HnswIndexes.Index.Save | include/recserve/index.hpp:234-257 | writes header, degrees, links, levels and upper lists in order |
| HnswIndexes.Index.Load | include/recserve/index.hpp:259-315 | accepts a file exactly when it is the file of some loadable graph, restores that graph, and is then safe to search exactly when no degree exceeds the buffer, as with m <= 64 |
| HnswIndexes.SaveAndLoad | include/recserve/index.hpp:234-315 | loading a saved index succeeds exactly when it is loadable and then restores every stored field |
| HnswIndexes.BuiltLoadable | include/recserve/index.hpp:101-103 | a built index is loadable exactly when m <= 64 and its sizes are within the limits |
| HnswIndexes.WideIndexRejected | include/recserve/index.hpp:267-269 | one item with m = 65 saves a file that does not load |
| HnswIndexes.LoadableSearchable | include/recserve/index.hpp:289-311 | whatever an accepted file holds, traversals stay in bounds on every layer if and only if no degree exceeds 128; m <= 64 suffices |
| HnswIndexes.WideFileTooWide | include/recserve/index.hpp:267-269 | one item with m = 65 and 129 links is accepted and does not fit the buffer |
| IndexFiles.EncodeInjective | include/recserve/index.hpp:234-257 | two graphs with the same file are the same graph |
| IndexFiles.EncodeMeans | include/recserve/index.hpp:234-247 | a file is the eight header words in order, magic first, then the layer-0 degrees, links and the levels, each at its offset |
| IndexFiles.EncodedUpper | include/recserve/index.hpp:248-254 | the upper degrees and then the upper links of each node stand behind those of the nodes before it |
| IndexFiles.Decode | include/recserve/index.hpp:259-315 | the validating reader is sound and complete for loadable graphs |
| FeatureTables.FeatureTable.Apply | include/recserve/feature_snapshot.hpp:115-135 | updating the rows in place is the delta function on the table |
| FeatureTables.FoldUsers | include/recserve/feature_snapshot.hpp:116-126 | after any history a user row holds its last eight items in arrival order |
| FeatureTables.FoldUserRest | include/recserve/feature_snapshot.hpp:116-126 | after any history a user row was last seen at the last delta that named it, is recent once any did, and keeps its click rate |
| FeatureTables.FoldItems | include/recserve/feature_snapshot.hpp:127-134 | after any history an item row counts exactly the deltas that named it and the watermark is the newest event time |
| FeatureSnapshots.NoWriteUnderGuard | include/recserve/feature_snapshot.hpp:153-160 | in every interleaving no step writes a table a guard has validated, also when live flips away and back between a hazard store and its recheck |
| FeatureSnapshots.GuardIsStable | include/recserve/feature_snapshot.hpp:150-172 | the table under a guard does not change until the guard lets go |
| FeatureSnapshots.GuardReadsAPrefix | include/recserve/feature_snapshot.hpp:185-208 | a guard reads the fold of the deltas staged before one publish boundary, the one its generation numbers |
| FeatureSnapshots.LaterGuardsSeeMore | include/recserve/feature_snapshot.hpp:174-208 | later guards never see a shorter prefix or an older generation |
| FeatureSnapshots.TablesAgree | include/recserve/feature_snapshot.hpp:185-211 | between publishes the live generation is one more than the number of publishes, and once anything was published the two tables are identical |
| FeatureSnapshots.BusySlotHasAMover | include/recserve/feature_snapshot.hpp:67-79 | a slot that holds up the grace period belongs to a reader that can still move |
| FeatureSnapshots.HoldupsRunOut | include/recserve/feature_snapshot.hpp:67-79 | in every run, while the writer waits, the claims of readers on the retired table never grow, every step of a reader with one lowers them, there are at most five per reader, and without any no slot names that table |
| FeatureSnapshots.ClaimantCanMove | include/recserve/feature_snapshot.hpp:153-160 | while a claim is left, some reader that has one can move |
| FeatureSnapshots.QuietScanEnds | include/recserve/feature_snapshot.hpp:67-79 | once there is no claim the scan never restarts and takes at most one step per slot before it is over |
| FeatureSnapshots.FeatureSnapshotStore.Publish | include/recserve/feature_snapshot.hpp:184-208 | readers may hold the retiring table and come and go during the scans; once they have let go of it, one publish makes all staged deltas visible in both tables under the next generation |
| Nearline.NearlinePipeline.DoPublish | include/recserve/nearline.hpp:165-179 | everything consumed becomes published, with its age and the watermark charged at that instant |
| Nearline.AgesOf | include/recserve/nearline.hpp:168-175 | each staged event is charged its own age, in order, unless its time lies in the future |
| Nearline.LatestIsMax | include/recserve/nearline.hpp:173 | the watermark is the largest of its old value and the published event times |
| Nearline.NearlinePipeline.PublishIfDue | include/recserve/nearline.hpp:138-145 | publishes exactly when something is pending and the interval has elapsed, keeping consumed = published + pending |
| Nearline.NearlinePipeline.Flush | include/recserve/nearline.hpp:157-160 | afterwards nothing is pending and everything consumed is published |
| Nearline.NearlinePipeline.PollAndPublish | include/recserve/nearline.hpp:147-155 | stages the whole batch in order and publishes everything consumed, or nothing, as the interval decides |
| FlatUserMaps.FlatUserMap.Get | include/recserve/features.hpp:46-63 | finds or inserts a key of the finite map the table stands for; the sentinel is counted but not stored, so an exact counter stays exact exactly for the other keys, and the table stays correct in either case |
| FlatUserMaps.FlatUserMap.ApplyEvent | include/recserve/features.hpp:133-151 | an event is appended to its user's row, created if needed, and changes no other row; an event of the sentinel is lost |
| FlatUserMaps.FlatUserMap.GetReserved | include/recserve/features.hpp:46-63 | any number of requests for the sentinel stores nothing and moves capacity and counter as computed |
| FlatUserMaps.ReservedDoubles | include/recserve/features.hpp:46-63 | within cap such requests the table doubles, whatever it holds |
| FlatUserMaps.ReservedOutgrows | include/recserve/features.hpp:46-63 | such requests alone make the capacity exceed every bound |
| FlatUserMaps.FlatUserMap.Find | include/recserve/features.hpp:65-75 | looks up the finite map |
| FlatUserMaps.FlatUserMap.Grow | include/recserve/features.hpp:78-95 | changes no lookup and leaves room below the load limit |
| FlatUserMaps.Probe | include/recserve/features.hpp:50-62 | the probe loop always ends at the key or at a gap, so the fallback after it is never reached |
| FlatUserMaps.MaskIsRemainder | include/recserve/features.hpp:49-50 | masking by a power of two less one is the remainder |
| FlatUserMaps.InsertAtGap | include/recserve/features.hpp:52-57 | filling the first gap of a key's chain keeps every key reachable along its own chain |
| Rankings.RankInto | include/recserve/engine.hpp:234-285 | returns exactly the k candidates with the best rank scores, best first; each entry's score is its retrieval score, the user's click rate, its own click rate and its place among the last items, each with its own weight |
| Rankings.OneInputAlone | include/recserve/scorer.hpp:184-187 | one more unit of one input moves an item's score by that input's own weight |
| GpuBatchers.EveryPromiseSetOnce | include/recserve/gpu_batcher.hpp:38-153 | in every run whose worker has gone, the promise of each submission was set exactly once |
| GpuBatchers.NoPromiseSetTwice | include/recserve/gpu_batcher.hpp:38-47 | at no instant of any run is a promise set twice, or one that was never submitted |
| GpuBatchers.OrderAndBounds | include/recserve/gpu_batcher.hpp:80-106 | jobs leave the queue in submission order, the queue stays within capacity and the batch within its maximum |
| GpuLaws.CollectMeans | include/recserve/gpu_batcher.hpp:88-106 | a critical section pulls from the front, answers the expired jobs and batches the others in order; it goes on collecting until the earliest deadline exactly while it is early, not full and not stopping |
| GpuLaws.WidthMeans | include/recserve/gpu_batcher.hpp:107-112 | the width of a batch is the largest number of candidates one of its jobs wants, within the catalogue |
| GpuBatchers.GpuStaysOff | include/recserve/gpu_batcher.hpp:117-132 | once the GPU is off, no later batch of the run is delivered from it |
| GpuBatchers.ServedIsExact | include/recserve/gpu_batcher.hpp:134-152 | in every run a served job was answered from the exact top list of its own query at its own size, and with the best of it, whatever shared its batch and whatever the GPU's health |
| GpuBatchers.BatchingIsTransparent | include/recserve/gpu_batcher.hpp:107-152 | the same request served in any two runs, batched with anyone, from the GPU or by the CPU scan, gets candidates with the same scores; without ties the same candidates, and equal ranked scores under equal features |
| GpuBatchers.StopMakesProgress | include/recserve/gpu_batcher.hpp:80-106 | after a stop request every enabled worker step lowers the distance to its end, nothing raises it, and until then some step is enabled |
| GpuBatchers.StopTerminates | include/recserve/gpu_batcher.hpp:48-52 | in every run a worker that takes that many steps after a stop request has gone |
| GpuServers.GpuBatcher.Submit | include/recserve/gpu_batcher.hpp:38-47 | a promise is set at once exactly when the request is invalid, as a bad request, or shed, otherwise the worker owes it; the protocol's invariants are kept |
| GpuServers.GpuBatcher.CollectBatch | include/recserve/gpu_batcher.hpp:94-105 | the loops of one critical section pull exactly what the step function says, expired jobs answered on the way |
| GpuServers.GpuBatcher.Awake | include/recserve/gpu_batcher.hpp:86-106 | a wake-up is the protocol's step, keeps its invariants, and after a stop request brings the worker closer to its end |
| GpuServers.GpuBatcher.ScoreBatch | include/recserve/gpu_batcher.hpp:107-132 | calls the scorer only while it never failed, and leaves either exact rows for every job of the batch or the exact CPU path |
| GpuServers.GpuBatcher.Candidates | include/recserve/gpu_batcher.hpp:138-145 | cut from its row or scanned by the CPU, a job's candidates are the exact top list of its query at its size |
| GpuServers.GpuBatcher.Serve | include/recserve/gpu_batcher.hpp:146-147 | the items are the best of those candidates, each with its score from the features read at that moment, every input under its own weight |
| GpuServers.GpuBatcher.DeliverJob | include/recserve/gpu_batcher.hpp:134-152 | the next open job gets its one result: late, unavailable after a fault, refused with the engine's status, or served, in exactly the original's order, and with items only when served |
| GpuServers.GpuBatcher.DeliverBatch | include/recserve/gpu_batcher.hpp:134-152 | answers every job of the batch once, in order, and keeps the protocol's invariants |
| GpuServers.GpuBatcher.Stop | include/recserve/gpu_batcher.hpp:48-52 | terminates, and then the promise of every submission has been set exactly once |
| GpuRows.CutRow | include/recserve/gpu_batcher.hpp:138-145 | whatever else is in the batch, a request's candidates are the exact top list of its own query at its own size |
| GpuRows.RowsFit | include/recserve/gpu_batcher.hpp:17-18 | the output buffer has room for every row of every legal batch |
| ShardPools.ReturnMeansAllRan | apps/shard.cpp:71-83 | run returns only when every worker has executed the job of every run so far exactly once, in order |
| ShardPools.NoJobTwice | apps/shard.cpp:88-105 | at every instant each of the n workers has executed each job at most once and none that was not posted |
| ShardPools.RunCanReturn | apps/shard.cpp:71-105 | a waiting run has an enabled worker step unless everyone has reported, and can return after at most three steps of each worker |
| ShardPools.WaitingStep | apps/shard.cpp:88-105 | while run waits, every step that changes anything brings it exactly one step closer to returning |
| ShardPools.SlicesFit | apps/shard.cpp:167-171 | all slice sizes are nonnegative exactly when the last slice starts inside the catalogue |
| ShardPools.SliceCanBeNegative | apps/shard.cpp:167-171 | five items over four shards give the last slice a size of minus one |
| ShardPools.SlicesPartition | apps/shard.cpp:167-182 | every item is in exactly one slice |
| ShardPools.Merge | apps/shard.cpp:218-226 | the merge is the sorted concatenation cut at k |
| ShardPools.MergeIsExact | apps/shard.cpp:218-226 | merging the exact lists of disjoint parts gives the exact list of their union |
| ShardPools.ShardedIsExact | apps/shard.cpp:198-226 | when every shard returns its exact best rk >= k, the merged list is the exact global top k |
| ShardedSearches.Search | apps/shard.cpp:167-245 | for every beam and every catalogue, the merged list is the best k of everything the shards looked at in their slices; when every beam found all of its slice it has the scores of one exact scan, position by position |
| ShardedSearches.SearchShard | apps/shard.cpp:198-210 | a shard's list is the best max(k, retrieve_k) of what its index looked at, by the scores of the whole catalogue |
| ShardedSearches.SliceScore | apps/shard.cpp:174-182 | a row scores the same in its shard and in the whole catalogue |
| PilotModels.RankIsRanking | recserve_pilot/model.py:53-60 | a ranking lists exactly the eligible candidates, each once with its adjusted score, best first, ties in item order |
| PilotModels.BonusRange | recserve_pilot/model.py:58-59 | with saves at most impressions the bonus is at least zero and below a twentieth |
| PilotPolicies.Respond | recserve_pilot/service.py:31-65 | the loops of one attempt compute the answer function of the snapshot and the replies |
| PilotPolicies.Replenish | recserve_pilot/service.py:36-49 | the replenishment loop terminates with the candidates of all its rounds, or none after a failure |
| PilotPolicies.AnswerItems | recserve_pilot/service.py:50-65 | every response lists distinct eligible items, as many as exist up to k, and is exhausted exactly when fewer than k items of the catalogue are eligible |
| PilotPolicies.FillBelowRetrieved | recserve_pilot/service.py:50-58 | no popularity fill item ever stands before an eligible retrieved item |
| PilotLaws.RetrievedMeans | recserve_pilot/service.py:35-49 | the candidates are all replies to requests of 64 items, doubling to at most 512, until enough of them may be shown or no more can be asked for; nothing after a failure |
| PilotLaws.FilledMeans | recserve_pilot/service.py:50-56 | the p-th popular item, if not retrieved, scores one below the lowest retrieved score less p over the catalogue size, and retrieved items keep theirs |
| PilotLaws.AnswerMeans | recserve_pilot/service.py:50-65 | every item of an answer has its retrieval or fill score and a twentieth of its saves over its displays and two |
| PilotLaws.AnswerBest | recserve_pilot/service.py:50-65 | no eligible item that could be shown and is not scores higher than one that is |
| PilotServices.Store.Publish | recserve_pilot/store.py:113-126 | stores a response with its exposures, returns a stored one, or refuses other inputs and stale generations, and keeps the journal and its projection sound |
| PilotServices.Store.Apply | recserve_pilot/store.py:128-182 | journals an event and updates the projection, with every duplicate, conflict and refusal of the original; a new outcome blocks its item for its user, and a new event fences off every response computed before it |
| PilotLaws.ApplyMeans | recserve_pilot/store.py:128-162 | which events are malformed, duplicates, conflicts or new: complete, about a shown item of the user's own response, in turn and at a credible time |
| PilotServices.Store.SetUnavailable | recserve_pilot/store.py:184-193 | sets the availability of one item and nothing else, and no response computed from an earlier snapshot can be stored any more |
| PilotServices.Store.TakeSnapshot | recserve_pilot/store.py:102-111 | reads generation, exclusions, counters and last commit together |
| PilotLaws.SnapshotMeans | recserve_pilot/store.py:102-111 | a snapshot excludes exactly what is blocked for the user and carries the newest commit time of the journal |
| PilotServices.Store.Existing | recserve_pilot/store.py:89-100 | conflicts exactly when the id is stored under other inputs, answers exactly the response stored for the same ones, and nothing exactly when the id is free |
| PilotServices.Pilot.Recommend | recserve_pilot/service.py:19-70 | with arbitrary traffic between its transactions, a success is what is stored under the request and, unless someone else stored it, the answer for the snapshot as it is now; Changed means the generation moved under each of three attempts; undisturbed, the first attempt is published |
| PilotRuns.SameGenerationSameSnapshot | recserve_pilot/store.py:102-111 | anywhere in any run, equal generation means an equal snapshot for every user |
| PilotRuns.StoredAnswerIsCurrent | recserve_pilot/store.py:113-126 | a newly stored response is the answer for the snapshot of the instant it commits |
| PilotRuns.StoredItemsAreEligible | recserve_pilot/service.py:30-70 | every newly stored response holds min(k, eligible) items, none blocked for its user or unavailable at its commit instant, no fill item above an eligible retrieved one, and an exact exhausted flag |
| PilotRuns.OneResponsePerRequest | recserve_pilot/service.py:27-29 | any two calls that finish successfully with one request id, at any two instants, return the same response |
| PilotRuns.RepeatReturnsStored | recserve_pilot/store.py:89-96 | once stored, a response is what every later call with the same inputs gets, and other inputs conflict |
| PilotRuns.ProjectionIsReplay | recserve_pilot/store.py:163-176 | in every reachable store the shown, saved and blocked projection is the replay of the journal, which `PilotRuns.ReplayCounts` and `PilotLaws.BlockedByOutcome` state in terms of its rows; each action is there once, and saves never exceed impressions |
| PilotRuns.ReplayCounts | recserve_pilot/store.py:169-175 | a counter is the number of distinct responses in which the action was recorded |
| PilotLaws.BlockedByOutcome | recserve_pilot/store.py:169-176 | in every reachable store an item is blocked for a user exactly when the journal holds a save, dismissal or watch of it |
| PilotRuns.DuplicateChangesNothing | recserve_pilot/store.py:143-147 | sending an accepted event again at any later time returns its number and changes nothing |
| Selections.SelectItems | recserve_app/selection.py:4-37 | the loops compute the selection function of the replies; the items are first the eligible movies of the deciding reply in row order, then popular ones in popularity order, up to k |
| Selections.SelectPromises | recserve_app/selection.py:4-37 | every selection lists distinct eligible movies, as many as exist up to k, and is exhausted exactly when fewer than k are eligible |
| Selections.SelectSupplies | recserve_app/selection.py:11-37 | the first of the requests for 128, 256 and 512 rows with k eligible movies, or else the last, decides: its eligible movies come first, each once, in row order and marked retrieved; after a failure there are none; every other item is a popular movie, in popularity order |
| VectorCaches.VectorCache.Vector | recserve_app/model.py:71-84 | on a faithful cache the result equals folding in again, hit or miss, and the cache stays faithful and moves the key to the recent end |
| VectorCaches.RecencyOrder | recserve_app/model.py:71-84 | a used key moves to the recent end, a new one joins there, and only a full cache drops its oldest entry |
| VectorCaches.PutKeeps | recserve_app/model.py:79-83 | an insertion never exceeds 512 entries and drops at most the oldest one |
| VectorCaches.GetKeeps | recserve_app/model.py:73-76 | a lookup returns what the key holds and keeps every entry |
| AppPolicies.ChangedExactly | recserve_app/policy.py:33-42 | each change decides its own item and no other preference moves |
| AppLaws.ChangeMeans | recserve_app/policy.py:23-36 | which changes are refused and how, and that only an accepted one changes the account |
| AppLaws.NewChangeMeans | recserve_app/policy.py:33-51 | a new change decides its own movies and leaves at most 500 preferences under the next revision, or changes nothing |
| AppRuns.ChangeRepeats | recserve_app/policy.py:27-32 | in every run an accepted change is on record, and at any later instant before maintenance outlives the record the same change returns its result and changes nothing, while its key with other changes conflicts |
| AppServices.Service.ChangePreferences | recserve_app/policy.py:23-51 | applies the changes or, on any refusal, leaves nothing behind, touches no other account, refuses an unknown user, and keeps the cache faithful to every account |
| AppServices.Service.Event | recserve_app/policy.py:90-119 | records an event once, marks the item and moves the revision for everything but a display, refuses an unknown user, and keeps every action recorded at most once |
| AppLaws.EventMeans | recserve_app/policy.py:90-119 | which events are refused, duplicates, conflicts or new; a new one sets only its own mark on its movie, and a display sets none |
| AppServices.Service.Recommend | recserve_app/policy.py:53-88 | with arbitrary changes, feedback, other recommendations, status changes and maintenance between its steps, a success is what is stored under the request and, unless it was stored before or offered by another call, the selection for the account as it is now; giving up means the account moved under each of three attempts |
| AppServices.Service.Store | recserve_app/policy.py:75-87 | the second transaction stores only at an unmoved revision, refuses an unknown user, and changes nothing else |
| AppRuns.EventRepeats | recserve_app/policy.py:94-97 | in every run an accepted event is on record, and at any later instant before maintenance outlives the record the same event is a duplicate that changes nothing, while its id with another payload conflicts |
| AppRuns.EveryActionOnce | recserve_app/policy.py:106-111 | in every run from accounts without doubles, no action on an item of a response is ever recorded under two event ids |
| AppRuns.RevisionDecides | recserve_app/policy.py:46-47 | in every interleaving a user's preferences, item states and exclusions are a function of the revision |
| AppRuns.CacheHitIsFoldIn | recserve_app/model.py:71-84 | in every interleaving a cache hit equals folding in the preferences the caller read |
| AppRuns.StoredIsCurrent | recserve_app/policy.py:53-88 | a newly stored response is the selection for the account as it is at that instant |
| AppRuns.StoredExcludesBlocked | recserve_app/policy.py:65-68 | a newly stored response holds only available movies and nothing preferred, saved, watched or dismissed by then |
| AppRuns.StoredStays | recserve_app/policy.py:59-64 | across any run a stored response stays as it is until a maintenance finds it older than the retention |
| AppRuns.OneResponsePerRequest | recserve_app/policy.py:59-87 | any two calls of one user that succeed with one request id, at any two instants of any run, return the same response unless maintenance dropped it in between |
| AppRuns.AnswerWithinGap | recserve_app/policy.py:77-82 | a response the second transaction answers from the store is no older than the time since the attempt's first transaction |
| AppRuns.ExpiryNeedsAShortCall | recserve_app/policy.py:61-82 | no expired response is ever answered by the second transaction if and only if attempts take less than a day |
| AppRuns.SlowCallExpired | recserve_app/policy.py:77-82 | a run in which a call of one day answers a response that has just expired |

## Left out

- Floating point: rounding, fused operations and SIMD intrinsics are replaced by exact arithmetic; the lane-wise integer sums are modelled.
- CUDA kernels: the scorer is abstract and promises exact, sorted rows or throws; the CUDA kernel constant, which the CPU scorer rejects, is not modelled.
- Parallel index build: the graph then depends on scheduling by design; node locks and the global lock are left out with it.
- Random levels: a level is an arbitrary number, cut at 16 as in the original; the seed and the distribution are not modelled.
- Integer widths: epoch stamps wrap at 2^32 and the publish interval is an unsigned 64-bit difference; other counters, link counts and table capacities are unbounded.
- HnswIndexes.Index.Load: says nothing of the object after a rejected file, which the original leaves half overwritten; the file is a sequence of 32-bit words, so a length that is no multiple of four is not modelled, nor are I/O failures.
- FlatUserMaps.FlatUserMap.Get: hands out the slot instead of a reference.
- FlatUserMaps.FlatUserMap.ApplyEvent: the user's side of the event; the item's side is `FeatureTables.FeatureTable.Apply`.
- FeatureSnapshots: one writer, and sequentially consistent atomics, which the hazard stores and loads use.
- FeatureSnapshots.FeatureSnapshotStore.Publish: its readers let go of the retiring table at some time, since under a reader that never leaves the grace period does not end.
- Nearline: the event source, its lag and the publish timing histogram.
- Rankings: the mutex-guarded feature store, timing fields and the failure injection of the engine.
- GpuBatchers: warm-up, statistics and histograms; a worker that is never scheduled does not stop.
- GpuServers.GpuBatcher.Stop: the worker's steps run in the calling thread instead of being joined; other interleavings are covered by the protocol.
- ShardPools: the stop call is made by the thread that runs jobs, as in the program; the measurement code of the program.
- PilotModels: identifiers are opaque numbers, with zero standing for every value the identifier check refuses; canonical JSON stands for the record itself.
- PilotServices.Store: the schema check at start-up, busy timeouts and the crash hook of the tests; each transaction is atomic and serialised, as BEGIN IMMEDIATE provides.
- PilotServices.Pilot.Recommend: admission limits, HTTP and loopback checks around it.
- Recalls: averaging the probes of many queries.
- AppServices: rate limiting, login, account deletion and the request deadline, whose only effect, a failing retrieval, is covered because replies are arbitrary; that statement and lock timeouts abort a transaction.
- VectorCaches: the algebra of fold-in, which is an arbitrary function of the preferences.
- Wire codecs, sockets, authentication, object storage, streaming connectors, deployment, telemetry, benchmarks, tuning and the web client: plumbing around unseen libraries or field-by-field copies, which would only add easy members.
