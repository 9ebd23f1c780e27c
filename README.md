# Prediction evaluator dispatcher

This project models the evaluator manager of a prediction module for autonomous driving, and proves properties of that model. Each planning cycle, the manager decides which trained evaluator scores each tracked obstacle's possible futures. It does four things:

- **Registry.** It keeps one instance of each supported evaluator kind. `CreateEvaluator` is the factory and `GetEvaluator` is the lookup; a lookup returns null for an absent key or a stored null.
- **Route resolution.** `Init` folds the configured `obstacle_conf` entries into five route fields: vehicle on lane, vehicle in junction, cyclist on lane, pedestrian and default on lane.
- **Dispatch.** `EvaluateObstacle` walks a decision tree over the obstacle's category, junction situation, lane status and priority. A CAUTION vehicle approaching a junction calls the junction-map evaluator first. The in-junction route is called only if that first call produced nothing.
- **Run.** It evaluates the considered obstacles of the cycle on one of two paths:
  - the single-threaded path, in the container's order;
  - the multi-threaded path, after hashing each obstacle id into a worker bucket with `GroupObstaclesByObstacleId`.

  In the frame-dump configurations, `Run` first rebuilds a ten-frame history snapshot per obstacle (`BuildObstacleIdHistoryMap`). It then splits that snapshot into a `FrameEnv` (`DumpCurrentFrameEnv`).

There are seven modules:

| module | file | contents |
|---|---|---|
| `PredictionTypes` | `types.dfy` | the value types, where an obstacle's latest feature is `history[0]` |
| `EvaluatorRegistry` | `registry.dfy` | factory, lookup, registration fold |
| `RouteResolution` | `routes.dfy` | `Init` as a fold over the configuration entries, with its laws |
| `Dispatch` | `dispatch.dfy` | `EvaluateObstacle` as a function returning the evaluator calls it makes |
| `Partition` | `partition.dfy` | C++ truncated `%`, the bucket function, the two paths' filters, the bucket-map class and the grouping method |
| `History` | `history.dfy` | the history snapshot as a fold, and the frame split |
| `Manager` | `manager.dfy` | the `EvaluatorManager` class, whose loops are proved against those functions |

Modelling choices:

- **Evaluator calls.** Each `Evaluate` call appears in the result as a `Call(kind, withDynamicEnv)`.
- **The junction-map verdict.** The boolean the junction-map evaluator returns is an input: a function from obstacle id to `bool`.
- **`CHECK_NOTNULL`.** A failed check aborts the process. The model records it as `missing`, which names the kind whose lookup was null. A run stops at the first such abort.
- **The thread pool.** The model computes each bucket's list, then evaluates each list in order with its own trace. It states no order between buckets.
- **The containers.** The obstacle container, the ego id, offline mode and thread counts, and the ego vehicle's length and width are all parameters.
- **Initial route values.** They are set in a header, which is not part of this model, so they are the constructor's argument.
- **`RegisterEvaluators`.** The model runs a loop over `REGISTERED_KINDS`, which lists the nine kinds in the order of the source's nine calls.

## Model

| member | source | states |
|---|---|---|
| EvaluatorRegistry.CreateEvaluator | modules/prediction/evaluator/evaluator_manager.cc:359-404 | an instance exists exactly for the nine known kinds, and it is of the requested kind; it reports the lane-scanning name exactly for the lane-scanning kind; any other kind yields null |
| EvaluatorRegistry.GetEvaluator | modules/prediction/evaluator/evaluator_manager.cc:174-178 | the lookup yields an instance exactly when the key is present with a non-null value, and then it is that stored value |
| EvaluatorRegistry.RegisterAllContents | modules/prediction/evaluator/evaluator_manager.cc:95-105 | registering a list of kinds adds exactly those keys, binds each to the factory's result and keeps all other entries |
| EvaluatorRegistry.RegisteredKindsSupported | modules/prediction/evaluator/evaluator_manager.cc:95-105 | the nine registered kinds are exactly the kinds the factory supports |
| EvaluatorRegistry.RegisterKeepsValid | modules/prediction/evaluator/evaluator_manager.cc:406-410 | storing the factory's result keeps every entry equal to what the factory makes, and the lookup then succeeds exactly for a supported kind |
| EvaluatorRegistry.ScanningNameIdentifiesKind | modules/prediction/evaluator/evaluator_manager.cc:387-389 | in a valid registry, a found instance reports the lane-scanning name exactly when the lane-scanning kind was looked up |
| RouteResolution.Target | modules/prediction/evaluator/evaluator_manager.cc:121-157 | a complete entry targets a field exactly when it is PEDESTRIAN (any status), VEHICLE/BICYCLE/UNKNOWN with ON_LANE, or VEHICLE with IN_JUNCTION; incomplete entries target nothing. The field is vehicle-on-lane for VEHICLE/ON_LANE, vehicle-in-junction for VEHICLE/IN_JUNCTION, cyclist-on-lane for BICYCLE/ON_LANE, pedestrian for PEDESTRIAN and default-on-lane for UNKNOWN/ON_LANE |
| RouteResolution.ApplyConf | modules/prediction/evaluator/evaluator_manager.cc:108-158 | an entry missing type, evaluator or status leaves all routes unchanged; any other entry changes at most one route |
| RouteResolution.UntargetedFieldKept | modules/prediction/evaluator/evaluator_manager.cc:108-159 | a route no entry targets keeps its initial value |
| RouteResolution.LastWriteWins | modules/prediction/evaluator/evaluator_manager.cc:108-159 | the last entry that targets a route decides its final value |
| RouteResolution.LearningModeForcesLaneScanning | modules/prediction/evaluator/evaluator_manager.cc:124-131 | in the data-for-learning mode, any VEHICLE/ON_LANE entry makes the vehicle-on-lane route lane scanning, whatever evaluators the entries name |
| RouteResolution.PedestrianRouteFixed | modules/prediction/evaluator/evaluator_manager.cc:143-147 | after any eligible PEDESTRIAN entry, the pedestrian route is pedestrian interaction, whatever the entry names |
| RouteResolution.ResolvedRoutesSupported | modules/prediction/evaluator/evaluator_manager.cc:107-159 | if the initial routes and all configured evaluators lie in a set that holds the two forced kinds, every resolved route lies in it too |
| Dispatch.EvaluateObstacle | modules/prediction/evaluator/evaluator_manager.cc:231-288 | at most two calls; every call is to an instance that was found; an abort names a kind whose lookup was null; no abort means the junction-map lookup (when consulted) and the needed route's lookup (when reached) succeeded; two calls means junction map first and it produced nothing; only a lane-scanning instance is passed the environment |
| Dispatch.SupportedRoutesReady | modules/prediction/evaluator/evaluator_manager.cc:174-178 | a registry with an instance for every supported kind resolves every lookup dispatch makes when all five routes are supported kinds |
| Dispatch.EvaluateObstacleFollowsTable | modules/prediction/evaluator/evaluator_manager.cc:231-288 | for any registry the factory filled, the outcome equals an independent table: a null junction-map lookup aborts before any call; a produced junction-map result, or no route for the category and situation, ends with the prelude alone; a null lookup of the chosen route aborts after the prelude (CHECK_NOTNULL at 242, 248, 252, 267, 282); otherwise the route is called once after the prelude. With every route resolvable nothing aborts |
| Dispatch.JunctionChain | modules/prediction/evaluator/evaluator_manager.cc:237-249 | a CAUTION junction vehicle calls junction map first, then the in-junction route exactly when that call returned false; a vehicle of any other priority makes exactly one in-junction call |
| Dispatch.JunctionMapMissingAborts | modules/prediction/evaluator/evaluator_manager.cc:239-242 | a null junction-map lookup for a CAUTION junction vehicle aborts before any call |
| Dispatch.RemainingBranches | modules/prediction/evaluator/evaluator_manager.cc:250-286 | an on-lane vehicle makes one vehicle-on-lane call, with the environment exactly when the instance is named lane scanning; off-lane obstacles get no call; an on-lane bicycle makes one cyclist call; any other category makes one default-on-lane call when on a lane; an on-lane obstacle whose route's instance is null aborts before any call |
| Dispatch.PedestrianRouteUnused | modules/prediction/evaluator/evaluator_manager.cc:272-286 | the pedestrian route never affects the calls, because a pedestrian is handled by the default branch |
| Dispatch.AbortIsFinal | modules/prediction/evaluator/evaluator_manager.cc:206-208 | once a prefix of the list has aborted, no later obstacle adds a call |
| Dispatch.SequenceCompletes | modules/prediction/evaluator/evaluator_manager.cc:206-208 | with every route resolvable, a list is evaluated without abort, with at most two calls per obstacle, each attributed to an obstacle of the list |
| Partition.CppRem | modules/prediction/evaluator/evaluator_manager.cc:80 | the magnitude of the remainder is the remainders of the magnitudes, and its sign is the dividend's (C++ truncated division) |
| Partition.BucketOf | modules/prediction/evaluator/evaluator_manager.cc:79-88 | for a non-negative id, a CAUTION bucket is in [0, Cc) and a NORMAL bucket in [Cc, total) |
| Partition.NegativeNormalIdEntersCautionSlots | modules/prediction/evaluator/evaluator_manager.cc:84-86 | with one caution slot out of four, NORMAL id -1 hashes to caution bucket 0 |
| Partition.BucketContents | modules/prediction/evaluator/evaluator_manager.cc:63-89 | every id in a bucket is present, moving and not IGNORE |
| Partition.BucketMembers | modules/prediction/evaluator/evaluator_manager.cc:63-89 | an id is in bucket k exactly when it is a considered, grouped id that hashes to k |
| Partition.BucketKeepsOccurrences | modules/prediction/evaluator/evaluator_manager.cc:79-87 | a grouped id occurs in its bucket as many times as it occurs in the considered list |
| Partition.BucketsDisjoint | modules/prediction/evaluator/evaluator_manager.cc:79-87 | no id is in two different buckets |
| Partition.PriorityIsolation | modules/prediction/evaluator/evaluator_manager.cc:79-88 | with non-negative ids and 0 < Cc < total, CAUTION ids lie only in buckets [0, Cc) and NORMAL ids only in [Cc, total) |
| Partition.SequentialSelection | modules/prediction/evaluator/evaluator_manager.cc:211-227 | every selected id is non-negative, present and moving |
| Partition.SequentialSelectionMembers | modules/prediction/evaluator/evaluator_manager.cc:211-227 | an id is selected exactly when it is considered, non-negative, present and moving |
| Partition.SequentialSelectionPrefix | modules/prediction/evaluator/evaluator_manager.cc:211-227 | the selection of a prefix of the ids is a prefix of the selection, so order is kept |
| Partition.IgnoreOnlySequential | modules/prediction/evaluator/evaluator_manager.cc:198-227 | a moving IGNORE obstacle with a non-negative id is evaluated by the single-threaded path and put in no bucket by the multi-threaded one |
| Partition.IdObstacleListMap.constructor | modules/prediction/evaluator/evaluator_manager.cc:199 | the bucket map starts empty |
| Partition.GroupObstaclesByObstacleId | modules/prediction/evaluator/evaluator_manager.cc:63-89 | a null, still or IGNORE obstacle leaves every bucket unchanged; otherwise exactly its hashed bucket gets the id appended at its end, and every other bucket and key is unchanged |
| History.IsTrainable | modules/prediction/evaluator/evaluator_manager.cc:52-61 | true exactly for a non-ego, non-IGNORE, moving VEHICLE feature; always false for the ego id |
| History.Snapshot | modules/prediction/evaluator/evaluator_manager.cc:315-334 | the snapshot has exactly n entries, and entry i copies feature(i)'s id, timestamp, position and heading; it also copies the polygon, length and width, unless the feature's id is the ego id, which gets no polygon and the configured length and width |
| History.HistoryKeys | modules/prediction/evaluator/evaluator_manager.cc:305-312 | the map has an entry exactly for the visited ids whose obstacle exists with a non-empty history |
| History.HistoryEntries | modules/prediction/evaluator/evaluator_manager.cc:308-337 | with distinct visited ids, each entry is the reduced copies of feature(0) to feature(min(10, size) - 1) in index order, with the trainable flag of the latest feature |
| History.HistoryBounded | modules/prediction/evaluator/evaluator_manager.cc:313-314 | with distinct visited ids, every entry holds between 1 and 10 features |
| History.VisitOrderBounded | modules/prediction/evaluator/evaluator_manager.cc:305-314 | when the movable ids are distinct and exclude the ego id, every entry built from the movable ids followed by the ego id holds between 1 and 10 features |
| History.HistoryCopied | modules/prediction/evaluator/evaluator_manager.cc:315-334 | every stored feature is the reduced copy of a feature of the same obstacle |
| History.HistoryShapes | modules/prediction/evaluator/evaluator_manager.cc:318-332 | a copy of an ego feature has the configured length and width and no polygon; any other copy keeps its source feature's id, timestamp, polygon, length and width |
| History.SplitCounts | modules/prediction/evaluator/evaluator_manager.cc:346-355 | a split frame holds exactly as many obstacle histories as the map has non-ego entries, and each one is the value of a non-ego entry |
| Manager.ConfiguredDispatchCompletes | modules/prediction/evaluator/evaluator_manager.cc:93-178 | with the constructor's registry, initial routes of supported kinds and configuration entries that name supported kinds, every route Init resolves has an instance, and evaluating any obstacle list never aborts |
| Manager.EvaluatorManager.constructor | modules/prediction/evaluator/evaluator_manager.cc:93 | the new manager's registry is valid and holds a key exactly for each supported kind, and each lookup succeeds exactly for a supported kind; the routes are the initial ones and the history map is empty |
| Manager.EvaluatorManager.RegisterEvaluators | modules/prediction/evaluator/evaluator_manager.cc:95-105 | the registry becomes the old one with the nine kinds registered in order |
| Manager.EvaluatorManager.RegisterEvaluator | modules/prediction/evaluator/evaluator_manager.cc:406-410 | the kind's entry becomes the factory's result, a null one included; every other entry is unchanged |
| Manager.EvaluatorManager.Init | modules/prediction/evaluator/evaluator_manager.cc:107-159 | the five routes become the resolution of the configuration entries in order, starting from their old values; the registry and history are not touched |
| Manager.EvaluatorManager.EvaluateBucket | modules/prediction/evaluator/evaluator_manager.cc:206-208 | the worker's trace is the in-order evaluation of its bucket, stopping at the first abort |
| Manager.EvaluatorManager.RunSequential | modules/prediction/evaluator/evaluator_manager.cc:211-227 | the trace is the in-order evaluation of exactly the considered ids that are non-negative, present and moving |
| Manager.EvaluatorManager.RunMultiThread | modules/prediction/evaluator/evaluator_manager.cc:198-209 | the buckets are exactly the non-empty groupings of the considered ids, and each bucket's trace is the in-order evaluation of its list |
| Manager.EvaluatorManager.BuildObstacleIdHistoryMap | modules/prediction/evaluator/evaluator_manager.cc:295-338 | starting from a cleared map, the result is the history fold over the movable ids followed by the ego id |
| Manager.EvaluatorManager.DumpCurrentFrameEnv | modules/prediction/evaluator/evaluator_manager.cc:340-357 | the frame carries the container's timestamp; the ego entry, if present, becomes the ego history; every other entry appears exactly once among the obstacle histories, and nothing else does |
| Manager.EvaluatorManager.Run | modules/prediction/evaluator/evaluator_manager.cc:180-229 | in the frame-dump configurations the history is rebuilt and dumped, and otherwise left untouched; evaluation is skipped exactly in the frame-env dump mode; otherwise the flag picks the single-threaded trace or the per-bucket traces, as above |

## Left out

- The thread pool (lines 203-209) is not modelled. Buckets have no order between them, and the shared `dynamic_env` vector is never filled, so its contents are not modelled either.
- Manager.EvaluatorManager.Run: on the multi-threaded path each bucket's trace is stated on its own, so an abort in one bucket leaves the other buckets' traces complete. In the source, a failed `CHECK_NOTNULL` ends the whole process, and with it every other worker part-way through its list. The model does not capture which calls the other workers had made by then.
- `SemanticMap::Init` and `SemanticMap::RunCurrFrame` (lines 168-171, 193) are not modelled. They are external singletons with their own logic.
- `FeatureOutput::InsertFrameEnv` (line 356) is not modelled. It is the persistence sink; `DumpCurrentFrameEnv` returns the frame it would receive.
- The container, pose and vehicle-configuration singletons are parameters. Their `CHECK_NOTNULL` checks (lines 184, 300, 304) therefore cannot fail.
- The internals of every evaluator are left out. The only result the model reads is the junction-map evaluator's boolean, which is an input.
- Log output is not modelled.
- The one-argument `EvaluateObstacle` overload (lines 290-293) has no member of its own. It passes an empty environment, and environment contents are not modelled, so its call trace is that of `Dispatch.EvaluateObstacle`.
- Evaluator instance names are assumed to be the spellings of their enumerators. The evaluator classes are not part of this model, and only the lane-scanning name is compared (line 253).
- Manager.EvaluatorManager.Run: its requires `WellFormed` says every stored obstacle has a non-empty history. `latest_feature()` on an empty history is undefined behaviour, which the model does not represent.
- Manager.EvaluatorManager.Run: its requires that neither divisor is zero when the multi-threaded path is taken. A zero thread count is a division by zero in C++ (lines 80, 85).
- Manager.EvaluatorManager.DumpCurrentFrameEnv: visits the map's keys in an unspecified order. Its contract therefore states the split up to that order, as a ghost `order` sequence.

## Notes

- **Repeated visited ids.** The history map's ten-frame bound holds only when the movable ids are distinct and do not include the ego id (`History.VisitOrderBounded`). A repeated id gets up to ten frames appended on each visit, so its entry can exceed ten features.
- **Negative ids.** The multi-threaded path does not reject negative ids. C++ `%` on a negative id gives a non-positive remainder, so a NORMAL obstacle with a negative id can land in a CAUTION bucket (`Partition.NegativeNormalIdEntersCautionSlots`). The priority-isolation lemma therefore requires non-negative ids. The single-threaded path drops negative ids explicitly.
- **The two filters differ.** Dropping IGNORE obstacles happens only on the multi-threaded path (`Partition.IgnoreOnlySequential`).
