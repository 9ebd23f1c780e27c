/**
 * EvaluatorManager: the registry of evaluator instances, the five route
 * fields resolved by Init, the per-cycle history map, and Run, which picks
 * between the frame-dump, multi-threaded and single-threaded paths.
 *
 * The thread pool is modelled as "each bucket's list is evaluated in order
 * by its own worker": Run reports one trace per bucket and no order between
 * buckets.
 */
module Manager {
  import opened PredictionTypes
  import opened EvaluatorRegistry
  import opened RouteResolution
  import opened Dispatch
  import opened Partition
  import opened History

  /** The global flags Run and Init read. */
  datatype Flags = Flags(
    enableSemanticMap: bool,
    offlineMode: OfflineMode,
    enableMultiThread: bool,
    maxThreadNum: int,
    maxCautionThreadNum: int,
    egoVehicleId: int)

  datatype RunEvaluation =
    | NotEvaluated
    | Sequential(trace: RunTrace)
    | PerBucket(buckets: map<int, seq<int>>, traces: map<int, RunTrace>)

  /** What one cycle produced: the frame snapshot handed to the sink, and the evaluator calls. */
  datatype RunReport = RunReport(frameEnv: Option<FrameEnv>, evaluation: RunEvaluation)

  /** Run builds and dumps the history snapshot first in these two configurations. */
  predicate DumpsHistory(flags: Flags)
  {
    flags.enableSemanticMap || flags.offlineMode == DumpFrameEnv
  }

  /**
   * Dispatch completeness: with the constructor's registry, initial routes
   * of supported kinds and configuration entries that name supported kinds,
   * the routes Init resolves are all resolvable, so evaluating any list of
   * obstacles never aborts on a null lookup.
   */
  lemma ConfiguredDispatchCompletes(reg: Registry, initial: RouteTable, confs: seq<ObstacleConf>, mode: OfflineMode,
                                    ids: seq<int>, obstacles: map<int, Obstacle>, produced: int -> bool)
    requires forall t :: GetEvaluator(reg, t).Some? <==> Supported(t)
    requires forall f :: Supported(Route(initial, f))
    requires forall k :: 0 <= k < |confs| && Complete(confs[k]) ==> Supported(confs[k].evaluatorType.value)
    requires Evaluable(ids, obstacles)
    ensures Ready(reg, ResolveRoutes(initial, confs, mode))
    ensures EvaluateSequence(reg, ResolveRoutes(initial, confs, mode), ids, obstacles, produced).missing.None?
  {
    var supported := set t | t in REGISTERED_KINDS;
    RegisteredKindsSupported();
    ResolvedRoutesSupported(initial, confs, mode, supported);
    var routes := ResolveRoutes(initial, confs, mode);
    SupportedRoutesReady(reg, routes);
    SequenceCompletes(reg, routes, ids, obstacles, produced);
  }

  class EvaluatorManager {
    var evaluators: Registry
    var vehicleOnLaneEvaluator: EvaluatorType
    var vehicleInJunctionEvaluator: EvaluatorType
    var cyclistOnLaneEvaluator: EvaluatorType
    var pedestrianEvaluator: EvaluatorType
    var defaultOnLaneEvaluator: EvaluatorType
    var obstacleIdHistoryMap: map<int, ObstacleHistory>

    /** The five route fields as one value. */
    function Routes(): RouteTable
      reads this
    {
      RouteTable(vehicleOnLaneEvaluator, vehicleInJunctionEvaluator, cyclistOnLaneEvaluator,
                 pedestrianEvaluator, defaultOnLaneEvaluator)
    }

    /**
     * The constructor registers the nine supported kinds, each with the
     * factory's instance; the routes start at the given initial values.
     */
    constructor (initialRoutes: RouteTable)
      ensures Valid(evaluators)
      ensures forall t :: t in evaluators <==> Supported(t)
      ensures forall t :: GetEvaluator(evaluators, t).Some? <==> Supported(t)
      ensures Routes() == initialRoutes
      ensures obstacleIdHistoryMap == map[]
    {
      evaluators := map[];
      vehicleOnLaneEvaluator := initialRoutes.vehicleOnLane;
      vehicleInJunctionEvaluator := initialRoutes.vehicleInJunction;
      cyclistOnLaneEvaluator := initialRoutes.cyclistOnLane;
      pedestrianEvaluator := initialRoutes.pedestrian;
      defaultOnLaneEvaluator := initialRoutes.defaultOnLane;
      obstacleIdHistoryMap := map[];
      new;
      RegisterEvaluators();
      RegisterAllContents(map[], REGISTERED_KINDS);
      RegisteredKindsSupported();
    }

    /** RegisterEvaluators: one registration per supported kind, in the source's order. */
    method RegisterEvaluators()
      modifies this`evaluators
      ensures evaluators == RegisterAll(old(evaluators), REGISTERED_KINDS)
    {
      for i := 0 to |REGISTERED_KINDS|
        invariant evaluators == RegisterAll(old(evaluators), REGISTERED_KINDS[..i])
      {
        assert REGISTERED_KINDS[..i + 1][..i] == REGISTERED_KINDS[..i];
        RegisterEvaluator(REGISTERED_KINDS[i]);
      }
      assert REGISTERED_KINDS[..|REGISTERED_KINDS|] == REGISTERED_KINDS;
    }

    /** RegisterEvaluator: stores the factory's result, a null one included. */
    method RegisterEvaluator(t: EvaluatorType)
      modifies this`evaluators
      ensures evaluators == old(evaluators)[t := CreateEvaluator(t)]
    {
      evaluators := evaluators[t := CreateEvaluator(t)];
    }

    /** Init: the route fields become the resolution of the entries, in order. */
    method Init(confs: seq<ObstacleConf>, mode: OfflineMode)
      modifies this`vehicleOnLaneEvaluator, this`vehicleInJunctionEvaluator, this`cyclistOnLaneEvaluator,
               this`pedestrianEvaluator, this`defaultOnLaneEvaluator
      ensures Routes() == ResolveRoutes(old(Routes()), confs, mode)
    {
      var i := 0;
      while i < |confs|
        invariant 0 <= i <= |confs|
        invariant Routes() == ResolveRoutes(old(Routes()), confs[..i], mode)
      {
        var conf := confs[i];
        assert confs[..i + 1][..i] == confs[..i];
        if conf.obstacleType.None? {
          // an entry without an obstacle type is skipped
        } else if conf.evaluatorType.None? {
          // an entry without an evaluator type is skipped
        } else if conf.obstacleStatus.Some? {
          var status := conf.obstacleStatus.value;
          var evaluator := conf.evaluatorType.value;
          match conf.obstacleType.value
          case Vehicle =>
            if status == OnLane {
              vehicleOnLaneEvaluator := evaluator;
              if mode == DumpDataForLearning {
                vehicleOnLaneEvaluator := LaneScanningEvaluator;
              }
            }
            if status == InJunction {
              vehicleInJunctionEvaluator := evaluator;
            }
          case Bicycle =>
            if status == OnLane {
              cyclistOnLaneEvaluator := evaluator;
            }
          case Pedestrian =>
            pedestrianEvaluator := PedestrianInteractionEvaluator;
          case Unknown =>
            if status == OnLane {
              defaultOnLaneEvaluator := evaluator;
            }
          case _ =>
        }
        i := i + 1;
      }
      assert confs[..i] == confs;
    }

    /** One worker's loop: evaluate the bucket's obstacles in order until an abort. */
    method EvaluateBucket(ids: seq<int>, obstacles: map<int, Obstacle>, junctionMapProduced: int -> bool)
      returns (trace: RunTrace)
      requires Evaluable(ids, obstacles)
      ensures trace == EvaluateSequence(evaluators, Routes(), ids, obstacles, junctionMapProduced)
    {
      trace := RunTrace([], None);
      var i := 0;
      while i < |ids|
        invariant 0 <= i <= |ids|
        invariant trace == EvaluateSequence(evaluators, Routes(), ids[..i], obstacles, junctionMapProduced)
        invariant trace.missing.None?
      {
        assert ids[..i + 1][..i] == ids[..i];
        var id := ids[i];
        var e := EvaluateObstacle(evaluators, Routes(), obstacles[id], junctionMapProduced(id));
        trace := RunTrace(trace.invocations + Attribute(id, e.calls), e.missing);
        i := i + 1;
        if e.missing.Some? {
          AbortIsFinal(evaluators, Routes(), ids, i, obstacles, junctionMapProduced);
          return;
        }
      }
      assert ids[..i] == ids;
    }

    /**
     * The single-threaded path: every considered id that is non-negative,
     * present and moving is evaluated in the container's order; IGNORE
     * obstacles are not filtered here.
     */
    method RunSequential(c: ObstaclesContainer, junctionMapProduced: int -> bool) returns (trace: RunTrace)
      requires WellFormed(c.obstacles)
      ensures trace == EvaluateSequence(evaluators, Routes(), SequentialSelection(c.consideredIds, c.obstacles),
                                        c.obstacles, junctionMapProduced)
    {
      var ids := c.consideredIds;
      trace := RunTrace([], None);
      var i := 0;
      while i < |ids|
        invariant 0 <= i <= |ids|
        invariant trace == EvaluateSequence(evaluators, Routes(), SequentialSelection(ids[..i], c.obstacles),
                                            c.obstacles, junctionMapProduced)
        invariant trace.missing.None?
      {
        var id := ids[i];
        assert ids[..i + 1][..i] == ids[..i];
        ghost var selected := SequentialSelection(ids[..i + 1], c.obstacles);
        if id >= 0 && id in c.obstacles {
          var obstacle := c.obstacles[id];
          if !obstacle.isStill {
            assert selected == SequentialSelection(ids[..i], c.obstacles) + [id];
            var e := EvaluateObstacle(evaluators, Routes(), obstacle, junctionMapProduced(id));
            trace := RunTrace(trace.invocations + Attribute(id, e.calls), e.missing);
            if e.missing.Some? {
              var all := SequentialSelection(ids, c.obstacles);
              SequentialSelectionPrefix(ids, i + 1, c.obstacles);
              assert all[..|selected|] == selected;
              AbortIsFinal(evaluators, Routes(), all, |selected|, c.obstacles, junctionMapProduced);
              return;
            }
          }
        }
        i := i + 1;
      }
      assert ids[..i] == ids;
    }

    /**
     * The multi-threaded path: the considered ids are grouped into buckets
     * (null, still and IGNORE obstacles dropped), then each bucket is
     * evaluated by its own worker.
     */
    method RunMultiThread(c: ObstaclesContainer, cautionThreads: int, threads: int, junctionMapProduced: int -> bool)
      returns (buckets: map<int, seq<int>>, traces: map<int, RunTrace>)
      requires WellFormed(c.obstacles) && DivisorsNonZero(cautionThreads, threads)
      ensures IsBucketMap(buckets, c.consideredIds, c.obstacles, cautionThreads, threads)
      ensures EachBucketEvaluated(evaluators, Routes(), buckets, traces, c.obstacles, junctionMapProduced)
    {
      var ids := c.consideredIds;
      var idObstacleMap := new IdObstacleListMap();
      var i := 0;
      while i < |ids|
        invariant 0 <= i <= |ids|
        invariant IsBucketMap(idObstacleMap.lists, ids[..i], c.obstacles, cautionThreads, threads)
      {
        assert ids[..i + 1][..i] == ids[..i];
        GroupObstaclesByObstacleId(ids[i], c.obstacles, cautionThreads, threads, idObstacleMap);
        i := i + 1;
      }
      assert ids[..i] == ids;
      buckets := idObstacleMap.lists;

      var pending := buckets.Keys;
      traces := map[];
      while pending != {}
        invariant pending <= buckets.Keys
        invariant traces.Keys == buckets.Keys - pending
        invariant forall k :: k in traces ==>
                    Evaluable(buckets[k], c.obstacles) &&
                    traces[k] == EvaluateSequence(evaluators, Routes(), buckets[k], c.obstacles, junctionMapProduced)
        decreases pending
      {
        NonEmptyHasMember(pending);
        var k :| k in pending;
        var trace := EvaluateBucket(buckets[k], c.obstacles, junctionMapProduced);
        traces := traces[k := trace];
        pending := pending - {k};
      }
    }

    /**
     * BuildObstacleIdHistoryMap: the map is cleared, then the movable ids and
     * the ego id are visited in order.
     */
    method BuildObstacleIdHistoryMap(c: ObstaclesContainer, egoId: int, ego: VehicleParam)
      modifies this`obstacleIdHistoryMap
      ensures obstacleIdHistoryMap == BuildHistory(VisitOrder(c, egoId), c.obstacles, egoId, ego)
    {
      obstacleIdHistoryMap := map[];
      var obstacleIds := c.movableIds + [egoId];
      var i := 0;
      while i < |obstacleIds|
        invariant 0 <= i <= |obstacleIds|
        invariant obstacleIdHistoryMap == BuildHistory(obstacleIds[..i], c.obstacles, egoId, ego)
      {
        var id := obstacleIds[i];
        assert obstacleIds[..i + 1][..i] == obstacleIds[..i];
        if id in c.obstacles && |c.obstacles[id].history| != 0 {
          var obstacle := c.obstacles[id];
          var numFrames := Min(MAX_HISTORY_FRAMES, |obstacle.history|);
          ghost var before := obstacleIdHistoryMap;
          var j := 0;
          while j < numFrames
            invariant 0 <= j <= numFrames
            invariant j == 0 ==> obstacleIdHistoryMap == before
            invariant j > 0 ==>
                        obstacleIdHistoryMap ==
                        before[id := ObstacleHistory(EntryOf(before, id).features + Snapshot(obstacle, j, egoId, ego),
                                                     EntryOf(before, id).isTrainable)]
          {
            var feature := Reduce(obstacle.history[j], egoId, ego);
            var entry := EntryOf(obstacleIdHistoryMap, id);
            ghost var base := EntryOf(before, id);
            assert Snapshot(obstacle, j + 1, egoId, ego) == Snapshot(obstacle, j, egoId, ego) + [feature];
            assert entry == ObstacleHistory(base.features + Snapshot(obstacle, j, egoId, ego), base.isTrainable) by {
              if j == 0 {
                assert base.features + Snapshot(obstacle, 0, egoId, ego) == base.features;
              }
            }
            assert entry.features + [feature] == base.features + Snapshot(obstacle, j + 1, egoId, ego);
            obstacleIdHistoryMap := obstacleIdHistoryMap[id := entry.(features := entry.features + [feature])];
            j := j + 1;
          }
          var entry := EntryOf(obstacleIdHistoryMap, id);
          obstacleIdHistoryMap := obstacleIdHistoryMap[id := entry.(isTrainable := IsTrainable(LatestFeature(obstacle), egoId))];
        }
        i := i + 1;
      }
      assert obstacleIds[..i] == obstacleIds;
    }

    /**
     * DumpCurrentFrameEnv: the ego id's entry becomes the ego history and
     * every other entry one obstacle history, in an order the hash map picks.
     */
    method DumpCurrentFrameEnv(c: ObstaclesContainer, egoId: int) returns (env: FrameEnv, ghost order: seq<int>)
      ensures SplitsHistory(env, obstacleIdHistoryMap, egoId, c.timestamp, order)
      ensures env.timestamp == c.timestamp
      ensures env.egoHistory == if egoId in obstacleIdHistoryMap then Some(obstacleIdHistoryMap[egoId]) else None
      ensures |env.obstaclesHistory| == |obstacleIdHistoryMap.Keys - {egoId}|
      ensures forall h :: h in env.obstaclesHistory ==> h in (obstacleIdHistoryMap - {egoId}).Values
    {
      var m := obstacleIdHistoryMap;
      var egoHistory: Option<ObstacleHistory> := None;
      var obstaclesHistory: seq<ObstacleHistory> := [];
      order := [];
      var pending := m.Keys;
      while pending != {}
        invariant pending <= m.Keys
        invariant |order| == |obstaclesHistory|
        invariant Distinct(order)
        invariant forall id :: id in order <==> id in m && id !in pending && id != egoId
        invariant forall i :: 0 <= i < |order| ==> order[i] in m && obstaclesHistory[i] == m[order[i]]
        invariant egoHistory == if egoId in m && egoId !in pending then Some(m[egoId]) else None
        decreases pending
      {
        NonEmptyHasMember(pending);
        var id :| id in pending;
        if id != egoId {
          obstaclesHistory := obstaclesHistory + [m[id]];
          order := order + [id];
        } else {
          egoHistory := Some(m[id]);
        }
        pending := pending - {id};
      }
      env := FrameEnv(c.timestamp, egoHistory, obstaclesHistory);
      SplitCounts(env, obstacleIdHistoryMap, egoId, c.timestamp, order);
    }

    /**
     * Run: in the frame-dump configurations the history map is rebuilt and
     * dumped first, and the frame-env dump mode stops there; otherwise the
     * flag picks the multi-threaded or the single-threaded path.
     */
    method Run(c: ObstaclesContainer, flags: Flags, ego: VehicleParam, junctionMapProduced: int -> bool)
      returns (report: RunReport, ghost dumpOrder: seq<int>)
      requires WellFormed(c.obstacles)
      requires flags.enableMultiThread ==> DivisorsNonZero(flags.maxCautionThreadNum, flags.maxThreadNum)
      modifies this`obstacleIdHistoryMap
      ensures DumpsHistory(flags) ==>
                && obstacleIdHistoryMap == BuildHistory(VisitOrder(c, flags.egoVehicleId), c.obstacles, flags.egoVehicleId, ego)
                && report.frameEnv.Some?
                && SplitsHistory(report.frameEnv.value, obstacleIdHistoryMap, flags.egoVehicleId, c.timestamp, dumpOrder)
      ensures !DumpsHistory(flags) ==> obstacleIdHistoryMap == old(obstacleIdHistoryMap) && report.frameEnv.None?
      ensures report.evaluation.NotEvaluated? <==> flags.offlineMode == DumpFrameEnv
      ensures report.evaluation.Sequential? ==>
                !flags.enableMultiThread &&
                report.evaluation.trace == EvaluateSequence(evaluators, Routes(),
                                                            SequentialSelection(c.consideredIds, c.obstacles),
                                                            c.obstacles, junctionMapProduced)
      ensures report.evaluation.PerBucket? ==>
                && flags.enableMultiThread
                && IsBucketMap(report.evaluation.buckets, c.consideredIds, c.obstacles,
                               flags.maxCautionThreadNum, flags.maxThreadNum)
                && EachBucketEvaluated(evaluators, Routes(), report.evaluation.buckets, report.evaluation.traces,
                                       c.obstacles, junctionMapProduced)
    {
      dumpOrder := [];
      var frameEnv: Option<FrameEnv> := None;
      if flags.enableSemanticMap || flags.offlineMode == DumpFrameEnv {
        BuildObstacleIdHistoryMap(c, flags.egoVehicleId, ego);
        var env;
        env, dumpOrder := DumpCurrentFrameEnv(c, flags.egoVehicleId);
        frameEnv := Some(env);
        if flags.offlineMode == DumpFrameEnv {
          report := RunReport(frameEnv, NotEvaluated);
          return;
        }
      }
      if flags.enableMultiThread {
        var buckets, traces := RunMultiThread(c, flags.maxCautionThreadNum, flags.maxThreadNum, junctionMapProduced);
        report := RunReport(frameEnv, PerBucket(buckets, traces));
      } else {
        var trace := RunSequential(c, junctionMapProduced);
        report := RunReport(frameEnv, Sequential(trace));
      }
    }
  }
}
