/**
 * The per-obstacle decision procedure (EvaluateObstacle) as a function that
 * returns the evaluator calls it makes, and the sequential evaluation of a
 * list of obstacles that one worker, or the single-threaded path, performs.
 *
 * Evaluator internals are opaque: the only result the procedure inspects is
 * the junction-map evaluator's boolean, supplied as `junctionMapProduced`.
 * A failed CHECK_NOTNULL aborts the process; it is modelled as `missing`.
 */
module Dispatch {
  import opened PredictionTypes
  import opened EvaluatorRegistry
  import opened RouteResolution

  /** One Evaluate call: the key looked up, and whether the dynamic environment was passed. */
  datatype Call = Call(evaluator: EvaluatorType, withDynamicEnv: bool)

  /** The calls made for one obstacle; `missing` names the kind whose lookup was null. */
  datatype Evaluation = Evaluation(calls: seq<Call>, missing: Option<EvaluatorType>)

  /** A call attributed to the obstacle it was made for. */
  datatype Invocation = Invocation(obstacleId: int, call: Call)

  /** The calls made for a list of obstacles, stopping at the first abort. */
  datatype RunTrace = RunTrace(invocations: seq<Invocation>, missing: Option<EvaluatorType>)

  /**
   * Look up `route` and, if found, call it after `before`. With `offerEnv`
   * the two-argument Evaluate is used when the instance is lane scanning.
   */
  function Invoke(reg: Registry, route: EvaluatorType, before: seq<Call>, offerEnv: bool): Evaluation
  {
    match GetEvaluator(reg, route)
    case None => Evaluation(before, Some(route))
    case Some(e) => Evaluation(before + [Call(route, offerEnv && e.name == LANE_SCANNING_NAME)], None)
  }

  /** EvaluateObstacle: the evaluators called for `o`, in order. */
  function EvaluateObstacle(reg: Registry, routes: RouteTable, o: Obstacle, junctionMapProduced: bool): (r: Evaluation)
    requires |o.history| > 0
    ensures |r.calls| <= 2
    ensures forall i :: 0 <= i < |r.calls| ==> GetEvaluator(reg, r.calls[i].evaluator).Some?
    ensures r.missing.Some? ==> GetEvaluator(reg, r.missing.value).None?
    ensures |r.calls| == 2 ==> r.calls[0] == Call(JunctionMapEvaluator, false) && !junctionMapProduced
    ensures forall i :: 0 <= i < |r.calls| && r.calls[i].withDynamicEnv ==>
              GetEvaluator(reg, r.calls[i].evaluator).value.name == LANE_SCANNING_NAME
    ensures r.missing.None? && ConsultsJunctionMap(o) ==> GetEvaluator(reg, JunctionMapEvaluator).Some?
    ensures var route := RouteFor(routes, o.kind, SituationOf(o));
            r.missing.None? && route.Some? && !(ConsultsJunctionMap(o) && junctionMapProduced) ==>
              GetEvaluator(reg, route.value).Some?
  {
    match o.kind
    case Vehicle =>
      if o.hasJunctionFeatureWithExits && !o.isCloseToJunctionExit then
        if PriorityOf(o) == Caution then
          if GetEvaluator(reg, JunctionMapEvaluator).None? then Evaluation([], Some(JunctionMapEvaluator))
          else if junctionMapProduced then Evaluation([Call(JunctionMapEvaluator, false)], None)
          else Invoke(reg, routes.vehicleInJunction, [Call(JunctionMapEvaluator, false)], false)
        else Invoke(reg, routes.vehicleInJunction, [], false)
      else if o.isOnLane then Invoke(reg, routes.vehicleOnLane, [], true)
      else Evaluation([], None)
    case Bicycle =>
      if o.isOnLane then Invoke(reg, routes.cyclistOnLane, [], false) else Evaluation([], None)
    case _ =>
      if o.isOnLane then Invoke(reg, routes.defaultOnLane, [], false) else Evaluation([], None)
  }

  // ---------------------------------------------------------------------
  // A reference formulation: the route that finally handles an obstacle,
  // read from a table keyed by category and situation.

  datatype Situation = ApproachingJunction | FollowingLane | Unrouted

  function SituationOf(o: Obstacle): Situation
  {
    if o.kind == Vehicle && o.hasJunctionFeatureWithExits && !o.isCloseToJunctionExit then ApproachingJunction
    else if o.isOnLane then FollowingLane
    else Unrouted
  }

  function RouteFor(routes: RouteTable, kind: ObstacleType, s: Situation): Option<EvaluatorType>
  {
    match (kind, s)
    case (Vehicle, ApproachingJunction) => Some(routes.vehicleInJunction)
    case (Vehicle, FollowingLane) => Some(routes.vehicleOnLane)
    case (Bicycle, FollowingLane) => Some(routes.cyclistOnLane)
    case (Vehicle, _) => None
    case (Bicycle, _) => None
    case (_, FollowingLane) => Some(routes.defaultOnLane)
    case (_, _) => None
  }

  /** Only CAUTION vehicles approaching a junction consult the junction-map evaluator first. */
  predicate ConsultsJunctionMap(o: Obstacle)
    requires |o.history| > 0
  {
    SituationOf(o) == ApproachingJunction && PriorityOf(o) == Caution
  }

  /** Every lookup the procedure can make succeeds. */
  predicate Ready(reg: Registry, routes: RouteTable)
  {
    && GetEvaluator(reg, JunctionMapEvaluator).Some?
    && GetEvaluator(reg, routes.vehicleInJunction).Some?
    && GetEvaluator(reg, routes.vehicleOnLane).Some?
    && GetEvaluator(reg, routes.cyclistOnLane).Some?
    && GetEvaluator(reg, routes.defaultOnLane).Some?
  }

  /**
   * A registry holding an instance for every supported kind is ready for
   * any route table whose five routes are all supported kinds.
   */
  lemma SupportedRoutesReady(reg: Registry, routes: RouteTable)
    requires forall t :: GetEvaluator(reg, t).Some? <==> Supported(t)
    requires forall f :: Supported(Route(routes, f))
    ensures Ready(reg, routes)
  {
    assert Supported(Route(routes, VehicleInJunctionRoute));
    assert Supported(Route(routes, VehicleOnLaneRoute));
    assert Supported(Route(routes, CyclistOnLaneRoute));
    assert Supported(Route(routes, DefaultOnLaneRoute));
  }

  /**
   * The procedure against the route table, for any registry the factory
   * filled. A CAUTION vehicle near a junction looks up the junction-map
   * evaluator first and aborts if it is null; a produced result ends the
   * obstacle there. Otherwise the table's route, if any, is looked up: a
   * null instance aborts after the calls already made (CHECK_NOTNULL), any
   * other is called once. Only the vehicle-on-lane route may be passed the
   * dynamic environment, and only when it is lane scanning. With every
   * route resolvable nothing aborts.
   */
  lemma EvaluateObstacleFollowsTable(reg: Registry, routes: RouteTable, o: Obstacle, produced: bool)
    requires |o.history| > 0
    requires Valid(reg)
    ensures var r := EvaluateObstacle(reg, routes, o, produced);
            var prelude := if ConsultsJunctionMap(o) then [Call(JunctionMapEvaluator, false)] else [];
            var route := RouteFor(routes, o.kind, SituationOf(o));
            if ConsultsJunctionMap(o) && GetEvaluator(reg, JunctionMapEvaluator).None? then
              r == Evaluation([], Some(JunctionMapEvaluator))
            else if route.None? || (ConsultsJunctionMap(o) && produced) then
              r == Evaluation(prelude, None)
            else if GetEvaluator(reg, route.value).None? then
              r == Evaluation(prelude, Some(route.value))
            else
              r == Evaluation(prelude + [Call(route.value, SituationOf(o) == FollowingLane && o.kind == Vehicle
                                                           && route.value == LaneScanningEvaluator)], None)
    ensures Ready(reg, routes) ==> EvaluateObstacle(reg, routes, o, produced).missing.None?
  {
  }

  /**
   * The junction chain: a VEHICLE with junction exits that is not close to
   * an exit. A CAUTION one calls the junction-map evaluator first and the
   * in-junction route once exactly when that call produced nothing; any
   * other priority calls only the in-junction route, once.
   */
  lemma JunctionChain(reg: Registry, routes: RouteTable, o: Obstacle, produced: bool)
    requires |o.history| > 0
    requires o.kind == Vehicle && o.hasJunctionFeatureWithExits && !o.isCloseToJunctionExit
    requires GetEvaluator(reg, JunctionMapEvaluator).Some? && GetEvaluator(reg, routes.vehicleInJunction).Some?
    ensures var r := EvaluateObstacle(reg, routes, o, produced);
            && r.missing.None?
            && (PriorityOf(o) == Caution ==>
                  && |r.calls| >= 1
                  && r.calls[0] == Call(JunctionMapEvaluator, false)
                  && (|r.calls| == 2 <==> !produced)
                  && (!produced ==> r.calls[1] == Call(routes.vehicleInJunction, false)))
            && (PriorityOf(o) != Caution ==> r.calls == [Call(routes.vehicleInJunction, false)])
  {
  }

  /** A CAUTION junction vehicle whose junction-map lookup is null aborts before any call. */
  lemma JunctionMapMissingAborts(reg: Registry, routes: RouteTable, o: Obstacle, produced: bool)
    requires |o.history| > 0 && ConsultsJunctionMap(o)
    requires GetEvaluator(reg, JunctionMapEvaluator).None?
    ensures EvaluateObstacle(reg, routes, o, produced) == Evaluation([], Some(JunctionMapEvaluator))
  {
  }

  /**
   * The remaining branches: an on-lane VEHICLE outside the junction branch
   * calls the vehicle-on-lane route once, with the dynamic environment
   * exactly when that instance is named lane scanning; a VEHICLE on neither
   * gets no call; an on-lane BICYCLE calls the cyclist route once; every
   * other category, PEDESTRIAN included, calls the default-on-lane route
   * once when on a lane; off-lane non-vehicles get no call. A null instance
   * for the route an on-lane obstacle needs aborts before any call.
   */
  lemma RemainingBranches(reg: Registry, routes: RouteTable, o: Obstacle, produced: bool)
    requires |o.history| > 0
    requires SituationOf(o) != ApproachingJunction
    ensures var r := EvaluateObstacle(reg, routes, o, produced);
            && (o.kind == Vehicle && o.isOnLane && GetEvaluator(reg, routes.vehicleOnLane).Some? ==>
                  r == Evaluation([Call(routes.vehicleOnLane,
                                        GetEvaluator(reg, routes.vehicleOnLane).value.name == LANE_SCANNING_NAME)], None))
            && (!o.isOnLane ==> r == Evaluation([], None))
            && (o.kind == Bicycle && o.isOnLane && GetEvaluator(reg, routes.cyclistOnLane).Some? ==>
                  r == Evaluation([Call(routes.cyclistOnLane, false)], None))
            && (o.kind !in {Vehicle, Bicycle} && o.isOnLane && GetEvaluator(reg, routes.defaultOnLane).Some? ==>
                  r == Evaluation([Call(routes.defaultOnLane, false)], None))
            && (o.kind == Vehicle && o.isOnLane && GetEvaluator(reg, routes.vehicleOnLane).None? ==>
                  r == Evaluation([], Some(routes.vehicleOnLane)))
            && (o.kind == Bicycle && o.isOnLane && GetEvaluator(reg, routes.cyclistOnLane).None? ==>
                  r == Evaluation([], Some(routes.cyclistOnLane)))
            && (o.kind !in {Vehicle, Bicycle} && o.isOnLane && GetEvaluator(reg, routes.defaultOnLane).None? ==>
                  r == Evaluation([], Some(routes.defaultOnLane)))
  {
  }

  /**
   * Pedestrian dispatch is disabled: the configured pedestrian route never
   * influences the calls, and an on-lane pedestrian is handled by the
   * default-on-lane route.
   */
  lemma PedestrianRouteUnused(reg: Registry, routes: RouteTable, o: Obstacle, produced: bool, other: EvaluatorType)
    requires |o.history| > 0
    ensures EvaluateObstacle(reg, routes, o, produced) == EvaluateObstacle(reg, routes.(pedestrian := other), o, produced)
    ensures o.kind == Pedestrian ==> RouteFor(routes, o.kind, SituationOf(o)) == (if o.isOnLane then Some(routes.defaultOnLane) else None)
  {
  }

  // ---------------------------------------------------------------------
  // Sequential evaluation of a list of obstacle ids.

  function Attribute(id: int, calls: seq<Call>): (r: seq<Invocation>)
    ensures |r| == |calls|
    ensures forall i :: 0 <= i < |r| ==> r[i] == Invocation(id, calls[i])
  {
    seq(|calls|, i requires 0 <= i < |calls| => Invocation(id, calls[i]))
  }

  /** Every id names a stored obstacle with a latest feature. */
  ghost predicate Evaluable(ids: seq<int>, obstacles: map<int, Obstacle>)
  {
    forall i :: 0 <= i < |ids| ==> ids[i] in obstacles && |obstacles[ids[i]].history| > 0
  }

  /** Evaluate each obstacle in order; the first abort ends the run. */
  function EvaluateSequence(reg: Registry, routes: RouteTable, ids: seq<int>, obstacles: map<int, Obstacle>,
                            junctionMapProduced: int -> bool): RunTrace
    requires Evaluable(ids, obstacles)
    decreases |ids|
  {
    if ids == [] then RunTrace([], None)
    else
      var prior := EvaluateSequence(reg, routes, ids[..|ids| - 1], obstacles, junctionMapProduced);
      if prior.missing.Some? then prior
      else
        var id := ids[|ids| - 1];
        var e := EvaluateObstacle(reg, routes, obstacles[id], junctionMapProduced(id));
        RunTrace(prior.invocations + Attribute(id, e.calls), e.missing)
  }

  /** Once a prefix has aborted, evaluating further obstacles changes nothing. */
  lemma {:induction false} AbortIsFinal(reg: Registry, routes: RouteTable, ids: seq<int>, n: nat,
                                        obstacles: map<int, Obstacle>, produced: int -> bool)
    requires Evaluable(ids, obstacles) && n <= |ids|
    requires EvaluateSequence(reg, routes, ids[..n], obstacles, produced).missing.Some?
    ensures EvaluateSequence(reg, routes, ids, obstacles, produced) == EvaluateSequence(reg, routes, ids[..n], obstacles, produced)
    decreases |ids| - n
  {
    if n < |ids| {
      var prefix := ids[..|ids| - 1];
      assert prefix[..n] == ids[..n];
      AbortIsFinal(reg, routes, prefix, n, obstacles, produced);
    } else {
      assert ids[..n] == ids;
    }
  }

  /**
   * With every route resolvable the run never aborts, each call is
   * attributed to an obstacle of the list, and at most two calls are made
   * per obstacle.
   */
  lemma {:induction false} SequenceCompletes(reg: Registry, routes: RouteTable, ids: seq<int>,
                                             obstacles: map<int, Obstacle>, produced: int -> bool)
    requires Evaluable(ids, obstacles) && Ready(reg, routes)
    ensures var t := EvaluateSequence(reg, routes, ids, obstacles, produced);
            && t.missing.None?
            && |t.invocations| <= 2 * |ids|
            && forall i :: 0 <= i < |t.invocations| ==> t.invocations[i].obstacleId in ids
    decreases |ids|
  {
    if ids != [] {
      var prefix := ids[..|ids| - 1];
      SequenceCompletes(reg, routes, prefix, obstacles, produced);
      var id := ids[|ids| - 1];
      var prior := EvaluateSequence(reg, routes, prefix, obstacles, produced);
      var e := EvaluateObstacle(reg, routes, obstacles[id], produced(id));
      assert e.missing.None?;
      var t := EvaluateSequence(reg, routes, ids, obstacles, produced);
      assert t.invocations == prior.invocations + Attribute(id, e.calls);
      forall i | 0 <= i < |t.invocations|
        ensures t.invocations[i].obstacleId in ids
      {
        if i < |prior.invocations| {
          var x := prior.invocations[i].obstacleId;
          assert x in prefix;
          var j :| 0 <= j < |prefix| && prefix[j] == x;
          assert ids[j] == x;
        } else {
          assert t.invocations[i].obstacleId == id;
        }
      }
    }
  }

  /** Each worker's trace is the sequential evaluation of its own bucket. */
  ghost predicate EachBucketEvaluated(reg: Registry, routes: RouteTable, buckets: map<int, seq<int>>,
                                      traces: map<int, RunTrace>, obstacles: map<int, Obstacle>, produced: int -> bool)
  {
    && traces.Keys == buckets.Keys
    && forall k :: k in buckets ==>
         Evaluable(buckets[k], obstacles) && traces[k] == EvaluateSequence(reg, routes, buckets[k], obstacles, produced)
  }
}
