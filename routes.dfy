/**
 * Route resolution at configuration time: the list of obstacle_conf entries
 * is folded into five route fields. This module gives the fold as a table
 * (which field an entry targets and which value it writes); the manager's
 * Init loop is proved to compute it.
 */
module RouteResolution {
  import opened PredictionTypes

  /** ObstacleConf::ObstacleStatus. */
  datatype ObstacleStatus = OnLane | OffLane | Stationary | Moving | InJunction

  /** One obstacle_conf entry; each optional protobuf field may be absent. */
  datatype ObstacleConf = ObstacleConf(
    obstacleType: Option<ObstacleType>,
    obstacleStatus: Option<ObstacleStatus>,
    evaluatorType: Option<EvaluatorType>)

  /** The five route member fields of the manager. */
  datatype RouteTable = RouteTable(
    vehicleOnLane: EvaluatorType,
    vehicleInJunction: EvaluatorType,
    cyclistOnLane: EvaluatorType,
    pedestrian: EvaluatorType,
    defaultOnLane: EvaluatorType)

  datatype RouteField =
    | VehicleOnLaneRoute
    | VehicleInJunctionRoute
    | CyclistOnLaneRoute
    | PedestrianRoute
    | DefaultOnLaneRoute

  function Route(t: RouteTable, f: RouteField): EvaluatorType
  {
    match f
    case VehicleOnLaneRoute => t.vehicleOnLane
    case VehicleInJunctionRoute => t.vehicleInJunction
    case CyclistOnLaneRoute => t.cyclistOnLane
    case PedestrianRoute => t.pedestrian
    case DefaultOnLaneRoute => t.defaultOnLane
  }

  /** The table with one field replaced and the other four kept. */
  function WithRoute(t: RouteTable, f: RouteField, v: EvaluatorType): (r: RouteTable)
    ensures Route(r, f) == v
    ensures forall g :: g != f ==> Route(r, g) == Route(t, g)
  {
    match f
    case VehicleOnLaneRoute => t.(vehicleOnLane := v)
    case VehicleInJunctionRoute => t.(vehicleInJunction := v)
    case CyclistOnLaneRoute => t.(cyclistOnLane := v)
    case PedestrianRoute => t.(pedestrian := v)
    case DefaultOnLaneRoute => t.(defaultOnLane := v)
  }

  /** An entry is considered only when type, evaluator and status are all present. */
  predicate Complete(c: ObstacleConf)
  {
    c.obstacleType.Some? && c.evaluatorType.Some? && c.obstacleStatus.Some?
  }

  /** The route field a configuration entry writes, if any. */
  function Target(c: ObstacleConf): (r: Option<RouteField>)
    ensures r.Some? <==>
              && Complete(c)
              && (|| c.obstacleType.value == Pedestrian
                  || (c.obstacleType.value in {Vehicle, Bicycle, Unknown} && c.obstacleStatus.value == OnLane)
                  || (c.obstacleType.value == Vehicle && c.obstacleStatus.value == InJunction))
    ensures Complete(c) && c.obstacleType.value == Vehicle && c.obstacleStatus.value == OnLane ==>
              r == Some(VehicleOnLaneRoute)
    ensures Complete(c) && c.obstacleType.value == Vehicle && c.obstacleStatus.value == InJunction ==>
              r == Some(VehicleInJunctionRoute)
    ensures Complete(c) && c.obstacleType.value == Bicycle && c.obstacleStatus.value == OnLane ==>
              r == Some(CyclistOnLaneRoute)
    ensures Complete(c) && c.obstacleType.value == Pedestrian ==> r == Some(PedestrianRoute)
    ensures Complete(c) && c.obstacleType.value == Unknown && c.obstacleStatus.value == OnLane ==>
              r == Some(DefaultOnLaneRoute)
  {
    if !Complete(c) then None
    else
      var status := c.obstacleStatus.value;
      match c.obstacleType.value
      case Vehicle =>
        if status == OnLane then Some(VehicleOnLaneRoute)
        else if status == InJunction then Some(VehicleInJunctionRoute)
        else None
      case Bicycle => if status == OnLane then Some(CyclistOnLaneRoute) else None
      case Pedestrian => Some(PedestrianRoute)
      case Unknown => if status == OnLane then Some(DefaultOnLaneRoute) else None
      case _ => None
  }

  /** The value an entry writes into its target field, overrides included. */
  function WrittenValue(c: ObstacleConf, mode: OfflineMode): EvaluatorType
    requires Target(c).Some?
  {
    match Target(c).value
    case VehicleOnLaneRoute =>
      if mode == DumpDataForLearning then LaneScanningEvaluator else c.evaluatorType.value
    case PedestrianRoute => PedestrianInteractionEvaluator
    case _ => c.evaluatorType.value
  }

  /** The effect of one entry on the route table. */
  function ApplyConf(t: RouteTable, c: ObstacleConf, mode: OfflineMode): (r: RouteTable)
    ensures !Complete(c) ==> r == t
    ensures forall f, g :: f != g && Route(r, f) != Route(t, f) ==> Route(r, g) == Route(t, g)
  {
    if Target(c).None? then t else WithRoute(t, Target(c).value, WrittenValue(c, mode))
  }

  /** The route table after processing the entries in order. */
  function ResolveRoutes(t: RouteTable, confs: seq<ObstacleConf>, mode: OfflineMode): RouteTable
    decreases |confs|
  {
    if confs == [] then t
    else ApplyConf(ResolveRoutes(t, confs[..|confs| - 1], mode), confs[|confs| - 1], mode)
  }

  /** A field no entry targets keeps its initial value. */
  lemma {:induction false} UntargetedFieldKept(t: RouteTable, confs: seq<ObstacleConf>, mode: OfflineMode, f: RouteField)
    requires forall k :: 0 <= k < |confs| ==> Target(confs[k]) != Some(f)
    ensures Route(ResolveRoutes(t, confs, mode), f) == Route(t, f)
    decreases |confs|
  {
    if confs != [] {
      var prefix := confs[..|confs| - 1];
      assert forall k :: 0 <= k < |prefix| ==> prefix[k] == confs[k];
      UntargetedFieldKept(t, prefix, mode, f);
    }
  }

  /** The last entry that targets a field decides its final value. */
  lemma {:induction false} LastWriteWins(t: RouteTable, confs: seq<ObstacleConf>, mode: OfflineMode, f: RouteField, j: nat)
    requires j < |confs| && Target(confs[j]) == Some(f)
    requires forall k :: j < k < |confs| ==> Target(confs[k]) != Some(f)
    ensures Route(ResolveRoutes(t, confs, mode), f) == WrittenValue(confs[j], mode)
    decreases |confs|
  {
    var prefix := confs[..|confs| - 1];
    assert forall k :: 0 <= k < |prefix| ==> prefix[k] == confs[k];
    if j < |confs| - 1 {
      LastWriteWins(t, prefix, mode, f, j);
    }
  }

  /**
   * In the data-for-learning mode, once any considered VEHICLE/ON_LANE entry
   * exists the vehicle-on-lane route ends as the lane-scanning evaluator.
   */
  lemma {:induction false} LearningModeForcesLaneScanning(t: RouteTable, confs: seq<ObstacleConf>, j: nat)
    requires j < |confs| && Target(confs[j]) == Some(VehicleOnLaneRoute)
    ensures ResolveRoutes(t, confs, DumpDataForLearning).vehicleOnLane == LaneScanningEvaluator
    decreases |confs|
  {
    var prefix := confs[..|confs| - 1];
    if Target(confs[|confs| - 1]) != Some(VehicleOnLaneRoute) {
      assert prefix[j] == confs[j];
      LearningModeForcesLaneScanning(t, prefix, j);
    }
  }

  /**
   * Whatever evaluator a considered PEDESTRIAN entry names, the pedestrian
   * route ends as the pedestrian-interaction evaluator.
   */
  lemma {:induction false} PedestrianRouteFixed(t: RouteTable, confs: seq<ObstacleConf>, mode: OfflineMode, j: nat)
    requires j < |confs| && Target(confs[j]) == Some(PedestrianRoute)
    ensures ResolveRoutes(t, confs, mode).pedestrian == PedestrianInteractionEvaluator
    decreases |confs|
  {
    var prefix := confs[..|confs| - 1];
    if Target(confs[|confs| - 1]) != Some(PedestrianRoute) {
      assert prefix[j] == confs[j];
      PedestrianRouteFixed(t, prefix, mode, j);
    }
  }

  /**
   * If the initial routes and every evaluator a considered entry names are
   * kinds the factory supports, so is every resolved route.
   */
  lemma {:induction false} ResolvedRoutesSupported(
    t: RouteTable, confs: seq<ObstacleConf>, mode: OfflineMode, supported: set<EvaluatorType>)
    requires LaneScanningEvaluator in supported && PedestrianInteractionEvaluator in supported
    requires forall f :: Route(t, f) in supported
    requires forall k :: 0 <= k < |confs| && Complete(confs[k]) ==> confs[k].evaluatorType.value in supported
    ensures forall f :: Route(ResolveRoutes(t, confs, mode), f) in supported
    decreases |confs|
  {
    if confs != [] {
      var prefix := confs[..|confs| - 1];
      assert forall k :: 0 <= k < |prefix| ==> prefix[k] == confs[k];
      ResolvedRoutesSupported(t, prefix, mode, supported);
    }
  }
}
