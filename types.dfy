/**
 * Values shared by the prediction evaluator dispatcher: the perception
 * categories, priorities and evaluator kinds it switches on, the feature
 * snapshots an obstacle carries, and the obstacle container it borrows.
 */
module PredictionTypes {

  datatype Option<+T> = None | Some(value: T)

  /** The perception obstacle categories (PerceptionObstacle::Type). */
  datatype ObstacleType =
    | Unknown
    | UnknownMovable
    | UnknownUnmovable
    | Pedestrian
    | Bicycle
    | Vehicle

  /** ObstaclePriority::Priority. */
  datatype Priority = Caution | Normal | Ignore

  /**
   * ObstacleConf::EvaluatorType. The nine kinds the factory knows, plus
   * any other enumerator value, which the factory does not support.
   */
  datatype EvaluatorType =
    | MlpEvaluator
    | RnnEvaluator
    | CostEvaluator
    | CruiseMlpEvaluator
    | JunctionMlpEvaluator
    | CyclistKeepLaneEvaluator
    | LaneScanningEvaluator
    | PedestrianInteractionEvaluator
    | JunctionMapEvaluator
    | OtherEvaluator(code: int)

  /** The prediction offline mode flag (PredictionConstants). */
  datatype OfflineMode = Online | DumpDataForLearning | DumpFrameEnv | OtherOfflineMode(code: int)

  /** An opaque position or polygon vertex; its coordinates are only copied. */
  datatype Point = Point(x: real, y: real, z: real)

  /** One timestamped snapshot of an obstacle (the fields this core reads). */
  datatype Feature = Feature(
    id: int,
    timestamp: real,
    position: Point,
    velocityHeading: real,
    polygon: seq<Point>,
    length: real,
    width: real,
    priority: Priority,
    isStill: bool,
    kind: ObstacleType)

  /**
   * A tracked obstacle as the dispatcher sees it: its category, the motion
   * predicates it answers (computed elsewhere), and its feature history with
   * the most recent feature at index 0, so `feature(i)` is `history[i]`.
   */
  datatype Obstacle = Obstacle(
    kind: ObstacleType,
    isStill: bool,
    hasJunctionFeatureWithExits: bool,
    isCloseToJunctionExit: bool,
    isOnLane: bool,
    history: seq<Feature>)

  function LatestFeature(o: Obstacle): Feature
    requires |o.history| > 0
  {
    o.history[0]
  }

  function PriorityOf(o: Obstacle): Priority
    requires |o.history| > 0
  {
    LatestFeature(o).priority
  }

  /** Every stored obstacle has a latest feature (latest_feature() aborts otherwise). */
  ghost predicate WellFormed(obstacles: map<int, Obstacle>)
  {
    forall id :: id in obstacles ==> |obstacles[id].history| > 0
  }

  /** The per-cycle obstacle container: lookup by id and the id lists it reports. */
  datatype ObstaclesContainer = ObstaclesContainer(
    obstacles: map<int, Obstacle>,
    consideredIds: seq<int>,
    movableIds: seq<int>,
    timestamp: real)

  /** A non-empty set of ids has a member to pick (for loops that drain a key set). */
  lemma NonEmptyHasMember(s: set<int>)
    requires s != {}
    ensures exists x :: x in s
  {
    if forall x :: x !in s {
      assert false;
    }
  }
}
