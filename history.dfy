/**
 * The trailing-history snapshot: BuildObstacleIdHistoryMap's map from
 * obstacle id to at most ten reduced features plus a trainable flag, and
 * the FrameEnv that DumpCurrentFrameEnv splits it into.
 */
module History {
  import opened PredictionTypes

  const MAX_HISTORY_FRAMES: nat := 10

  /** A reduced copy of a Feature: the fields the snapshot keeps. */
  datatype HistoryFeature = HistoryFeature(
    id: int,
    timestamp: real,
    position: Point,
    theta: real,
    polygon: seq<Point>,
    length: real,
    width: real)

  datatype ObstacleHistory = ObstacleHistory(features: seq<HistoryFeature>, isTrainable: bool)

  /** The ego vehicle's extents, from the vehicle configuration. */
  datatype VehicleParam = VehicleParam(length: real, width: real)

  datatype FrameEnv = FrameEnv(
    timestamp: real,
    egoHistory: Option<ObstacleHistory>,
    obstaclesHistory: seq<ObstacleHistory>)

  /** IsTrainable: only a moving, non-IGNORE VEHICLE other than the ego vehicle. */
  function IsTrainable(f: Feature, egoId: int): (r: bool)
    ensures f.id == egoId ==> !r
    ensures r <==> f.id != egoId && f.priority != Ignore && !f.isStill && f.kind == Vehicle
  {
    if f.id == egoId then false
    else if f.priority == Ignore || f.isStill || f.kind != Vehicle then false
    else true
  }

  /** The copy of one feature; the ego vehicle's shape comes from its configuration. */
  function Reduce(f: Feature, egoId: int, ego: VehicleParam): HistoryFeature
  {
    if f.id != egoId then
      HistoryFeature(f.id, f.timestamp, f.position, f.velocityHeading, f.polygon, f.length, f.width)
    else
      HistoryFeature(f.id, f.timestamp, f.position, f.velocityHeading, [], ego.length, ego.width)
  }

  function Min(a: nat, b: nat): nat
  {
    if a < b then a else b
  }

  function FrameCount(o: Obstacle): nat
  {
    Min(MAX_HISTORY_FRAMES, |o.history|)
  }

  /** Reduced copies of `feature(0)` .. `feature(n - 1)`, in index order. */
  function Snapshot(o: Obstacle, n: nat, egoId: int, ego: VehicleParam): (r: seq<HistoryFeature>)
    requires n <= |o.history|
    ensures |r| == n
    ensures forall i :: 0 <= i < n ==>
              var g := o.history[i];
              && r[i].id == g.id && r[i].timestamp == g.timestamp
              && r[i].position == g.position && r[i].theta == g.velocityHeading
              && (g.id != egoId ==> r[i].polygon == g.polygon && r[i].length == g.length && r[i].width == g.width)
              && (g.id == egoId ==> r[i].polygon == [] && r[i].length == ego.length && r[i].width == ego.width)
  {
    seq(n, i requires 0 <= i < n => Reduce(o.history[i], egoId, ego))
  }

  /** An id gets an entry only when its obstacle exists and has a history. */
  predicate Recorded(obstacles: map<int, Obstacle>, id: int)
  {
    id in obstacles && |obstacles[id].history| > 0
  }

  function EntryOf(m: map<int, ObstacleHistory>, id: int): ObstacleHistory
  {
    if id in m then m[id] else ObstacleHistory([], false)
  }

  /** The effect of visiting one id on the history map. */
  function Visit(m: map<int, ObstacleHistory>, id: int, obstacles: map<int, Obstacle>, egoId: int,
                 ego: VehicleParam): map<int, ObstacleHistory>
  {
    if !Recorded(obstacles, id) then m
    else
      var o := obstacles[id];
      m[id := ObstacleHistory(EntryOf(m, id).features + Snapshot(o, FrameCount(o), egoId, ego),
                              IsTrainable(LatestFeature(o), egoId))]
  }

  /** The history map after visiting `ids` in order, starting from the cleared map. */
  function BuildHistory(ids: seq<int>, obstacles: map<int, Obstacle>, egoId: int, ego: VehicleParam): map<int, ObstacleHistory>
    decreases |ids|
  {
    if ids == [] then map[]
    else Visit(BuildHistory(ids[..|ids| - 1], obstacles, egoId, ego), ids[|ids| - 1], obstacles, egoId, ego)
  }

  /** The ids BuildObstacleIdHistoryMap visits: the movable ids, then the ego id. */
  function VisitOrder(c: ObstaclesContainer, egoId: int): seq<int>
  {
    c.movableIds + [egoId]
  }

  ghost predicate Distinct(ids: seq<int>)
  {
    forall i, j :: 0 <= i < j < |ids| ==> ids[i] != ids[j]
  }

  /** The map has an entry exactly for the visited ids with a non-empty history. */
  lemma {:induction false} HistoryKeys(ids: seq<int>, obstacles: map<int, Obstacle>, egoId: int, ego: VehicleParam)
    ensures forall id :: id in BuildHistory(ids, obstacles, egoId, ego) <==> id in ids && Recorded(obstacles, id)
    decreases |ids|
  {
    if ids != [] {
      var prefix := ids[..|ids| - 1];
      HistoryKeys(prefix, obstacles, egoId, ego);
      assert ids == prefix + [ids[|ids| - 1]];
    }
  }

  /**
   * With every id visited once, each entry holds the reduced copies of
   * `feature(0)` .. `feature(min(10, history_size) - 1)` in index order, and
   * the trainable flag of the latest feature.
   */
  lemma {:induction false} HistoryEntries(ids: seq<int>, obstacles: map<int, Obstacle>, egoId: int, ego: VehicleParam)
    requires Distinct(ids)
    ensures var m := BuildHistory(ids, obstacles, egoId, ego);
            forall id :: id in m ==>
              && Recorded(obstacles, id)
              && m[id] == ObstacleHistory(Snapshot(obstacles[id], FrameCount(obstacles[id]), egoId, ego),
                                          IsTrainable(LatestFeature(obstacles[id]), egoId))
    decreases |ids|
  {
    if ids != [] {
      var prefix := ids[..|ids| - 1];
      var last := ids[|ids| - 1];
      assert Distinct(prefix);
      HistoryEntries(prefix, obstacles, egoId, ego);
      HistoryKeys(prefix, obstacles, egoId, ego);
      assert last !in prefix;
    }
  }

  /** History bound: with distinct visited ids no entry holds more than ten features. */
  lemma HistoryBounded(ids: seq<int>, obstacles: map<int, Obstacle>, egoId: int, ego: VehicleParam)
    requires Distinct(ids)
    ensures var m := BuildHistory(ids, obstacles, egoId, ego);
            forall id :: id in m ==> 0 < |m[id].features| <= MAX_HISTORY_FRAMES
  {
    HistoryEntries(ids, obstacles, egoId, ego);
  }

  /**
   * With distinct movable ids that do not include the ego id, the visit
   * order has no repeats, so every entry of the map holds 1 to 10 features.
   */
  lemma VisitOrderBounded(c: ObstaclesContainer, egoId: int, ego: VehicleParam)
    requires Distinct(c.movableIds) && egoId !in c.movableIds
    ensures var m := BuildHistory(VisitOrder(c, egoId), c.obstacles, egoId, ego);
            forall id :: id in m ==> 0 < |m[id].features| <= MAX_HISTORY_FRAMES
  {
    var order := VisitOrder(c, egoId);
    forall i, j | 0 <= i < j < |order|
      ensures order[i] != order[j]
    {
      if j == |order| - 1 {
        assert order[i] == c.movableIds[i];
      }
    }
    HistoryBounded(order, c.obstacles, egoId, ego);
  }

  /** Every feature stored under an id is the reduced copy of a feature of that obstacle. */
  ghost predicate CopiedFrom(m: map<int, ObstacleHistory>, obstacles: map<int, Obstacle>, egoId: int, ego: VehicleParam)
  {
    forall id, f :: id in m && f in m[id].features ==>
      id in obstacles && exists g :: g in obstacles[id].history && f == Reduce(g, egoId, ego)
  }

  lemma {:induction false} HistoryCopied(ids: seq<int>, obstacles: map<int, Obstacle>, egoId: int, ego: VehicleParam)
    ensures CopiedFrom(BuildHistory(ids, obstacles, egoId, ego), obstacles, egoId, ego)
    decreases |ids|
  {
    if ids != [] {
      var prefix := ids[..|ids| - 1];
      HistoryCopied(prefix, obstacles, egoId, ego);
      var last := ids[|ids| - 1];
      var pm := BuildHistory(prefix, obstacles, egoId, ego);
      if Recorded(obstacles, last) {
        var o := obstacles[last];
        var snap := Snapshot(o, FrameCount(o), egoId, ego);
        forall f | f in snap
          ensures exists g :: g in o.history && f == Reduce(g, egoId, ego)
        {
          var i :| 0 <= i < |snap| && snap[i] == f;
          assert o.history[i] in o.history;
        }
        assert forall f :: f in EntryOf(pm, last).features + snap ==> f in EntryOf(pm, last).features || f in snap;
      }
    }
  }

  /**
   * Every feature copied from a feature whose id is the ego id carries the
   * configured ego extents and no polygon; every other carries the polygon
   * and extents of the feature it was copied from.
   */
  lemma HistoryShapes(ids: seq<int>, obstacles: map<int, Obstacle>, egoId: int, ego: VehicleParam)
    ensures var m := BuildHistory(ids, obstacles, egoId, ego);
            forall id, f :: id in m && f in m[id].features && f.id == egoId ==>
              f.polygon == [] && f.length == ego.length && f.width == ego.width
    ensures var m := BuildHistory(ids, obstacles, egoId, ego);
            forall id, f :: id in m && f in m[id].features && f.id != egoId ==>
              id in obstacles &&
              exists g :: g in obstacles[id].history && g.id == f.id && g.timestamp == f.timestamp &&
                          f.polygon == g.polygon && f.length == g.length && f.width == g.width
  {
  }

  /**
   * DumpCurrentFrameEnv's split, given the order in which it visited the
   * map: the ego entry, if any, becomes the ego history; every other entry
   * appears once among the obstacle histories, and nothing else does.
   */
  ghost predicate SplitsHistory(env: FrameEnv, m: map<int, ObstacleHistory>, egoId: int, timestamp: real, order: seq<int>)
  {
    && env.timestamp == timestamp
    && env.egoHistory == (if egoId in m then Some(m[egoId]) else None)
    && |order| == |env.obstaclesHistory|
    && Distinct(order)
    && (forall id :: id in order <==> id in m && id != egoId)
    && (forall i :: 0 <= i < |order| ==> order[i] in m && env.obstaclesHistory[i] == m[order[i]])
  }

  /** A list of distinct ids has as many elements as the set of its ids. */
  lemma {:induction false} DistinctCount(ids: seq<int>)
    requires Distinct(ids)
    ensures |set x | x in ids| == |ids|
    decreases |ids|
  {
    if ids != [] {
      var prefix := ids[..|ids| - 1];
      var last := ids[|ids| - 1];
      assert Distinct(prefix);
      DistinctCount(prefix);
      assert last !in prefix;
      assert (set x | x in ids) == (set x | x in prefix) + {last};
    }
  }

  /**
   * A split frame holds exactly one obstacle history per non-ego entry of
   * the map, each of them the value of such an entry.
   */
  lemma SplitCounts(env: FrameEnv, m: map<int, ObstacleHistory>, egoId: int, timestamp: real, order: seq<int>)
    requires SplitsHistory(env, m, egoId, timestamp, order)
    ensures |env.obstaclesHistory| == |m.Keys - {egoId}|
    ensures forall h :: h in env.obstaclesHistory ==> h in (m - {egoId}).Values
  {
    DistinctCount(order);
    var ids := set x | x in order;
    forall x
      ensures x in ids <==> x in m.Keys - {egoId}
    {
    }
    assert ids == m.Keys - {egoId};
    forall h | h in env.obstaclesHistory
      ensures h in (m - {egoId}).Values
    {
      var i :| 0 <= i < |env.obstaclesHistory| && env.obstaclesHistory[i] == h;
      var id := order[i];
      assert id in order;
      assert id in (m - {egoId}) && (m - {egoId})[id] == h;
    }
  }
}
