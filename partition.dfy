/**
 * The multi-threaded path's partition of obstacle ids into worker buckets
 * (GroupObstaclesByObstacleId) and the filter of the single-threaded path.
 *
 * C++ `%` truncates toward zero, so the bucket function is written with an
 * explicit truncated remainder; the ranges it promises need a non-negative id.
 */
module Partition {
  import opened PredictionTypes

  function Abs(x: int): nat
  {
    if x < 0 then -x else x
  }

  /** C++ `a % b`: the remainder of truncated division, with the sign of `a`. */
  function CppRem(a: int, b: int): (r: int)
    requires b != 0
    ensures Abs(r) == Abs(a) % Abs(b)
    ensures a >= 0 ==> r >= 0
    ensures a < 0 ==> r <= 0
  {
    if a >= 0 then a % Abs(b) else -((-a) % Abs(b))
  }

  /** Both divisors GroupObstaclesByObstacleId uses are non-zero. */
  predicate DivisorsNonZero(cautionThreads: int, threads: int)
  {
    cautionThreads != 0 && threads - cautionThreads != 0
  }

  /**
   * The bucket of a non-IGNORE obstacle: CAUTION ids hash into the
   * caution-reserved slots [0, Cc), NORMAL ids into the rest [Cc, total).
   */
  function BucketOf(id: int, p: Priority, cautionThreads: int, threads: int): (r: int)
    requires p != Ignore && DivisorsNonZero(cautionThreads, threads)
    ensures 0 <= id && 0 < cautionThreads && p == Caution ==> 0 <= r < cautionThreads
    ensures 0 <= id && cautionThreads < threads && p == Normal ==> cautionThreads <= r < threads
  {
    if p == Caution then CppRem(id, cautionThreads)
    else CppRem(id, threads - cautionThreads) + cautionThreads
  }

  /**
   * The isolation of the two classes depends on `id >= 0`: with one caution
   * slot out of four, NORMAL obstacle -1 is hashed into caution bucket 0.
   */
  lemma NegativeNormalIdEntersCautionSlots()
    ensures BucketOf(-1, Normal, 1, 4) == 0
  {
  }

  /** The multi-threaded filter: present, moving and not IGNORE. */
  predicate Grouped(obstacles: map<int, Obstacle>, id: int)
  {
    id in obstacles && |obstacles[id].history| > 0 && !obstacles[id].isStill && PriorityOf(obstacles[id]) != Ignore
  }

  function BucketOfId(obstacles: map<int, Obstacle>, id: int, cautionThreads: int, threads: int): int
    requires Grouped(obstacles, id) && DivisorsNonZero(cautionThreads, threads)
  {
    BucketOf(id, PriorityOf(obstacles[id]), cautionThreads, threads)
  }

  /** The ids of `ids` that GroupObstaclesByObstacleId puts in bucket `k`, in order. */
  function BucketContents(ids: seq<int>, obstacles: map<int, Obstacle>, cautionThreads: int, threads: int, k: int): (r: seq<int>)
    requires DivisorsNonZero(cautionThreads, threads)
    ensures forall i :: 0 <= i < |r| ==> Grouped(obstacles, r[i])
    decreases |ids|
  {
    if ids == [] then []
    else
      var prior := BucketContents(ids[..|ids| - 1], obstacles, cautionThreads, threads, k);
      var id := ids[|ids| - 1];
      if Grouped(obstacles, id) && BucketOfId(obstacles, id, cautionThreads, threads) == k then prior + [id]
      else prior
  }

  /** `x` is in bucket `k` exactly when it is a grouped id of the list hashed to `k`. */
  lemma {:induction false} BucketMembers(ids: seq<int>, obstacles: map<int, Obstacle>, cautionThreads: int, threads: int,
                                         k: int, x: int)
    requires DivisorsNonZero(cautionThreads, threads)
    ensures x in BucketContents(ids, obstacles, cautionThreads, threads, k) <==>
              x in ids && Grouped(obstacles, x) && BucketOfId(obstacles, x, cautionThreads, threads) == k
    decreases |ids|
  {
    if ids != [] {
      var prefix := ids[..|ids| - 1];
      BucketMembers(prefix, obstacles, cautionThreads, threads, k, x);
      assert ids == prefix + [ids[|ids| - 1]];
    }
  }

  /** A grouped id keeps every one of its occurrences, all in its own bucket. */
  lemma {:induction false} BucketKeepsOccurrences(ids: seq<int>, obstacles: map<int, Obstacle>, cautionThreads: int,
                                                  threads: int, x: int)
    requires DivisorsNonZero(cautionThreads, threads) && Grouped(obstacles, x)
    ensures var k := BucketOfId(obstacles, x, cautionThreads, threads);
            multiset(BucketContents(ids, obstacles, cautionThreads, threads, k))[x] == multiset(ids)[x]
    decreases |ids|
  {
    if ids != [] {
      var prefix := ids[..|ids| - 1];
      BucketKeepsOccurrences(prefix, obstacles, cautionThreads, threads, x);
      assert ids == prefix + [ids[|ids| - 1]];
    }
  }

  /** Mutual exclusion: no id is in two different buckets. */
  lemma BucketsDisjoint(ids: seq<int>, obstacles: map<int, Obstacle>, cautionThreads: int, threads: int,
                        k1: int, k2: int, x: int)
    requires DivisorsNonZero(cautionThreads, threads) && k1 != k2
    ensures !(x in BucketContents(ids, obstacles, cautionThreads, threads, k1) &&
              x in BucketContents(ids, obstacles, cautionThreads, threads, k2))
  {
    BucketMembers(ids, obstacles, cautionThreads, threads, k1, x);
    BucketMembers(ids, obstacles, cautionThreads, threads, k2, x);
  }

  /**
   * Priority isolation: with non-negative ids and 0 < Cc < total, every
   * CAUTION obstacle is in a bucket of [0, Cc) and every NORMAL one in a
   * bucket of [Cc, total), so the two classes never share a bucket.
   */
  lemma PriorityIsolation(ids: seq<int>, obstacles: map<int, Obstacle>, cautionThreads: int, threads: int, k: int, x: int)
    requires 0 < cautionThreads < threads
    requires forall i :: 0 <= i < |ids| ==> ids[i] >= 0
    requires x in BucketContents(ids, obstacles, cautionThreads, threads, k)
    ensures x in obstacles && |obstacles[x].history| > 0
    ensures PriorityOf(obstacles[x]) == Caution ==> 0 <= k < cautionThreads
    ensures PriorityOf(obstacles[x]) == Normal ==> cautionThreads <= k < threads
    ensures PriorityOf(obstacles[x]) != Ignore && !obstacles[x].isStill
  {
  }

  /** The single-threaded filter: non-negative id, present and moving (IGNORE is kept). */
  predicate SequentiallyEvaluated(obstacles: map<int, Obstacle>, id: int)
  {
    id >= 0 && id in obstacles && !obstacles[id].isStill
  }

  function SequentialSelection(ids: seq<int>, obstacles: map<int, Obstacle>): (r: seq<int>)
    ensures forall i :: 0 <= i < |r| ==> SequentiallyEvaluated(obstacles, r[i])
    decreases |ids|
  {
    if ids == [] then []
    else
      var prior := SequentialSelection(ids[..|ids| - 1], obstacles);
      if SequentiallyEvaluated(obstacles, ids[|ids| - 1]) then prior + [ids[|ids| - 1]] else prior
  }

  /** The single-threaded path keeps, in order, exactly the ids its filter admits. */
  lemma {:induction false} SequentialSelectionMembers(ids: seq<int>, obstacles: map<int, Obstacle>)
    ensures var s := SequentialSelection(ids, obstacles);
            forall x :: x in s <==> x in ids && SequentiallyEvaluated(obstacles, x)
    decreases |ids|
  {
    if ids != [] {
      var prefix := ids[..|ids| - 1];
      SequentialSelectionMembers(prefix, obstacles);
      assert ids == prefix + [ids[|ids| - 1]];
    }
  }

  /** Filtering a prefix of the ids yields a prefix of the filtered ids. */
  lemma {:induction false} SequentialSelectionPrefix(ids: seq<int>, n: nat, obstacles: map<int, Obstacle>)
    requires n <= |ids|
    ensures var s := SequentialSelection(ids, obstacles);
            var p := SequentialSelection(ids[..n], obstacles);
            |p| <= |s| && s[..|p|] == p
    decreases |ids| - n
  {
    if n == |ids| {
      assert ids[..n] == ids;
    } else {
      var prefix := ids[..|ids| - 1];
      assert prefix[..n] == ids[..n];
      SequentialSelectionPrefix(prefix, n, obstacles);
    }
  }

  /** The bucket map GroupObstaclesByObstacleId builds from `ids`: exactly the non-empty bucket lists. */
  ghost predicate IsBucketMap(buckets: map<int, seq<int>>, ids: seq<int>, obstacles: map<int, Obstacle>,
                              cautionThreads: int, threads: int)
    requires DivisorsNonZero(cautionThreads, threads)
  {
    forall k :: (k in buckets <==> BucketContents(ids, obstacles, cautionThreads, threads, k) != [])
                && (k in buckets ==> buckets[k] == BucketContents(ids, obstacles, cautionThreads, threads, k))
  }

  /**
   * The two paths filter differently: a moving IGNORE obstacle with a
   * non-negative id is evaluated by the single-threaded path but put in no
   * bucket by the multi-threaded one.
   */
  lemma IgnoreOnlySequential(ids: seq<int>, obstacles: map<int, Obstacle>, cautionThreads: int, threads: int, x: int, k: int)
    requires DivisorsNonZero(cautionThreads, threads)
    requires x in ids && x >= 0 && x in obstacles && |obstacles[x].history| > 0
    requires !obstacles[x].isStill && PriorityOf(obstacles[x]) == Ignore
    ensures x in SequentialSelection(ids, obstacles)
    ensures x !in BucketContents(ids, obstacles, cautionThreads, threads, k)
  {
    SequentialSelectionMembers(ids, obstacles);
    BucketMembers(ids, obstacles, cautionThreads, threads, k, x);
  }

  /** IdObstacleListMap: bucket number to the ids queued for that worker. */
  class IdObstacleListMap {
    var lists: map<int, seq<int>>

    constructor ()
      ensures lists == map[]
    {
      lists := map[];
    }

    /** The list of bucket `k`, empty when the bucket was never created. */
    function ListAt(k: int): seq<int>
      reads this
    {
      if k in lists then lists[k] else []
    }
  }

  /**
   * GroupObstaclesByObstacleId: a null, still or IGNORE obstacle leaves
   * every bucket as it was; otherwise its bucket gets the id appended at its
   * end and every other bucket is unchanged.
   */
  method GroupObstaclesByObstacleId(id: int, obstacles: map<int, Obstacle>, cautionThreads: int, threads: int,
                                    m: IdObstacleListMap)
    requires WellFormed(obstacles) && DivisorsNonZero(cautionThreads, threads)
    modifies m
    ensures !Grouped(obstacles, id) ==> m.lists == old(m.lists)
    ensures Grouped(obstacles, id) ==>
              var b := BucketOfId(obstacles, id, cautionThreads, threads);
              && b in m.lists
              && m.lists[b] == old(m.ListAt(b)) + [id]
              && forall k :: k != b ==> (k in m.lists <==> k in old(m.lists)) && m.ListAt(k) == old(m.ListAt(k))
  {
    if id !in obstacles {
      return;
    }
    var o := obstacles[id];
    if o.isStill {
      return;
    }
    var feature := LatestFeature(o);
    if feature.priority == Ignore {
      return;
    } else if feature.priority == Caution {
      var idMod := CppRem(id, cautionThreads);
      m.lists := m.lists[idMod := m.ListAt(idMod) + [id]];
    } else {
      var normalThreadNum := threads - cautionThreads;
      var idMod := CppRem(id, normalThreadNum) + cautionThreads;
      m.lists := m.lists[idMod := m.ListAt(idMod) + [id]];
    }
  }
}
