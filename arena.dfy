/**
 * What both robots know of the arena: points, the per-opponent record kept in the
 * enemy map, the host readings a decision uses, and the scans over the enemy map
 * that both robots perform (fresh count with nearest distance, and nearest target).
 */
module Arena {
  import opened Wrappers

  datatype Point = Point(x: real, y: real)

  /** One opponent as last scanned (the Enemy / EnemyBot records of the two robots). */
  datatype Enemy = Enemy(pos: Point, energy: real, heading: real, velocity: real, lastSeen: int)

  /** Host readings: own position and energy, the clock (`getTime`), arena width and height. */
  datatype Snapshot = Snapshot(me: Point, energy: real, time: int, width: real, height: real)

  /** The host's distance function (`Point2D.distance`), taken as given. */
  type Metric = (Point, Point) -> real

  /** The enemy map of a robot: scanned name to last record. */
  type Enemies = map<string, Enemy>

  /**
   * What the host reports about one opponent: a scan of it (its position, energy,
   * heading and velocity), or its death.
   */
  datatype Sighting =
    | Scanned(name: string, pos: Point, energy: real, heading: real, velocity: real)
    | RobotDied(name: string)

  /**
   * The enemy-table update of `onScannedRobot` and `onRobotDeath` at clock `now`: a
   * scan inserts or overwrites the scanned name's record, stamped as last seen at
   * `now`; a death removes that name; no other name is touched.
   */
  function Track(enemies: Enemies, s: Sighting, now: int): (t: Enemies)
    ensures s.Scanned? ==> s.name in t && t[s.name] == Enemy(s.pos, s.energy, s.heading, s.velocity, now)
    ensures s.RobotDied? ==> s.name !in t
    ensures forall m :: m != s.name ==> (m in t <==> m in enemies)
    ensures forall m :: m != s.name && m in enemies ==> t[m] == enemies[m]
  {
    match s
    case Scanned(name, pos, energy, heading, velocity) => enemies[name := Enemy(pos, energy, heading, velocity, now)]
    case RobotDied(name) => enemies - {name}
  }

  /** The staleness test: an enemy not seen for more than `window` ticks is skipped. */
  predicate IsFresh(e: Enemy, now: int, window: int) {
    now - e.lastSeen <= window
  }

  /** The fresh enemies among `names`. */
  ghost function FreshAmong(enemies: Enemies, names: set<string>, now: int, window: int): set<string> {
    set n | n in names && n in enemies && IsFresh(enemies[n], now, window)
  }

  /** All fresh enemies. */
  ghost function FreshNames(enemies: Enemies, now: int, window: int): set<string> {
    FreshAmong(enemies, enemies.Keys, now, window)
  }

  /** The least element of a non-empty finite set of reals. */
  ghost function SetMin(s: set<real>): (m: real)
    requires s != {}
    ensures m in s
    ensures forall y :: y in s ==> m <= y
    decreases s
  {
    Inhabited(s);
    var x :| x in s;
    if s == {x} then x
    else
      var r := SetMin(s - {x});
      assert forall y :: y in s ==> y == x || y in s - {x};
      if x <= r then x else r
  }

  /** A non-empty set has an element. */
  lemma Inhabited(s: set<real>)
    requires s != {}
    ensures exists y :: y in s
  {
    if forall y :: y !in s {
      assert false;
    }
  }

  /** Distance from `me` to the nearest fresh enemy, None when no enemy is fresh. */
  ghost function NearestDistance(enemies: Enemies, me: Point, now: int, window: int, dist: Metric): (d: Option<real>)
    ensures d.None? <==> FreshNames(enemies, now, window) == {}
    ensures d.Some? ==> exists n :: n in FreshNames(enemies, now, window) && dist(enemies[n].pos, me) == d.value
    ensures d.Some? ==> forall n :: n in FreshNames(enemies, now, window) ==> d.value <= dist(enemies[n].pos, me)
  {
    var ds := set n | n in FreshNames(enemies, now, window) :: dist(enemies[n].pos, me);
    assert forall n :: n in FreshNames(enemies, now, window) ==> dist(enemies[n].pos, me) in ds;
    if ds == {} then None else Some(SetMin(ds))
  }

  /**
   * The loop heading `buildState` and `getState`: over the enemy map (in whatever
   * order the map yields), count the fresh enemies and track the least distance.
   */
  method CountAndNearest(enemies: Enemies, me: Point, now: int, window: int, dist: Metric)
    returns (count: nat, nearest: Option<real>)
    ensures count == |FreshNames(enemies, now, window)|
    ensures nearest == NearestDistance(enemies, me, now, window, dist)
  {
    count, nearest := 0, None;
    var rest := enemies.Keys;
    ghost var seen: set<string> := {};
    ghost var who: string := "";
    while rest != {}
      invariant seen <= enemies.Keys && rest == enemies.Keys - seen
      invariant count == |FreshAmong(enemies, seen, now, window)|
      invariant nearest.None? <==> FreshAmong(enemies, seen, now, window) == {}
      invariant nearest.Some? ==>
        who in FreshAmong(enemies, seen, now, window) && dist(enemies[who].pos, me) == nearest.value
      invariant nearest.Some? ==>
        forall n :: n in FreshAmong(enemies, seen, now, window) ==> nearest.value <= dist(enemies[n].pos, me)
      decreases rest
    {
      var name :| name in rest;
      var e := enemies[name];
      FreshAmongGrows(enemies, seen, name, now, window);
      if IsFresh(e, now, window) {
        count := count + 1;
        var d := dist(e.pos, me);
        if nearest.None? || d < nearest.value {
          nearest := Some(d);
          who := name;
        }
      }
      rest := rest - {name};
      seen := seen + {name};
    }
    assert seen == enemies.Keys;
    if nearest.Some? {
      NearestDistanceIs(enemies, me, now, window, dist, who);
    }
  }

  /** Visiting one more name adds it to the fresh set exactly when it is fresh. */
  lemma FreshAmongGrows(enemies: Enemies, seen: set<string>, name: string, now: int, window: int)
    requires name in enemies && name !in seen
    ensures IsFresh(enemies[name], now, window) ==>
      FreshAmong(enemies, seen + {name}, now, window) == FreshAmong(enemies, seen, now, window) + {name}
      && |FreshAmong(enemies, seen + {name}, now, window)| == |FreshAmong(enemies, seen, now, window)| + 1
    ensures !IsFresh(enemies[name], now, window) ==>
      FreshAmong(enemies, seen + {name}, now, window) == FreshAmong(enemies, seen, now, window)
  {
  }

  /** A fresh enemy no farther than any other fresh enemy gives the nearest distance. */
  lemma NearestDistanceIs(enemies: Enemies, me: Point, now: int, window: int, dist: Metric, who: string)
    requires who in FreshNames(enemies, now, window)
    requires forall n :: n in FreshNames(enemies, now, window) ==> dist(enemies[who].pos, me) <= dist(enemies[n].pos, me)
    ensures NearestDistance(enemies, me, now, window, dist) == Some(dist(enemies[who].pos, me))
  {
    var expected := NearestDistance(enemies, me, now, window, dist);
    var other :| other in FreshNames(enemies, now, window) && dist(enemies[other].pos, me) == expected.value;
    assert dist(enemies[who].pos, me) <= dist(enemies[other].pos, me);
  }

  /**
   * The loop of `getBestTarget` and `getNearestEnemy`: the name of a fresh enemy at
   * least distance, None when no enemy is fresh. A later enemy replaces the current
   * choice only when strictly nearer, so among equally near enemies the first one in
   * the map's iteration order wins; `visit` is that order.
   */
  method NearestFresh(enemies: Enemies, me: Point, now: int, window: int, dist: Metric)
    returns (target: Option<string>, ghost visit: seq<string>)
    ensures target.None? <==> FreshNames(enemies, now, window) == {}
    ensures target.Some? ==> target.value in FreshNames(enemies, now, window)
    ensures target.Some? ==> forall n :: n in FreshNames(enemies, now, window) ==>
      dist(enemies[target.value].pos, me) <= dist(enemies[n].pos, me)
    ensures forall n :: n in enemies <==> n in visit
    ensures forall i, j :: 0 <= i < j < |visit| ==> visit[i] != visit[j]
    ensures target.Some? ==>
      exists k :: 0 <= k < |visit| && visit[k] == target.value &&
        (forall j :: 0 <= j < k && IsFresh(enemies[visit[j]], now, window) ==>
          dist(enemies[visit[j]].pos, me) > dist(enemies[target.value].pos, me))
  {
    target := None;
    var bestDist: real := 0.0;
    var rest := enemies.Keys;
    visit := [];
    ghost var at: nat := 0;
    while rest != {}
      invariant rest <= enemies.Keys
      invariant forall n :: n in enemies ==> (n in visit <==> n !in rest)
      invariant forall n :: n in visit ==> n in enemies
      invariant forall i, j :: 0 <= i < j < |visit| ==> visit[i] != visit[j]
      invariant target.None? <==> forall n :: n in visit ==> !IsFresh(enemies[n], now, window)
      invariant target.Some? ==> target.value in enemies && IsFresh(enemies[target.value], now, window)
      invariant target.Some? ==> bestDist == dist(enemies[target.value].pos, me)
      invariant target.Some? ==> forall n :: n in visit && IsFresh(enemies[n], now, window) ==>
        bestDist <= dist(enemies[n].pos, me)
      invariant target.Some? ==> at < |visit| && visit[at] == target.value
      invariant target.Some? ==> forall j :: 0 <= j < at && IsFresh(enemies[visit[j]], now, window) ==>
        dist(enemies[visit[j]].pos, me) > bestDist
      decreases rest
    {
      var name :| name in rest;
      var e := enemies[name];
      if IsFresh(e, now, window) {
        var d := dist(e.pos, me);
        if target.None? || d < bestDist {
          target, bestDist := Some(name), d;
          at := |visit|;
        }
      }
      visit := visit + [name];
      rest := rest - {name};
    }
    if target.Some? {
      assert visit[at] == target.value;
    }
  }
}
