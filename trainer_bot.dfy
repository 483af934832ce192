/**
 * The robot around the brain in TrainerBot: the per-name enemy table kept by the
 * scan and death events, the state key of `getState`, the nearest enemy of
 * `getNearestEnemy`, the corner choice of `doGoToCorner`, the power rule and
 * intercept of `smartFire`, the learning cycle of `run` with its 15-tick hold, and
 * the reward events.
 */
module Trainer {
  import opened Wrappers
  import opened ActionValues
  import opened Arena
  import opened Intercept
  import opened TrainerState
  import MeleeBrain

  const AntiGravity: nat := 0
  const Rushdown: nat := 1
  const CampCorner: nat := 2
  const SpinRadar: nat := 3
  const TotalActions: nat := 4
  /** Ticks one chosen action is kept before learning from it. */
  const HoldTicks: nat := 15
  /** The survival reward added once per cycle. */
  const SurvivalBonus: real := 0.1
  /** Reward on winning the round and penalty on dying. */
  const WinReward: real := 50.0
  const DeathPenalty: real := 50.0
  /** Distance of the corner targets from both walls. */
  const CornerInset: real := 20.0
  /** Below this energy `smartFire` fires with SparePower whatever was asked. */
  const SpareEnergy: real := 10.0
  const SparePower: real := 0.5

  /**
   * The events the host delivers while the robot executes a tick; a scan or a death
   * carries the clock `getTime()` reads in its handler.
   */
  datatype Event =
    | BulletHit
    | HitByBullet
    | HitWall
    | BulletMissed
    | Sighted(sighting: Sighting, now: int)

  /**
   * What one event adds to the reward accumulator while `action` is being held;
   * being hit while camping in a corner costs 5 more.
   */
  function Delta(ev: Event, action: nat): (d: real)
    ensures d > 0.0 <==> ev == BulletHit
    ensures d == 0.0 <==> ev.Sighted?
    ensures ev == HitByBullet ==> (d == -20.0 <==> action == CampCorner)
    ensures -20.0 <= d <= 15.0
  {
    match ev
    case BulletHit => 15.0
    case HitByBullet => if action == CampCorner then -15.0 - 5.0 else -15.0
    case HitWall => -10.0
    case BulletMissed => -1.0
    case Sighted(_, _) => 0.0
  }

  /** The reward of the events of one tick. */
  function TickReward(events: seq<Event>, action: nat): real {
    if |events| == 0 then 0.0
    else TickReward(events[..|events| - 1], action) + Delta(events[|events| - 1], action)
  }

  /** The enemy table after the events of one tick, in delivery order. */
  function TrackAll(enemies: Enemies, events: seq<Event>): Enemies {
    if |events| == 0 then enemies
    else
      var before := TrackAll(enemies, events[..|events| - 1]);
      var ev := events[|events| - 1];
      if ev.Sighted? then Track(before, ev.sighting, ev.now) else before
  }

  /** The reward the events of a hold add. */
  function HoldReward(ticks: seq<seq<Event>>, action: nat): real {
    if |ticks| == 0 then 0.0
    else HoldReward(ticks[..|ticks| - 1], action) + TickReward(ticks[|ticks| - 1], action)
  }

  /** The enemy table after a hold. */
  function HoldEnemies(enemies: Enemies, ticks: seq<seq<Event>>): Enemies {
    if |ticks| == 0 then enemies else TrackAll(HoldEnemies(enemies, ticks[..|ticks| - 1]), ticks[|ticks| - 1])
  }

  /** The number of times the robot was hit during a hold. */
  function HitsTaken(ticks: seq<seq<Event>>): nat {
    if |ticks| == 0 then 0
    else HitsTaken(ticks[..|ticks| - 1]) + multiset(ticks[|ticks| - 1])[HitByBullet]
  }

  /** The events of one tick cost camping exactly 5 more per hit than any other action. */
  lemma {:induction false} TickCampPenalty(events: seq<Event>, other: nat)
    requires other != CampCorner
    ensures TickReward(events, CampCorner) == TickReward(events, other) - 5.0 * multiset(events)[HitByBullet] as real
  {
    if |events| > 0 {
      var init := events[..|events| - 1];
      TickCampPenalty(init, other);
      assert events == init + [events[|events| - 1]];
    }
  }

  /** A hold spent camping in a corner is worth 5 less per hit taken than any other action. */
  lemma {:induction false} CampPenalty(ticks: seq<seq<Event>>, other: nat)
    requires other != CampCorner
    ensures HoldReward(ticks, CampCorner) == HoldReward(ticks, other) - 5.0 * HitsTaken(ticks) as real
  {
    if |ticks| > 0 {
      CampPenalty(ticks[..|ticks| - 1], other);
      TickCampPenalty(ticks[|ticks| - 1], other);
    }
  }

  /**
   * The reward one pass learns from: what had accumulated before it, the hold's
   * events, and the survival bonus.
   */
  function PassReward(acc: real, ticks: seq<seq<Event>>, action: nat): real {
    acc + HoldReward(ticks, action) + SurvivalBonus
  }

  /**
   * The four corner targets in the order `doGoToCorner` lists them: each lies 20 from
   * one side wall and from the top or bottom wall, and in a field wider and taller
   * than 40 they are four different points.
   */
  function Corners(width: real, height: real): (cs: seq<Point>)
    ensures |cs| == 4
    ensures forall i :: 0 <= i < 4 ==>
      (cs[i].x == CornerInset || cs[i].x == width - CornerInset) &&
      (cs[i].y == CornerInset || cs[i].y == height - CornerInset)
    ensures width > 2.0 * CornerInset && height > 2.0 * CornerInset ==>
      forall i, j :: 0 <= i < j < 4 ==> cs[i] != cs[j]
  {
    [ Point(CornerInset, CornerInset), Point(CornerInset, height - CornerInset),
      Point(width - CornerInset, CornerInset), Point(width - CornerInset, height - CornerInset) ]
  }

  /**
   * The power `smartFire` fires with: 0.5 below 10 energy, else the power asked for;
   * a power in (0, 3] stays in (0, 3].
   */
  function SmartFirePower(power: real, energy: real): (p: real)
    ensures energy < SpareEnergy ==> p == SparePower
    ensures energy >= SpareEnergy ==> p == power
    ensures 0.0 < power <= 3.0 ==> 0.0 < p <= 3.0
  {
    if energy < SpareEnergy then SparePower else power
  }

  /**
   * The power `executeAction` asks `smartFire` for with a target present: anti-gravity
   * fires 1.5 only above 15 energy, rushdown 3.0, corner camping 2.0, spinning 1.0.
   */
  function ActionFirePower(action: nat, energy: real): (p: Option<real>)
    requires action < TotalActions
    ensures p.Some? ==> 0.0 < p.value <= 3.0
    ensures p.None? <==> action == AntiGravity && energy <= 15.0
  {
    if action == AntiGravity then (if energy > 15.0 then Some(1.5) else None)
    else if action == Rushdown then Some(3.0)
    else if action == CampCorner then Some(2.0)
    else Some(1.0)
  }

  /**
   * Choosing an action in s (which at most creates s's row) before a learning step
   * from s leaves that step's result as if the choice had not touched the table.
   */
  lemma ChoiceAbsorbed(t0: Table, t1: Table, s: string, a: nat, reward: real, next: Option<string>)
    requires a < TotalActions && WellShaped(t0, TotalActions)
    requires t1 == t0 || t1 == Touch(t0, s, TotalActions)
    ensures WellShaped(t1, TotalActions)
    ensures Learned(t1, TotalActions, s, a, reward, next) == Learned(t0, TotalActions, s, a, reward, next)
  {
    if t1 != t0 {
      LearnedAbsorbsTouch(t0, TotalActions, s, a, reward, next);
    }
  }

  /** A shot of `smartFire`: the target's name, the power used and the aim point. */
  datatype Shot = Shot(target: string, power: real, aim: Point)

  /**
   * One pass of the `run` loop: the readings before choosing, the epsilon coin, the
   * held ticks, and the readings after the hold.
   */
  datatype Pass = Pass(start: Snapshot, roll: real, ticks: seq<seq<Event>>, end: Snapshot)

  /** The enemy table after a run of passes: each pass's hold, in order. */
  function RunEnemies(enemies: Enemies, passes: seq<Pass>): Enemies {
    if |passes| == 0 then enemies
    else HoldEnemies(RunEnemies(enemies, passes[..|passes| - 1]), passes[|passes| - 1].ticks)
  }

  class TrainerBot {
    /** The brain shared by all rounds, passed in. */
    const brain: MeleeBrain.QBrain
    /** The host's `Point2D.distance`, `Math.sin` and `Math.cos`. */
    const dist: Metric
    const sin: real -> real
    const cos: real -> real

    var enemies: Enemies
    var currentState: Option<string>
    var currentAction: nat
    var currentReward: real

    ghost predicate Valid()
      reads this, brain, brain.qTable.Values
    {
      brain.Valid() && brain.numActions == TotalActions && currentAction < TotalActions
    }

    /** A new round: no enemies, no state yet, action 0, nothing accumulated. */
    constructor (brain: MeleeBrain.QBrain, dist: Metric, sin: real -> real, cos: real -> real)
      requires brain.Valid() && brain.numActions == TotalActions
      ensures Valid()
      ensures this.brain == brain && this.dist == dist && this.sin == sin && this.cos == cos
      ensures enemies == map[] && currentState == None && currentAction == 0 && currentReward == 0.0
    {
      this.brain := brain;
      this.dist := dist;
      this.sin := sin;
      this.cos := cos;
      enemies := map[];
      currentState := None;
      currentAction := 0;
      currentReward := 0.0;
    }

    /** `getState`: the key of what is observed now. */
    method GetState(snap: Snapshot) returns (key: string)
      ensures key == Key(Observe(enemies, snap, dist))
    {
      var count, nearest := CountAndNearest(enemies, snap.me, snap.time, FreshWindow, dist);
      key := Key(Classify(nearest, snap.energy, count));
    }

    /**
     * `getNearestEnemy`: None exactly when no enemy was seen in the last 60 ticks;
     * otherwise a fresh enemy at least distance, the first in `visit` order on ties.
     */
    method GetNearestEnemy(snap: Snapshot) returns (target: Option<string>, ghost visit: seq<string>)
      ensures target.None? <==> FreshNames(enemies, snap.time, FreshWindow) == {}
      ensures target.Some? ==> target.value in FreshNames(enemies, snap.time, FreshWindow)
      ensures target.Some? ==> forall n :: n in FreshNames(enemies, snap.time, FreshWindow) ==>
        dist(enemies[target.value].pos, snap.me) <= dist(enemies[n].pos, snap.me)
      ensures forall n :: n in enemies <==> n in visit
      ensures target.Some? ==>
        exists k :: 0 <= k < |visit| && visit[k] == target.value &&
          (forall j :: 0 <= j < k && IsFresh(enemies[visit[j]], snap.time, FreshWindow) ==>
            dist(enemies[visit[j]].pos, snap.me) > dist(enemies[target.value].pos, snap.me))
    {
      target, visit := NearestFresh(enemies, snap.me, snap.time, FreshWindow, dist);
    }

    /**
     * The corner choice of `doGoToCorner`: the corner nearest to the robot, the first
     * listed among equally near ones; `k` is its place in the list.
     */
    method NearestCorner(snap: Snapshot) returns (corner: Point, ghost k: nat)
      ensures var cs := Corners(snap.width, snap.height);
        && k < |cs| && corner == cs[k]
        && (forall j :: 0 <= j < |cs| ==> dist(snap.me, corner) <= dist(snap.me, cs[j]))
        && (forall j :: 0 <= j < k ==> dist(snap.me, cs[j]) > dist(snap.me, corner))
    {
      var cs := Corners(snap.width, snap.height);
      var minDist: Option<real> := None;
      corner, k := Point(0.0, 0.0), 0;
      for i := 0 to |cs|
        invariant minDist.None? <==> i == 0
        invariant minDist.Some? ==> k < i && corner == cs[k] && minDist.value == dist(snap.me, corner)
        invariant minDist.Some? ==> forall j :: 0 <= j < i ==> minDist.value <= dist(snap.me, cs[j])
        invariant minDist.Some? ==> forall j :: 0 <= j < k ==> dist(snap.me, cs[j]) > minDist.value
      {
        var d := dist(snap.me, cs[i]);
        if minDist.None? || d < minDist.value {
          minDist := Some(d);
          corner, k := cs[i], i;
        }
      }
    }

    /** The aiming problem for the named enemy fired at with power p. */
    ghost function AimProblem(name: string, snap: Snapshot, p: real): Problem
      reads this
      requires name in enemies
    {
      var e := enemies[name];
      Problem(snap.me, e.pos, sin(e.heading), cos(e.heading), e.velocity, 20.0 - 3.0 * p, snap.width, snap.height)
    }

    /**
     * The firing part of `executeAction`: the nearest fresh enemy is fired at with the
     * power the action asks for, through `smartFire`. There is no shot exactly when no
     * enemy is fresh or the action asks for none (anti-gravity at 15 energy or less).
     */
    method ExecuteActionFire(action: nat, snap: Snapshot) returns (shot: Option<Shot>)
      requires action < TotalActions
      ensures shot.None? <==>
        FreshNames(enemies, snap.time, FreshWindow) == {} || ActionFirePower(action, snap.energy).None?
      ensures shot.Some? ==> shot.value.target in FreshNames(enemies, snap.time, FreshWindow)
      ensures shot.Some? ==> forall n :: n in FreshNames(enemies, snap.time, FreshWindow) ==>
        dist(enemies[shot.value.target].pos, snap.me) <= dist(enemies[n].pos, snap.me)
      ensures shot.Some? ==>
        shot.value.power == SmartFirePower(ActionFirePower(action, snap.energy).value, snap.energy)
      ensures shot.Some? ==> 0.0 < shot.value.power <= 3.0
    {
      var target;
      ghost var visit;
      target, visit := GetNearestEnemy(snap);
      var power := ActionFirePower(action, snap.energy);
      if target.Some? && power.Some? {
        var used, aim := SmartFire(target.value, power.value, snap);
        shot := Some(Shot(target.value, used, aim));
      } else {
        shot := None;
      }
    }

    /**
     * `smartFire` up to the gun: the power actually used (0.5 below 10 energy) and the
     * aim point after 15 refinements, which stays in the field and is the clamped
     * target position when the target stands still.
     */
    method SmartFire(name: string, power: real, snap: Snapshot) returns (used: real, aim: Point)
      requires name in enemies
      requires 0.0 < power <= 3.0
      ensures snap.energy < SpareEnergy ==> used == SparePower
      ensures snap.energy >= SpareEnergy ==> used == power
      ensures 11.0 <= 20.0 - 3.0 * used < 20.0
      ensures aim == Estimate(AimProblem(name, snap, used), dist, Steps)
      ensures Margin <= aim.x && Margin <= aim.y
      ensures snap.width >= 2.0 * Margin && snap.height >= 2.0 * Margin ==> InField(aim, snap.width, snap.height)
      ensures enemies[name].velocity == 0.0 ==> aim == ClampToField(enemies[name].pos, snap.width, snap.height)
    {
      var e := enemies[name];
      used := SmartFirePower(power, snap.energy);
      var pr := Problem(snap.me, e.pos, sin(e.heading), cos(e.heading), e.velocity, 20.0 - 3.0 * used, snap.width, snap.height);
      aim := PredictIntercept(pr, dist);
    }

    /**
     * One pass of the `run` loop: observe and choose, hold the action for 15 ticks
     * while events arrive, observe again, and learn from the whole step with the
     * accumulated reward plus the survival bonus; then clear the accumulator.
     */
    method Cycle(start: Snapshot, roll: real, ticks: seq<seq<Event>>, end: Snapshot)
      returns (action: nat, newState: string)
      requires Valid() && |ticks| == HoldTicks
      modifies this, brain, brain.qTable.Values
      ensures Valid()
      ensures currentState == Some(Key(Observe(old(enemies), start, dist))) && currentAction == action
      ensures !(roll < Epsilon) ==>
        IsBestAction(RowOf(old(brain.Contents()), currentState.value, TotalActions), action)
      ensures enemies == HoldEnemies(old(enemies), ticks)
      ensures currentReward == 0.0
      ensures newState == Key(Observe(enemies, end, dist))
      ensures brain.Contents() ==
        Learned(old(brain.Contents()), TotalActions, currentState.value, action,
          PassReward(old(currentReward), ticks, action), Some(newState))
      ensures forall s :: s in old(brain.qTable) ==> s in brain.qTable && brain.qTable[s] == old(brain.qTable[s])
      ensures forall s :: s in brain.qTable && s !in old(brain.qTable) ==> fresh(brain.qTable[s])
    {
      ghost var t0 := brain.Contents();
      var state := GetState(start);
      assert brain.Contents() == t0;
      action := Choose(state, roll);
      ghost var t1 := brain.Contents();
      assert !(roll < Epsilon) ==> IsBestAction(RowOf(t0, state, TotalActions), action);
      ghost var q1 := brain.qTable;
      ghost var reward := PassReward(currentReward, ticks, action);
      newState := HoldAndLearn(ticks, end);
      assert forall s :: s in brain.qTable && s !in q1 ==> fresh(brain.qTable[s]);
      ChoiceAbsorbed(t0, t1, state, action, reward, Some(newState));
    }

    /**
     * The first passes of the endless `run` loop, each a `Cycle`: the enemy table is
     * every pass's hold in order, the remembered key is the last pass's start key,
     * and after any pass the accumulator is clear.
     */
    method Run(passes: seq<Pass>)
      requires Valid()
      requires forall i :: 0 <= i < |passes| ==> |passes[i].ticks| == HoldTicks
      modifies this, brain, brain.qTable.Values
      ensures Valid()
      ensures enemies == RunEnemies(old(enemies), passes)
      ensures |passes| > 0 ==>
        currentState == Some(Key(Observe(RunEnemies(old(enemies), passes[..|passes| - 1]), passes[|passes| - 1].start, dist)))
      ensures |passes| > 0 ==> currentReward == 0.0
      ensures forall s :: s in old(brain.qTable) ==> s in brain.qTable && brain.qTable[s] == old(brain.qTable[s])
      ensures forall s :: s in brain.qTable && s !in old(brain.qTable) ==> fresh(brain.qTable[s])
    {
      ghost var before := enemies;
      for i := 0 to |passes|
        invariant Valid()
        invariant enemies == RunEnemies(old(enemies), passes[..i])
        invariant i > 0 ==> before == RunEnemies(old(enemies), passes[..i - 1])
        invariant i > 0 ==> currentState == Some(Key(Observe(before, passes[i - 1].start, dist)))
        invariant i > 0 ==> currentReward == 0.0
        invariant forall s :: s in old(brain.qTable) ==> s in brain.qTable && brain.qTable[s] == old(brain.qTable[s])
        invariant forall s :: s in brain.qTable && s !in old(brain.qTable) ==> fresh(brain.qTable[s])
      {
        assert passes[..i + 1][..i] == passes[..i];
        before := enemies;
        var p := passes[i];
        var _, _ := Cycle(p.start, p.roll, p.ticks, p.end);
      }
      assert passes[..|passes|] == passes;
    }

    /**
     * The rest of a pass once the action is chosen: the hold, a fresh `getState`,
     * and the learning step from the remembered state with the pass's reward.
     */
    method HoldAndLearn(ticks: seq<seq<Event>>, end: Snapshot) returns (newState: string)
      requires Valid() && currentState.Some? && |ticks| == HoldTicks
      modifies this, brain, brain.qTable.Values
      ensures Valid()
      ensures currentState == old(currentState) && currentAction == old(currentAction)
      ensures enemies == HoldEnemies(old(enemies), ticks)
      ensures currentReward == 0.0
      ensures newState == Key(Observe(enemies, end, dist))
      ensures brain.Contents() ==
        Learned(old(brain.Contents()), TotalActions, currentState.value, currentAction,
          PassReward(old(currentReward), ticks, currentAction), Some(newState))
      ensures forall s :: s in old(brain.qTable) ==> s in brain.qTable && brain.qTable[s] == old(brain.qTable[s])
      ensures forall s :: s in brain.qTable && s !in old(brain.qTable) ==> fresh(brain.qTable[s])
    {
      ghost var t1 := brain.Contents();
      ghost var reward := PassReward(currentReward, ticks, currentAction);
      Hold(ticks);
      assert brain.Contents() == t1;
      newState := GetState(end);
      assert brain.Contents() == t1;
      assert currentReward + SurvivalBonus == reward;
      LearnStep(newState);
    }

    /** Remembers the state and takes `getAction(state, true)`. */
    method Choose(state: string, roll: real) returns (action: nat)
      requires Valid()
      modifies this, brain
      ensures Valid()
      ensures currentState == Some(state) && currentAction == action
      ensures unchanged(this`enemies) && currentReward == old(currentReward)
      ensures roll < Epsilon ==> brain.Contents() == old(brain.Contents())
      ensures !(roll < Epsilon) ==>
        brain.Contents() == Touch(old(brain.Contents()), state, TotalActions) &&
        IsBestAction(brain.Contents()[state], action)
      ensures forall s :: s in old(brain.qTable) ==> s in brain.qTable && brain.qTable[s] == old(brain.qTable[s])
      ensures forall s :: s in brain.qTable && s !in old(brain.qTable) ==> fresh(brain.qTable[s])
    {
      action := brain.GetAction(state, true, roll);
      ghost var chosen := brain.Contents();
      currentState := Some(state);
      currentAction := action;
      assert brain.Contents() == chosen;
    }

    /** Adds the survival bonus, learns from the held step into newState, and clears the accumulator. */
    method LearnStep(newState: string)
      requires Valid() && currentState.Some?
      modifies this, brain, brain.qTable.Values
      ensures Valid()
      ensures unchanged(this`enemies) && currentState == old(currentState) && currentAction == old(currentAction)
      ensures currentReward == 0.0
      ensures brain.Contents() ==
        Learned(old(brain.Contents()), TotalActions, currentState.value, currentAction,
          old(currentReward) + SurvivalBonus, Some(newState))
      ensures forall s :: s in old(brain.qTable) ==> s in brain.qTable && brain.qTable[s] == old(brain.qTable[s])
      ensures forall s :: s in brain.qTable && s !in old(brain.qTable) ==> fresh(brain.qTable[s])
    {
      var reward := currentReward + SurvivalBonus;
      ghost var t0 := brain.Contents();
      currentReward := 0.0;
      assert brain.Contents() == t0;
      brain.Learn(currentState.value, currentAction, reward, newState);
    }

    /** The hold: 15 ticks of events while the chosen action runs. */
    method Hold(ticks: seq<seq<Event>>)
      requires |ticks| == HoldTicks
      modifies this
      ensures currentReward == old(currentReward) + HoldReward(ticks, currentAction)
      ensures enemies == HoldEnemies(old(enemies), ticks)
      ensures currentState == old(currentState) && currentAction == old(currentAction)
      ensures unchanged(brain) && (old(Valid()) ==> Valid())
    {
      for i := 0 to HoldTicks
        invariant currentReward == old(currentReward) + HoldReward(ticks[..i], currentAction)
        invariant enemies == HoldEnemies(old(enemies), ticks[..i])
        invariant currentState == old(currentState) && currentAction == old(currentAction)
      {
        assert ticks[..i + 1][..i] == ticks[..i];
        Deliver(ticks[i]);
      }
      assert ticks[..HoldTicks] == ticks;
    }

    /** The events of one tick, handled in delivery order. */
    method Deliver(events: seq<Event>)
      modifies this
      ensures currentReward == old(currentReward) + TickReward(events, currentAction)
      ensures enemies == TrackAll(old(enemies), events)
      ensures currentState == old(currentState) && currentAction == old(currentAction)
    {
      for j := 0 to |events|
        invariant currentReward == old(currentReward) + TickReward(events[..j], currentAction)
        invariant enemies == TrackAll(old(enemies), events[..j])
        invariant currentState == old(currentState) && currentAction == old(currentAction)
      {
        assert events[..j + 1][..j] == events[..j];
        Handle(events[j]);
      }
      assert events[..|events|] == events;
    }

    /** Dispatches one event to its handler. */
    method Handle(ev: Event)
      modifies this
      ensures currentReward == old(currentReward) + Delta(ev, currentAction)
      ensures enemies == if ev.Sighted? then Track(old(enemies), ev.sighting, ev.now) else old(enemies)
      ensures currentState == old(currentState) && currentAction == old(currentAction)
    {
      match ev
      case BulletHit => OnBulletHit();
      case HitByBullet => OnHitByBullet();
      case HitWall => OnHitWall();
      case BulletMissed => OnBulletMissed();
      case Sighted(Scanned(name, pos, energy, heading, velocity), now) =>
        OnScannedRobot(name, pos, energy, heading, velocity, now);
      case Sighted(RobotDied(name), _) => OnRobotDeath(name);
    }

    /** `onBulletHit`: +15. */
    method OnBulletHit()
      modifies this
      ensures currentReward == old(currentReward) + 15.0
      ensures unchanged(this`enemies) && currentState == old(currentState) && currentAction == old(currentAction)
    {
      currentReward := currentReward + 15.0;
    }

    /** `onHitByBullet`: -15, and 5 more while camping in a corner. */
    method OnHitByBullet()
      modifies this
      ensures currentReward == old(currentReward) - (if currentAction == CampCorner then 20.0 else 15.0)
      ensures unchanged(this`enemies) && currentState == old(currentState) && currentAction == old(currentAction)
    {
      currentReward := currentReward - 15.0;
      if currentAction == CampCorner {
        currentReward := currentReward - 5.0;
      }
    }

    /** `onHitWall`: -10 (the backing-off move is a host call). */
    method OnHitWall()
      modifies this
      ensures currentReward == old(currentReward) - 10.0
      ensures unchanged(this`enemies) && currentState == old(currentState) && currentAction == old(currentAction)
    {
      currentReward := currentReward - 10.0;
    }

    /** `onBulletMissed`: -1. */
    method OnBulletMissed()
      modifies this
      ensures currentReward == old(currentReward) - 1.0
      ensures unchanged(this`enemies) && currentState == old(currentState) && currentAction == old(currentAction)
    {
      currentReward := currentReward - 1.0;
    }

    /** `onDeath`: -50 and no learning step; the brain is not touched. */
    method OnDeath()
      modifies this
      ensures currentReward == old(currentReward) - DeathPenalty
      ensures unchanged(this`enemies) && currentState == old(currentState) && currentAction == old(currentAction)
    {
      currentReward := currentReward - DeathPenalty;
    }

    /** `onWin`: +50 and no learning step; the brain is not touched. */
    method OnWin()
      modifies this
      ensures currentReward == old(currentReward) + WinReward
      ensures unchanged(this`enemies) && currentState == old(currentState) && currentAction == old(currentAction)
    {
      currentReward := currentReward + WinReward;
    }

    /**
     * `onScannedRobot` at clock `now` (`getTime()`): the scanned name's record becomes
     * what was seen, last seen at `now`; no other name changes.
     */
    method OnScannedRobot(name: string, pos: Point, energy: real, heading: real, velocity: real, now: int)
      modifies this
      ensures enemies == old(enemies)[name := Enemy(pos, energy, heading, velocity, now)]
      ensures currentReward == old(currentReward)
      ensures currentState == old(currentState) && currentAction == old(currentAction)
    {
      enemies := enemies[name := Enemy(pos, energy, heading, velocity, now)];
    }

    /** `onRobotDeath`: only the dead robot's name leaves the table. */
    method OnRobotDeath(name: string)
      modifies this
      ensures enemies == old(enemies) - {name}
      ensures currentReward == old(currentReward)
      ensures currentState == old(currentState) && currentAction == old(currentAction)
    {
      enemies := enemies - {name};
    }
  }
}
