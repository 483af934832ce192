/**
 * The robot around the brain in UltraMeleeBot: the per-name enemy table kept by the
 * scan and death events, the state key of `buildState`, the nearest-target choice
 * of `getBestTarget`, the power rule and intercept of `aimAndFirePredictive`, the
 * decision step of `run` with its 20-tick hold, and the reward events including the
 * terminal updates on winning and dying.
 */
module UltraBot {
  import opened Wrappers
  import opened ActionValues
  import opened Arena
  import opened Intercept
  import opened UltraState
  import UltraBrain

  /** ACTION_EVASIVE, ACTION_AGGRESS, ACTION_SNIPER, ACTION_CRAZY. */
  const NumActions: nat := 4
  /** The robot always runs in training mode. */
  const Training: bool := true
  /** Ticks one chosen strategy is kept before the next decision. */
  const HoldTicks: nat := 20
  /** The survival reward added on every tick of a hold. */
  const SurvivalBonus: real := 0.03
  /** Reward on winning the round and penalty on dying. */
  const WinReward: real := 80.0
  const DeathPenalty: real := 80.0

  /**
   * The events the host delivers while the robot executes a tick; a scan or a death
   * carries the clock `getTime()` reads in its handler.
   */
  datatype Event =
    | BulletHit
    | HitByBullet
    | BulletMissed
    | HitWall
    | HitRobot
    | Sighted(sighting: Sighting, now: int)

  /** What one event adds to the reward accumulator. */
  function Delta(ev: Event): (d: real)
    ensures d > 0.0 <==> ev == BulletHit
    ensures d == 0.0 <==> ev.Sighted?
    ensures -20.0 <= d <= 20.0
  {
    match ev
    case BulletHit => 20.0
    case HitByBullet => -15.0
    case BulletMissed => -2.0
    case HitWall => -20.0
    case HitRobot => -8.0
    case Sighted(_, _) => 0.0
  }

  /** The reward of the events of one tick. */
  function TickReward(events: seq<Event>): real {
    if |events| == 0 then 0.0 else TickReward(events[..|events| - 1]) + Delta(events[|events| - 1])
  }

  /** The enemy table after the events of one tick, in delivery order. */
  function TrackAll(enemies: Enemies, events: seq<Event>): Enemies {
    if |events| == 0 then enemies
    else
      var before := TrackAll(enemies, events[..|events| - 1]);
      var ev := events[|events| - 1];
      if ev.Sighted? then Track(before, ev.sighting, ev.now) else before
  }

  /** The reward a hold adds: the survival bonus and the events of every tick. */
  function HoldReward(ticks: seq<seq<Event>>): real {
    if |ticks| == 0 then 0.0
    else HoldReward(ticks[..|ticks| - 1]) + SurvivalBonus + TickReward(ticks[|ticks| - 1])
  }

  /** The enemy table after a hold. */
  function HoldEnemies(enemies: Enemies, ticks: seq<seq<Event>>): Enemies {
    if |ticks| == 0 then enemies else TrackAll(HoldEnemies(enemies, ticks[..|ticks| - 1]), ticks[|ticks| - 1])
  }

  /** Ticks without events earn the survival bonus alone: 0.03 per tick. */
  lemma {:induction false} QuietHoldReward(ticks: seq<seq<Event>>)
    requires forall i :: 0 <= i < |ticks| ==> ticks[i] == []
    ensures HoldReward(ticks) == SurvivalBonus * |ticks| as real
  {
    if |ticks| > 0 {
      QuietHoldReward(ticks[..|ticks| - 1]);
    }
  }

  /** A full quiet hold of 20 ticks adds 0.6 to the accumulator. */
  lemma QuietHoldIsPointSix(ticks: seq<seq<Event>>)
    requires |ticks| == HoldTicks
    requires forall i :: 0 <= i < |ticks| ==> ticks[i] == []
    ensures HoldReward(ticks) == 0.6
  {
    QuietHoldReward(ticks);
  }

  /** `Math.min(a, b)`. */
  function Min(a: real, b: real): real {
    if a <= b then a else b
  }

  /**
   * The power rule of `aimAndFirePredictive`: at most 1.5 when low on energy or far,
   * at most 1.0 when very far, and always within [0.1, 3.0].
   */
  function FirePower(desired: real, energy: real, d: real): (p: real)
    ensures 0.1 <= p <= 3.0
    ensures energy < 20.0 || d > 500.0 ==> p <= 1.5
    ensures d > 750.0 ==> p <= 1.0
    ensures p <= desired || p == 0.1
    ensures 0.1 <= desired <= 3.0 && energy >= 20.0 && d <= 500.0 ==> p == desired
  {
    var p1 := if energy < 20.0 then Min(desired, 1.5) else desired;
    var p2 := if d > 500.0 then Min(p1, 1.5) else p1;
    var p3 := if d > 750.0 then Min(p2, 1.0) else p2;
    if 0.1 >= Min(3.0, p3) then 0.1 else Min(3.0, p3)
  }

  /**
   * The speed of a bullet fired with power p: below 20 exactly for a positive power,
   * and within [11, 19.7] for every power in [0.1, 3.0].
   */
  function BulletSpeed(p: real): (speed: real)
    ensures speed < 20.0 <==> p > 0.0
    ensures 0.1 <= p <= 3.0 ==> 11.0 <= speed <= 19.7
  {
    20.0 - 3.0 * p
  }

  /** Every power the rule allows gives a bullet speed in [11, 19.7]. */
  lemma FirePowerSpeed(desired: real, energy: real, d: real)
    ensures 11.0 <= BulletSpeed(FirePower(desired, energy, d)) <= 19.7
  {
  }

  /** One pass of the `run` loop: the readings at the decision, the epsilon coin, the held ticks. */
  datatype Pass = Pass(snap: Snapshot, roll: real, ticks: seq<seq<Event>>)

  /** The enemy table after a run of passes: each pass's hold, in order. */
  function RunEnemies(enemies: Enemies, passes: seq<Pass>): Enemies {
    if |passes| == 0 then enemies
    else HoldEnemies(RunEnemies(enemies, passes[..|passes| - 1]), passes[|passes| - 1].ticks)
  }

  class UltraMeleeBot {
    /** The brain shared by all rounds, passed in. */
    const brain: UltraBrain.QBrain
    /** The host's `Point2D.distance`, `Math.sin` and `Math.cos`. */
    const dist: Metric
    const sin: real -> real
    const cos: real -> real

    var enemies: Enemies
    var lastState: Option<string>
    var lastAction: nat
    var rewardAcc: real

    ghost predicate Valid()
      reads this, brain, brain.qTable.Values
    {
      brain.Valid() && brain.numActions == NumActions && lastAction < NumActions
    }

    /** A new round: no enemies, no previous state, action 0, nothing accumulated. */
    constructor (brain: UltraBrain.QBrain, dist: Metric, sin: real -> real, cos: real -> real)
      requires brain.Valid() && brain.numActions == NumActions
      ensures Valid()
      ensures this.brain == brain && this.dist == dist && this.sin == sin && this.cos == cos
      ensures enemies == map[] && lastState == None && lastAction == 0 && rewardAcc == 0.0
    {
      this.brain := brain;
      this.dist := dist;
      this.sin := sin;
      this.cos := cos;
      enemies := map[];
      lastState := None;
      lastAction := 0;
      rewardAcc := 0.0;
    }

    /** `buildState`: the key of what is observed now. */
    method BuildState(snap: Snapshot) returns (key: string)
      ensures key == Key(Observe(enemies, snap, dist))
    {
      var count, nearest := CountAndNearest(enemies, snap.me, snap.time, FreshWindow, dist);
      key := Key(Classify(nearest, snap.energy, count, WallDistance(snap)));
    }

    /**
     * `getBestTarget`: None exactly when no enemy was seen in the last 40 ticks;
     * otherwise a fresh enemy at least distance, the first in `visit` order on ties.
     */
    method GetBestTarget(snap: Snapshot) returns (target: Option<string>, ghost visit: seq<string>)
      ensures target.None? <==> FreshNames(enemies, snap.time, FreshWindow) == {}
      ensures target.Some? ==> target.value in FreshNames(enemies, snap.time, FreshWindow)
      ensures target.Some? ==> forall n :: n in FreshNames(enemies, snap.time, FreshWindow) ==>
        dist(enemies[target.value].pos, snap.me) <= dist(enemies[n].pos, snap.me)
      ensures forall n :: n in enemies <==> n in visit
      ensures target.Some? ==>
        exists k :: 0 <= k < |visit| && visit[k] == target.value &&
          (forall j :: 0 <= j < k && IsFresh(enemies[visit[j]], snap.time, FreshWindow) ==>
            dist(enemies[visit[j]].pos, snap.me) > dist(enemies[target.value].pos, snap.me))
    {
      target, visit := NearestFresh(enemies, snap.me, snap.time, FreshWindow, dist);
    }

    /** The aiming problem for the named enemy fired at with power p. */
    ghost function AimProblem(name: string, snap: Snapshot, p: real): Problem
      reads this
      requires name in enemies
    {
      var e := enemies[name];
      Problem(snap.me, e.pos, sin(e.heading), cos(e.heading), e.velocity, BulletSpeed(p), snap.width, snap.height)
    }

    /**
     * `aimAndFirePredictive` up to the gun: the power actually used and the aim point
     * after 15 refinements, which stays in the field and is the clamped target
     * position when the target stands still.
     */
    method AimAndFirePredictive(name: string, desiredPower: real, snap: Snapshot) returns (power: real, aim: Point)
      requires name in enemies
      ensures power == FirePower(desiredPower, snap.energy, dist(enemies[name].pos, snap.me))
      ensures 0.1 <= power <= 3.0
      ensures aim == Estimate(AimProblem(name, snap, power), dist, Steps)
      ensures Margin <= aim.x && Margin <= aim.y
      ensures snap.width >= 2.0 * Margin && snap.height >= 2.0 * Margin ==> InField(aim, snap.width, snap.height)
      ensures enemies[name].velocity == 0.0 ==> aim == ClampToField(enemies[name].pos, snap.width, snap.height)
    {
      var e := enemies[name];
      power := FirePower(desiredPower, snap.energy, dist(e.pos, snap.me));
      FirePowerSpeed(desiredPower, snap.energy, dist(e.pos, snap.me));
      var pr := Problem(snap.me, e.pos, sin(e.heading), cos(e.heading), e.velocity, BulletSpeed(power), snap.width, snap.height);
      aim := PredictIntercept(pr, dist);
    }

    /**
     * The decision at the top of each pass of `run`: learn from the previous step
     * when there is one (and clear the accumulator), then choose the action for the
     * current state and remember both.
     */
    method Decide(snap: Snapshot, roll: real) returns (action: nat)
      requires Valid()
      modifies this, brain, brain.qTable.Values
      ensures Valid()
      ensures unchanged(this`enemies)
      ensures lastState == Some(Key(Observe(enemies, snap, dist))) && lastAction == action
      ensures old(lastState).Some? ==> (rewardAcc == 0.0 &&
        brain.Contents() == Learned(old(brain.Contents()), NumActions, old(lastState).value, old(lastAction),
          old(rewardAcc), lastState))
      ensures old(lastState).None? ==> rewardAcc == old(rewardAcc)
      ensures old(lastState).None? && Training && roll < Epsilon ==> brain.Contents() == old(brain.Contents())
      ensures old(lastState).None? && !(Training && roll < Epsilon) ==>
        brain.Contents() == Touch(old(brain.Contents()), lastState.value, NumActions)
      ensures forall s :: s in old(brain.qTable) ==> s in brain.qTable && brain.qTable[s] == old(brain.qTable[s])
      ensures forall s :: s in brain.qTable && s !in old(brain.qTable) ==> fresh(brain.qTable[s])
      ensures !(Training && roll < Epsilon) ==>
        lastState.value in brain.Contents() && IsBestAction(brain.Contents()[lastState.value], action)
    {
      ghost var before := brain.Contents();
      var current := BuildState(snap);
      assert brain.Contents() == before;
      action := Step(current, roll);
    }

    /**
     * The first passes of the endless `run` loop: each decides (learning from the
     * previous pass) and then holds its action for 20 ticks. The enemy table is
     * every pass's hold in order, the remembered key is the last pass's, and after
     * a pass that followed another decision the accumulator holds exactly that
     * pass's hold.
     */
    method Run(passes: seq<Pass>)
      requires Valid()
      requires forall i :: 0 <= i < |passes| ==> |passes[i].ticks| == HoldTicks
      modifies this, brain, brain.qTable.Values
      ensures Valid()
      ensures enemies == RunEnemies(old(enemies), passes)
      ensures |passes| > 0 ==>
        lastState == Some(Key(Observe(RunEnemies(old(enemies), passes[..|passes| - 1]), passes[|passes| - 1].snap, dist)))
      ensures |passes| > 0 && (|passes| > 1 || old(lastState).Some?) ==>
        rewardAcc == HoldReward(passes[|passes| - 1].ticks)
      ensures forall s :: s in old(brain.qTable) ==> s in brain.qTable && brain.qTable[s] == old(brain.qTable[s])
      ensures forall s :: s in brain.qTable && s !in old(brain.qTable) ==> fresh(brain.qTable[s])
    {
      ghost var before := enemies;
      for i := 0 to |passes|
        invariant Valid()
        invariant enemies == RunEnemies(old(enemies), passes[..i])
        invariant i > 0 ==> before == RunEnemies(old(enemies), passes[..i - 1])
        invariant i > 0 ==> lastState == Some(Key(Observe(before, passes[i - 1].snap, dist)))
        invariant i == 0 ==> lastState == old(lastState)
        invariant i > 0 && (i > 1 || old(lastState).Some?) ==> rewardAcc == HoldReward(passes[i - 1].ticks)
        invariant forall s :: s in old(brain.qTable) ==> s in brain.qTable && brain.qTable[s] == old(brain.qTable[s])
        invariant forall s :: s in brain.qTable && s !in old(brain.qTable) ==> fresh(brain.qTable[s])
      {
        assert passes[..i + 1][..i] == passes[..i];
        before := enemies;
        RunPass(passes[i]);
      }
      assert passes[..|passes|] == passes;
    }

    /** One pass of `run`: the decision, then the 20-tick hold of the chosen action. */
    method RunPass(p: Pass)
      requires Valid() && |p.ticks| == HoldTicks
      modifies this, brain, brain.qTable.Values
      ensures Valid()
      ensures lastState == Some(Key(Observe(old(enemies), p.snap, dist)))
      ensures enemies == HoldEnemies(old(enemies), p.ticks)
      ensures old(lastState).Some? ==> rewardAcc == HoldReward(p.ticks)
      ensures old(lastState).None? ==> rewardAcc == old(rewardAcc) + HoldReward(p.ticks)
      ensures old(lastState).Some? ==>
        brain.Contents() == Learned(old(brain.Contents()), NumActions, old(lastState).value, old(lastAction),
          old(rewardAcc), lastState)
      ensures old(lastState).None? && Training && p.roll < Epsilon ==> brain.Contents() == old(brain.Contents())
      ensures old(lastState).None? && !(Training && p.roll < Epsilon) ==>
        brain.Contents() == Touch(old(brain.Contents()), lastState.value, NumActions)
      ensures forall s :: s in old(brain.qTable) ==> s in brain.qTable && brain.qTable[s] == old(brain.qTable[s])
      ensures forall s :: s in brain.qTable && s !in old(brain.qTable) ==> fresh(brain.qTable[s])
    {
      var _ := Decide(p.snap, p.roll);
      Hold(p.ticks);
    }

    /** The decision for an already built state key. */
    method Step(current: string, roll: real) returns (action: nat)
      requires Valid()
      modifies this, brain, brain.qTable.Values
      ensures Valid()
      ensures unchanged(this`enemies)
      ensures lastState == Some(current) && lastAction == action
      ensures old(lastState).Some? ==> (rewardAcc == 0.0 &&
        brain.Contents() == Learned(old(brain.Contents()), NumActions, old(lastState).value, old(lastAction),
          old(rewardAcc), lastState))
      ensures old(lastState).None? ==> rewardAcc == old(rewardAcc)
      ensures old(lastState).None? && Training && roll < Epsilon ==> brain.Contents() == old(brain.Contents())
      ensures old(lastState).None? && !(Training && roll < Epsilon) ==>
        brain.Contents() == Touch(old(brain.Contents()), current, NumActions)
      ensures forall s :: s in old(brain.qTable) ==> s in brain.qTable && brain.qTable[s] == old(brain.qTable[s])
      ensures forall s :: s in brain.qTable && s !in old(brain.qTable) ==> fresh(brain.qTable[s])
      ensures !(Training && roll < Epsilon) ==>
        current in brain.Contents() && IsBestAction(brain.Contents()[current], action)
    {
      Settle(current);
      ghost var learned := brain.Contents();
      action := brain.GetAction(current, Training, roll);
      ghost var after := brain.Contents();
      assert after == learned || after == Touch(learned, current, NumActions);
      if old(lastState).Some? {
        assert current in learned;
        assert after == learned;
      }
      Remember(current, action);
    }

    /** Records the state and action of the decision just taken. */
    method Remember(state: string, action: nat)
      requires Valid() && action < NumActions
      modifies this
      ensures Valid()
      ensures lastState == Some(state) && lastAction == action
      ensures unchanged(this`enemies) && rewardAcc == old(rewardAcc)
      ensures brain.Contents() == old(brain.Contents())
    {
      lastState := Some(state);
      lastAction := action;
    }

    /**
     * The learning half of the decision: with a previous step, `learn` from it to
     * `current` and clear the accumulator; without one, nothing.
     */
    method Settle(current: string)
      requires Valid()
      modifies this, brain, brain.qTable.Values
      ensures Valid()
      ensures unchanged(this`enemies) && lastState == old(lastState) && lastAction == old(lastAction)
      ensures lastState.Some? ==> (rewardAcc == 0.0 && current in brain.Contents() &&
        brain.Contents() == Learned(old(brain.Contents()), NumActions, lastState.value, lastAction,
          old(rewardAcc), Some(current)))
      ensures lastState.None? ==> rewardAcc == old(rewardAcc) && brain.Contents() == old(brain.Contents())
      ensures forall s :: s in old(brain.qTable) ==> s in brain.qTable && brain.qTable[s] == old(brain.qTable[s])
      ensures forall s :: s in brain.qTable && s !in old(brain.qTable) ==> fresh(brain.qTable[s])
    {
      if lastState.Some? {
        var reward := rewardAcc;
        ghost var t0 := brain.Contents();
        rewardAcc := 0.0;
        assert brain.Contents() == t0;
        brain.Learn(lastState, lastAction, reward, Some(current));
      }
    }

    /** The hold after a decision: 20 ticks, each earning the survival bonus and its events. */
    method Hold(ticks: seq<seq<Event>>)
      requires |ticks| == HoldTicks
      modifies this
      ensures rewardAcc == old(rewardAcc) + HoldReward(ticks)
      ensures enemies == HoldEnemies(old(enemies), ticks)
      ensures lastState == old(lastState) && lastAction == old(lastAction)
      ensures unchanged(brain) && (old(Valid()) ==> Valid())
      ensures brain.Contents() == old(brain.Contents())
    {
      for i := 0 to HoldTicks
        invariant rewardAcc == old(rewardAcc) + HoldReward(ticks[..i])
        invariant enemies == HoldEnemies(old(enemies), ticks[..i])
        invariant lastState == old(lastState) && lastAction == old(lastAction)
      {
        assert ticks[..i + 1][..i] == ticks[..i];
        rewardAcc := rewardAcc + SurvivalBonus;
        Deliver(ticks[i]);
      }
      assert ticks[..HoldTicks] == ticks;
    }

    /** The events of one tick, handled in delivery order. */
    method Deliver(events: seq<Event>)
      modifies this
      ensures rewardAcc == old(rewardAcc) + TickReward(events)
      ensures enemies == TrackAll(old(enemies), events)
      ensures lastState == old(lastState) && lastAction == old(lastAction)
    {
      for j := 0 to |events|
        invariant rewardAcc == old(rewardAcc) + TickReward(events[..j])
        invariant enemies == TrackAll(old(enemies), events[..j])
        invariant lastState == old(lastState) && lastAction == old(lastAction)
      {
        assert events[..j + 1][..j] == events[..j];
        Handle(events[j]);
      }
      assert events[..|events|] == events;
    }

    /** Dispatches one event to its handler. */
    method Handle(ev: Event)
      modifies this
      ensures rewardAcc == old(rewardAcc) + Delta(ev)
      ensures enemies == if ev.Sighted? then Track(old(enemies), ev.sighting, ev.now) else old(enemies)
      ensures lastState == old(lastState) && lastAction == old(lastAction)
    {
      match ev
      case BulletHit => OnBulletHit();
      case HitByBullet => OnHitByBullet();
      case BulletMissed => OnBulletMissed();
      case HitWall => OnHitWall();
      case HitRobot => OnHitRobot();
      case Sighted(Scanned(name, pos, energy, heading, velocity), now) =>
        OnScannedRobot(name, pos, energy, heading, velocity, now);
      case Sighted(RobotDied(name), _) => OnRobotDeath(name);
    }

    /** `onBulletHit`: +20. */
    method OnBulletHit()
      modifies this
      ensures rewardAcc == old(rewardAcc) + 20.0
      ensures unchanged(this`enemies) && lastState == old(lastState) && lastAction == old(lastAction)
    {
      rewardAcc := rewardAcc + 20.0;
    }

    /** `onHitByBullet`: -15. */
    method OnHitByBullet()
      modifies this
      ensures rewardAcc == old(rewardAcc) - 15.0
      ensures unchanged(this`enemies) && lastState == old(lastState) && lastAction == old(lastAction)
    {
      rewardAcc := rewardAcc - 15.0;
    }

    /** `onBulletMissed`: -2. */
    method OnBulletMissed()
      modifies this
      ensures rewardAcc == old(rewardAcc) - 2.0
      ensures unchanged(this`enemies) && lastState == old(lastState) && lastAction == old(lastAction)
    {
      rewardAcc := rewardAcc - 2.0;
    }

    /** `onHitWall`: -20 (the backing-off move is a host call). */
    method OnHitWall()
      modifies this
      ensures rewardAcc == old(rewardAcc) - 20.0
      ensures unchanged(this`enemies) && lastState == old(lastState) && lastAction == old(lastAction)
    {
      rewardAcc := rewardAcc - 20.0;
    }

    /** `onHitRobot`: -8. */
    method OnHitRobot()
      modifies this
      ensures rewardAcc == old(rewardAcc) - 8.0
      ensures unchanged(this`enemies) && lastState == old(lastState) && lastAction == old(lastAction)
    {
      rewardAcc := rewardAcc - 8.0;
    }

    /**
     * `onScannedRobot` at clock `now` (`getTime()`): the scanned name's record becomes
     * what was seen, last seen at `now`; no other name changes.
     */
    method OnScannedRobot(name: string, pos: Point, energy: real, heading: real, velocity: real, now: int)
      modifies this
      ensures enemies == old(enemies)[name := Enemy(pos, energy, heading, velocity, now)]
      ensures rewardAcc == old(rewardAcc) && lastState == old(lastState) && lastAction == old(lastAction)
    {
      enemies := enemies[name := Enemy(pos, energy, heading, velocity, now)];
    }

    /** `onRobotDeath`: only the dead robot's name leaves the table. */
    method OnRobotDeath(name: string)
      modifies this
      ensures enemies == old(enemies) - {name}
      ensures rewardAcc == old(rewardAcc) && lastState == old(lastState) && lastAction == old(lastAction)
    {
      enemies := enemies - {name};
    }

    /**
     * `onWin`: +80, then, when a step is pending, the terminal update of the last
     * state and action with the whole accumulator as reward.
     */
    method OnWin()
      requires Valid()
      modifies this, brain, brain.qTable.Values
      ensures Valid()
      ensures rewardAcc == old(rewardAcc) + WinReward
      ensures unchanged(this`enemies) && lastState == old(lastState) && lastAction == old(lastAction)
      ensures brain.Contents() == if lastState.Some?
        then Learned(old(brain.Contents()), NumActions, lastState.value, lastAction, rewardAcc, None)
        else old(brain.Contents())
      ensures forall s :: s in old(brain.qTable) ==> s in brain.qTable && brain.qTable[s] == old(brain.qTable[s])
      ensures forall s :: s in brain.qTable && s !in old(brain.qTable) ==> fresh(brain.qTable[s])
    {
      ghost var t0 := brain.Contents();
      rewardAcc := rewardAcc + WinReward;
      assert brain.Contents() == t0;
      if lastState.Some? {
        brain.Learn(lastState, lastAction, rewardAcc, None);
      }
    }

    /** `onDeath`: -80, then the terminal update exactly as on winning. */
    method OnDeath()
      requires Valid()
      modifies this, brain, brain.qTable.Values
      ensures Valid()
      ensures rewardAcc == old(rewardAcc) - DeathPenalty
      ensures unchanged(this`enemies) && lastState == old(lastState) && lastAction == old(lastAction)
      ensures brain.Contents() == if lastState.Some?
        then Learned(old(brain.Contents()), NumActions, lastState.value, lastAction, rewardAcc, None)
        else old(brain.Contents())
      ensures forall s :: s in old(brain.qTable) ==> s in brain.qTable && brain.qTable[s] == old(brain.qTable[s])
      ensures forall s :: s in brain.qTable && s !in old(brain.qTable) ==> fresh(brain.qTable[s])
    {
      ghost var t0 := brain.Contents();
      rewardAcc := rewardAcc - DeathPenalty;
      assert brain.Contents() == t0;
      if lastState.Some? {
        brain.Learn(lastState, lastAction, rewardAcc, None);
      }
    }
  }
}
