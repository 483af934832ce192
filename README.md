# Q-learning melee robots, modelled in Dafny

This project models the tabular Q-learning core of two Robocode melee robots.
UltraMeleeBot is the refined variant and TrainerBot (MeleeLearning) is the earlier one.
Each robot keeps its own `QBrain`:

- The brain is a hash map from a state key to an array of action values. A row is created all zero the first time a state is touched.
- It has an argmax policy with ties going to the lowest index, and epsilon-greedy exploration.
- It applies the one-step Q-learning update with α = 0.1 and γ = 0.9.

The robot around each brain does four things:

- It discretises what it sees into a state key. It filters stale enemies, takes the nearest distance and the count of fresh enemies, buckets them together with its own energy (and, for UltraMeleeBot, its distance to the nearest wall), and joins the labels with a separator.
- It keeps a per-name enemy table.
- It runs a decision loop: choose an action, hold it for 20 or 15 ticks while events change a reward accumulator, then learn from the step.
- It picks targets and firing power, and aims with a clamped 15-step intercept iteration.

Modules:

- `ActionValues` holds the action-value arithmetic both brains share. `Table` is the brain as a value: key to row. On it are defined:
  - `Touch`: the lazy creation of a row;
  - `Bellman`: the update rule;
  - `Learned`: the whole table after one learning step.
- `UltraBrain` and `MeleeBrain` are the two `QBrain` classes.
  - Each has a `map<string, array<real>>` field that its methods update in place.
  - Each method is proved against `ActionValues` through the ghost view `Contents()`.
- `Keys` proves that joining separator-free labels is injective.
- `UltraState` and `TrainerState` hold the buckets, labels and keys of the two robots.
- `Arena` holds points, enemy records, host readings and the enemy-table update. It also holds the two scans over the enemy table: the fresh count with the nearest distance, and the nearest fresh target.
- `Intercept` is the 15-step aim iteration.
- `UltraBot` and `Trainer` are the two robot classes, with their run loop, event handlers and targeting.

Host inputs are parameters of the model:

- The host readings (position, energy, clock, field size) are a `Snapshot`.
- The distance function, `Math.sin` and `Math.cos` are functions passed to the robot.
- The epsilon coin is a `roll` parameter, and the random action is any action in range.
- The events of a hold are a sequence of per-tick event lists, handled in delivery order.
- A scan or death event carries the clock reading `getTime()` of its handler.

The brain that the source keeps in a static field is one brain object handed to each robot.

## Model

| member | source | states |
|---|---|---|
| ActionValues.Zeros | UltraMeleeBot/QBrain.java:32 | the new row has numActions entries, all 0 |
| ActionValues.RowMax | MeleeLearning/QBrain.java:64-67 | the maximum is an entry of the row and no entry exceeds it |
| ActionValues.ArgMax | UltraMeleeBot/QBrain.java:36-45 | the result is a best action: no entry exceeds it and every earlier entry is strictly smaller, so ties go to the lowest index |
| ActionValues.BestActionUnique | UltraMeleeBot/QBrain.java:40-43 | a row has exactly one best action in that sense, so every argmax loop returns `ArgMax` |
| ActionValues.ZerosBest | MeleeLearning/QBrain.java:34-37 | an all-zero row has maximum 0 and its only best action is 0 |
| ActionValues.Bellman | UltraMeleeBot/QBrain.java:84-85 | the gap to the target reward + γ·future shrinks by exactly 1 − α; the new value lies between the old value and the target |
| ActionValues.Touch | UltraMeleeBot/QBrain.java:31-33 | creating a row adds at most that key; every row afterwards is the old row, or all zero if the key is new |
| ActionValues.Learned | UltraMeleeBot/QBrain.java:65-87 | only oldState and newState can become keys, and new rows are zero; Q[s][a] takes the Bellman value with the future estimate (0 when terminal, else the maximum of newState's row) read before the write; no other entry of any row changes |
| ActionValues.LearnedUnfold | MeleeLearning/QBrain.java:58-71 | a proof aid: unfolds `Learned` into the Bellman write on the table after both rows were created, the form the two `learn` methods compute |
| ActionValues.LearnedAbsorbsTouch | UltraMeleeBot/QBrain.java:68 | creating s's row just before a step from s does not change the step's result |
| ActionValues.TerminalIgnoresOtherStates | UltraMeleeBot/QBrain.java:70-73 | a terminal step's new row for s depends only on s's old row |
| ActionValues.FirstUpdateExamples | UltraMeleeBot/QBrain.java:84-86 | from an empty table, reward 10 and a zero next row give 1.0; reward 5.1 gives 0.51 |
| UltraBrain.MaxOf | UltraMeleeBot/QBrain.java:76-81 | the loop's result is the row maximum |
| UltraBrain.QBrain.constructor | UltraMeleeBot/QBrain.java:24-28 | an empty table with the given number of actions |
| UltraBrain.QBrain.GetQRow | UltraMeleeBot/QBrain.java:31-33 | the returned array is the table's row for the state; the contents become `Touch` of the old contents; existing rows keep their arrays and any new array is fresh |
| UltraBrain.QBrain.GetBestAction | UltraMeleeBot/QBrain.java:35-46 | the row is created if absent; the result is the best action of the state's row; an unseen state yields 0; existing rows keep their arrays and any new array is fresh |
| UltraBrain.QBrain.GetAction | UltraMeleeBot/QBrain.java:48-55 | the action is in range; exploring leaves the table unchanged; otherwise the result is the best action of the touched row; existing rows keep their arrays and any new array is fresh |
| UltraBrain.QBrain.Learn | UltraMeleeBot/QBrain.java:65-87 | with no previous state the table is unchanged; otherwise the contents become `Learned`, which includes the terminal case; existing rows keep their arrays and any new array is fresh, so learning steps can follow one another |
| UltraBrain.QBrain.ReadRows | UltraMeleeBot/QBrain.java:68-82 | both rows are created in source order; the future estimate is 0 when terminal, else the maximum of newState's row |
| UltraBrain.QBrain.SetEntry | UltraMeleeBot/QBrain.java:86 | only entry (s, a) takes the new value |
| UltraBrain.QBrain.Load | UltraMeleeBot/QBrain.java:103-116 | a read map replaces the table exactly, with freshly allocated rows; a missing file, an unreadable file or a non-map leaves the table as it was |
| MeleeBrain.MaxFutureQ | MeleeLearning/QBrain.java:64-67 | the loop's result is the maximum of newState's row |
| MeleeBrain.QBrain.constructor | MeleeLearning/QBrain.java:27-31 | an empty table with the given number of actions |
| MeleeBrain.QBrain.InitNewState | MeleeLearning/QBrain.java:74-76 | the state maps to a fresh all-zero row; every other row is kept |
| MeleeBrain.QBrain.Ensure | MeleeLearning/QBrain.java:58 | the state is present afterwards; the contents become `Touch` of the old contents |
| MeleeBrain.QBrain.GetBestAction | MeleeLearning/QBrain.java:33-47 | an unseen state is created and yields 0; the result is the best action of the state's row |
| MeleeBrain.QBrain.GetAction | MeleeLearning/QBrain.java:49-55 | the action is in range; exploring leaves the table unchanged; otherwise the result is the best action of the touched row |
| MeleeBrain.QBrain.Learn | MeleeLearning/QBrain.java:57-72 | the contents become `Learned` with a non-terminal next state; this is correct when oldState == newState because the maximum is read before the write; existing rows keep their arrays and any new array is fresh |
| MeleeBrain.QBrain.EnsureBoth | MeleeLearning/QBrain.java:58-62 | both states are present, with zero rows only for absent keys, and the two arrays are theirs |
| MeleeBrain.QBrain.SetEntry | MeleeLearning/QBrain.java:71 | only `oldQ[actionTaken]` changes |
| Keys.JoinInjective | UltraMeleeBot/UltraMeleeBot.java:137 | when neither head holds the separator, `x + sep + y` determines x and y |
| Keys.JoinPartsInjective | UltraMeleeBot/UltraMeleeBot.java:137 | joining equally many separator-free labels is injective |
| UltraState.RangeOf | UltraMeleeBot/UltraMeleeBot.java:118-121 | each distance bucket holds exactly its half-open interval: < 150, [150, 300), [300, 600), ≥ 600 |
| UltraState.VitalityOf | UltraMeleeBot/UltraMeleeBot.java:123-125 | each energy bucket holds exactly its interval: > 70, (30, 70], ≤ 30 |
| UltraState.CrowdOf | UltraMeleeBot/UltraMeleeBot.java:127-130 | each count bucket holds exactly its range: ≥ 5, 3-4, 1-2, 0 |
| UltraState.WallDistance | UltraMeleeBot/UltraMeleeBot.java:132-134 | the wall distance is the least of the distances to the four walls: no larger than any of them and equal to one of them |
| UltraState.ZoneOf | UltraMeleeBot/UltraMeleeBot.java:135 | WALL holds exactly when the wall distance is below 80 |
| UltraState.RangeMonotone | UltraMeleeBot/UltraMeleeBot.java:118-121 | a larger distance never falls in a nearer bucket |
| UltraState.Classify | UltraMeleeBot/UltraMeleeBot.java:116-135 | with no fresh enemy the distance bucket is FAR |
| UltraState.LabelsDistinct | UltraMeleeBot/UltraMeleeBot.java:118-135 | no label contains "\|", and equal label lists come from equal buckets |
| UltraState.Key | UltraMeleeBot/UltraMeleeBot.java:137 | the key is the distance, energy, count and wall labels in that order, separated by "\|" |
| UltraState.KeyInjective | UltraMeleeBot/UltraMeleeBot.java:137 | two keys are equal exactly when their bucket tuples are equal |
| TrainerState.RangeOf | MeleeLearning/TrainerBot.java:102 | each distance bucket holds exactly its interval: < 250, [250, 600), ≥ 600 |
| TrainerState.VitalityOf | MeleeLearning/TrainerBot.java:103 | each energy bucket holds exactly its interval: > 60, (25, 60], ≤ 25 |
| TrainerState.CrowdOf | MeleeLearning/TrainerBot.java:104 | each count bucket holds exactly its range: > 4, 2-4, ≤ 1 |
| TrainerState.Classify | MeleeLearning/TrainerBot.java:100-104 | with no fresh enemy the distance bucket is FAR; a count of 0 or 1 is DUEL |
| TrainerState.LabelsDistinct | MeleeLearning/TrainerBot.java:102-104 | no label contains "-", and equal label lists come from equal buckets |
| TrainerState.Key | MeleeLearning/TrainerBot.java:106 | the key is the distance, energy and count labels in that order, separated by "-" |
| TrainerState.KeyInjective | MeleeLearning/TrainerBot.java:106 | two keys are equal exactly when their bucket tuples are equal |
| Arena.Track | UltraMeleeBot/UltraMeleeBot.java:353-377 | a scan at clock `now` inserts or overwrites the scanned name with what was seen, last seen at `now`; a death removes that name; no other name changes |
| Arena.NearestDistance | UltraMeleeBot/UltraMeleeBot.java:110-116 | None exactly when no enemy is fresh; otherwise the distance of some fresh enemy, and no fresh enemy is nearer |
| Arena.CountAndNearest | UltraMeleeBot/UltraMeleeBot.java:110-116 | the loop counts exactly the fresh enemies and finds their least distance, whatever order the map yields; TrainerBot.java 93-100 is the same loop |
| Arena.NearestFresh | UltraMeleeBot/UltraMeleeBot.java:175-190 | None exactly when no enemy is fresh; otherwise a fresh enemy at least distance, and every fresh enemy visited before it is strictly farther; TrainerBot.java 263-272 is the same loop |
| Intercept.ClampAxis | UltraMeleeBot/UltraMeleeBot.java:238-239 | the result is at least 18, at most limit − 18 when the field is wide enough, and unchanged when already inside |
| Intercept.Advance | UltraMeleeBot/UltraMeleeBot.java:234-235 | a target with velocity 0 stays where it is |
| Intercept.Refine | UltraMeleeBot/UltraMeleeBot.java:233-239 | whatever sin, cos and distance return, one step is at least 18 from the left and bottom walls and lies in [18, W − 18] × [18, H − 18] when the field is at least 36 by 36; for a stationary target it is the clamped target position, whatever the previous estimate |
| Intercept.Estimate | UltraMeleeBot/UltraMeleeBot.java:228-240 | the iteration starts at the target's position; every estimate after the first step has the bounds of one step, and for a stationary target it is the clamped target position |
| Intercept.PredictIntercept | UltraMeleeBot/UltraMeleeBot.java:228-240 | the loop computes the 15th estimate; the aim lies in the field and is the clamped target position when the target stands still |
| UltraBot.Delta | UltraMeleeBot/UltraMeleeBot.java:380-404 | only a bullet hit earns a positive delta, exactly the scans and deaths earn 0, and every delta lies within ±20; each handler's row gives its exact value |
| UltraBot.QuietHoldReward | UltraMeleeBot/UltraMeleeBot.java:94-99 | ticks without events add 0.03 each |
| UltraBot.QuietHoldIsPointSix | UltraMeleeBot/UltraMeleeBot.java:94-99 | a quiet 20-tick hold adds 0.6 |
| UltraBot.FirePower | UltraMeleeBot/UltraMeleeBot.java:218-225 | the power is within [0.1, 3.0]; at most 1.5 when energy < 20 or distance > 500; at most 1.0 beyond 750; never above the desired power unless raised to 0.1; the desired power is kept when no cap applies |
| UltraBot.BulletSpeed | UltraMeleeBot/UltraMeleeBot.java:227 | the speed is below 20 exactly for a positive power, and lies in [11, 19.7] for every power in [0.1, 3.0] |
| UltraBot.FirePowerSpeed | UltraMeleeBot/UltraMeleeBot.java:225-227 | the bullet speed 20 − 3p lies in [11, 19.7] |
| UltraBot.UltraMeleeBot.constructor | UltraMeleeBot/UltraMeleeBot.java:33-35 | no previous state, action 0, nothing accumulated, no enemies |
| UltraBot.UltraMeleeBot.BuildState | UltraMeleeBot/UltraMeleeBot.java:105-138 | the key is the key of the buckets of the fresh count, the nearest fresh distance (1000 if none), the energy and the wall distance |
| UltraBot.UltraMeleeBot.GetBestTarget | UltraMeleeBot/UltraMeleeBot.java:175-190 | None exactly when no enemy is fresh (within 40 ticks); otherwise a nearest fresh enemy, the first visited on ties |
| UltraBot.UltraMeleeBot.AimAndFirePredictive | UltraMeleeBot/UltraMeleeBot.java:214-240 | the power is the clamped power; the aim is the 15-step estimate for that power, inside the field, and the clamped target position when the target stands still |
| UltraBot.UltraMeleeBot.Run | UltraMeleeBot/UltraMeleeBot.java:79-100 | passes of the loop run one after another; the enemy table is the fold of every pass's hold; the remembered key is the key of the last pass's readings over the table before its hold; after a pass that followed a decision, the accumulator holds exactly that pass's hold reward; existing rows keep their arrays and any new array is fresh |
| UltraBot.UltraMeleeBot.RunPass | UltraMeleeBot/UltraMeleeBot.java:80-99 | one decision and its 20-tick hold: the remembered key is the key of the pass's readings; with a previous state the brain takes the `Learned` step into that key and the accumulator afterwards is exactly the hold's reward; without one the accumulator gains the hold's reward, and the table is unchanged when exploring and gains at most the key's zero row otherwise; the enemy table follows the hold; existing rows keep their arrays and any new array is fresh |
| UltraBot.UltraMeleeBot.Decide | UltraMeleeBot/UltraMeleeBot.java:79-91 | with a previous state, the brain takes the `Learned` step into the current key and the accumulator is cleared; without one, nothing is learned, the accumulator is kept, and the table is unchanged when exploring and gains at most the current key's zero row otherwise; lastState and lastAction become the current key and the chosen action, which is best unless exploring; existing rows keep their arrays and any new array is fresh |
| UltraBot.UltraMeleeBot.Step | UltraMeleeBot/UltraMeleeBot.java:84-91 | as Decide, for an already built key (an exploring first decision leaves the table unchanged) |
| UltraBot.UltraMeleeBot.Settle | UltraMeleeBot/UltraMeleeBot.java:84-87 | learn from the previous step only when there is one, then clear the accumulator |
| UltraBot.UltraMeleeBot.Remember | UltraMeleeBot/UltraMeleeBot.java:90-91 | lastState and lastAction are set; nothing else changes |
| UltraBot.UltraMeleeBot.Hold | UltraMeleeBot/UltraMeleeBot.java:94-99 | 20 ticks add 0.03 each plus their event deltas, the enemy table follows the scans and deaths, and the brain is not touched |
| UltraBot.UltraMeleeBot.Deliver | UltraMeleeBot/UltraMeleeBot.java:98 | one tick's events are handled in order |
| UltraBot.UltraMeleeBot.Handle | UltraMeleeBot/UltraMeleeBot.java:353-404 | each event adds its delta, or updates the enemy table |
| UltraBot.UltraMeleeBot.OnBulletHit | UltraMeleeBot/UltraMeleeBot.java:380-382 | +20 |
| UltraBot.UltraMeleeBot.OnHitByBullet | UltraMeleeBot/UltraMeleeBot.java:385-387 | −15 |
| UltraBot.UltraMeleeBot.OnBulletMissed | UltraMeleeBot/UltraMeleeBot.java:390-392 | −2 |
| UltraBot.UltraMeleeBot.OnHitWall | UltraMeleeBot/UltraMeleeBot.java:395-398 | −20 |
| UltraBot.UltraMeleeBot.OnHitRobot | UltraMeleeBot/UltraMeleeBot.java:401-404 | −8 |
| UltraBot.UltraMeleeBot.OnScannedRobot | UltraMeleeBot/UltraMeleeBot.java:353-370 | the scanned name's record becomes the scanned position, energy, heading and velocity, last seen at the clock `now` of the scan; no other record changes |
| UltraBot.UltraMeleeBot.OnRobotDeath | UltraMeleeBot/UltraMeleeBot.java:373-377 | only the dead robot's name leaves the table |
| UltraBot.UltraMeleeBot.OnWin | UltraMeleeBot/UltraMeleeBot.java:407-413 | +80; then, only with a previous state, the terminal `Learned` step with the whole accumulator |
| UltraBot.UltraMeleeBot.OnDeath | UltraMeleeBot/UltraMeleeBot.java:416-422 | −80; then, only with a previous state, the terminal `Learned` step with the whole accumulator |
| Trainer.Delta | MeleeLearning/TrainerBot.java:111-128 | the event deltas +15, −15 (−20 while camping in a corner), −10, −1, and 0 for scans and deaths |
| Trainer.TickCampPenalty | MeleeLearning/TrainerBot.java:115-119 | in one tick, camping costs exactly 5 more per hit than any other action |
| Trainer.CampPenalty | MeleeLearning/TrainerBot.java:115-119 | over a hold, camping costs exactly 5 more per hit taken |
| Trainer.Corners | MeleeLearning/TrainerBot.java:202 | four corner targets, each 20 from a side wall and 20 from the top or bottom wall, pairwise different in a field wider and taller than 40 |
| Trainer.SmartFirePower | MeleeLearning/TrainerBot.java:214 | 0.5 below 10 energy, else the power asked for; a power in (0, 3] stays in (0, 3] |
| Trainer.ActionFirePower | MeleeLearning/TrainerBot.java:148-167 | the power asked for is in (0, 3], which is what `smartFire` accepts; there is none exactly for anti-gravity at 15 energy or less (rushdown asks 3.0 at line 194) |
| Trainer.ChoiceAbsorbed | MeleeLearning/TrainerBot.java:63-81 | the row that `getAction` may create for the cycle's state does not change that cycle's learning step |
| Trainer.TrainerBot.constructor | MeleeLearning/TrainerBot.java:28-32 | no state, action 0, nothing accumulated, no enemies |
| Trainer.TrainerBot.GetState | MeleeLearning/TrainerBot.java:88-107 | the key is the key of the buckets of the fresh count (within 60 ticks), the nearest fresh distance (1000 if none) and the energy |
| Trainer.TrainerBot.GetNearestEnemy | MeleeLearning/TrainerBot.java:263-272 | None exactly when no enemy is fresh; otherwise a nearest fresh enemy, the first visited on ties |
| Trainer.TrainerBot.NearestCorner | MeleeLearning/TrainerBot.java:200-208 | the corner at least distance among the four, the first listed on ties |
| Trainer.TrainerBot.ExecuteActionFire | MeleeLearning/TrainerBot.java:148-166 | no shot exactly when no enemy is fresh or the action asks for no power; otherwise the nearest fresh enemy is fired at with `smartFire`'s adjustment of the action's power, which stays in (0, 3] |
| Trainer.TrainerBot.SmartFire | MeleeLearning/TrainerBot.java:212-224 | power 0.5 below 10 energy, else the power asked; the aim is the 15-step estimate, inside the field, and the clamped target position when the target stands still |
| Trainer.TrainerBot.Run | MeleeLearning/TrainerBot.java:60-84 | passes of the loop run one after another; the enemy table is the fold of every pass's hold; the remembered key is the key of the last pass's start readings over the table before its hold; after any pass the accumulator is 0; existing rows keep their arrays and any new array is fresh |
| Trainer.TrainerBot.Cycle | MeleeLearning/TrainerBot.java:60-84 | learn from the start state, the chosen action, the reward accumulated during the hold plus 0.1, and the state after 15 ticks; then the accumulator is 0; unless exploring, the action is a best action of the start state's row (all zero if new); existing rows keep their arrays and any new array is fresh |
| Trainer.TrainerBot.HoldAndLearn | MeleeLearning/TrainerBot.java:71-83 | the hold, a new `getState`, and the learning step from the remembered state and action |
| Trainer.TrainerBot.Choose | MeleeLearning/TrainerBot.java:63-65 | the state and the chosen action are remembered; exploring leaves the table unchanged; otherwise the table gains at most the state's zero row and the action is best |
| Trainer.TrainerBot.LearnStep | MeleeLearning/TrainerBot.java:80-83 | +0.1, the `Learned` step into newState, then the accumulator is 0 |
| Trainer.TrainerBot.Hold | MeleeLearning/TrainerBot.java:71-75 | 15 ticks add their event deltas under the held action, the enemy table follows the scans and deaths, and the brain is not touched |
| Trainer.TrainerBot.Deliver | MeleeLearning/TrainerBot.java:74 | one tick's events are handled in order |
| Trainer.TrainerBot.Handle | MeleeLearning/TrainerBot.java:111-128 | each event adds its delta, or updates the enemy table |
| Trainer.TrainerBot.OnBulletHit | MeleeLearning/TrainerBot.java:111-113 | +15 |
| Trainer.TrainerBot.OnHitByBullet | MeleeLearning/TrainerBot.java:115-119 | −15, and 5 more while camping in a corner |
| Trainer.TrainerBot.OnHitWall | MeleeLearning/TrainerBot.java:121-124 | −10 |
| Trainer.TrainerBot.OnBulletMissed | MeleeLearning/TrainerBot.java:126-128 | −1 |
| Trainer.TrainerBot.OnDeath | MeleeLearning/TrainerBot.java:130-133 | −50, and the brain is not touched |
| Trainer.TrainerBot.OnWin | MeleeLearning/TrainerBot.java:135-138 | +50, and the brain is not touched |
| Trainer.TrainerBot.OnScannedRobot | MeleeLearning/TrainerBot.java:275-286 | the scanned name's record becomes the scanned position, energy, heading and velocity, last seen at the clock `now` of the scan; no other record changes |
| Trainer.TrainerBot.OnRobotDeath | MeleeLearning/TrainerBot.java:288 | only the dead robot's name leaves the table |

## Left out

- Robocode host calls are not modelled: movement, turning, gun and radar commands, `fire`, `execute`, colours, and the radar routines `doRadarLock` and `radarLogic`. Their readings enter as a `Snapshot`.
- The strategies run on every tick of a hold are not modelled: `executeStrategy` and `executeAction` with their movement. Only its firing is kept, in `ActionFirePower` and `ExecuteActionFire`; rushdown's shot (line 194) is fired from its movement routine and is covered by the same power table.
- The anti-gravity force sums, `goTo`/`goToAngle`/`angleTo`/`turnToAngle` and the reconstruction of an enemy's position from its bearing are not modelled. They are floating-point trigonometry. A scan arrives as the position, energy, heading and velocity it reports, together with the clock `now` that `getTime()` reads in the handler; the handler stamps that clock as `lastSeen`. The clock of each scan is taken as given: the model does not require the scans of one tick to share it.
- The endless `while (true)` loop of each `run` is modelled by `Run` over a finite sequence of passes; a run that never ends is not.
- UltraBot.UltraMeleeBot.Run: across several passes it states the enemy table, the last key, the last accumulator and the array frame, but not the brain table. Each pass's table change is stated by `RunPass` (and `Decide`); an exploring pass may take any action, so the table after several passes is not a function of the passes alone.
- Trainer.TrainerBot.Run: likewise states the enemy table, the last key, the cleared accumulator and the array frame across passes, not the brain table; each pass's table change is stated by `Cycle`.
- `wallSmoothing` is not modelled: its recursion ends only because of trigonometric geometry.
- The firing decision (gun heat and the remaining gun turn) depends on host state that is not modelled. `AimAndFirePredictive` and `SmartFire` stop at the power and the aim point.
- Randomness is not modelled as a distribution. The epsilon coin is the `roll` parameter, the random action is any action in range, and `Math.random` in the movement is left out with the movement.
- The saving and loading of files are not modelled: serialisation, `mkdirs`, the printed messages and the swallowed exceptions. The load of MeleeLearning/QBrain.java, a plain cast-and-replace, is left out with them.
- UltraBrain.QBrain.Load: requires every row of a read map to hold numActions values. The source casts without checking, so a saved table from a robot with another action count is not covered.
- IEEE-754 doubles are not modelled: values are exact reals. The sentinels `1e9`, `Double.POSITIVE_INFINITY` and `-Double.MAX_VALUE` become an explicit "none yet" case. A fresh enemy at distance 1e9 or more never lowers `buildState`'s minimum below the sentinel, so the source reads the distance as 1000, while the model keeps its real distance. Both fall in FAR, so the key is the same.
- The static brain shared by all rounds is one brain object passed to each robot's constructor. That object is allocated once and not modelled across rounds.
- Win and death events that arrive in the middle of a hold are not modelled. `OnWin`/`OnDeath` are separate operations, and `Hold` handles only the repeating events and the scan and death of other robots.
- UltraBot.UltraMeleeBot.Settle and Trainer.TrainerBot.LearnStep clear the accumulator before the call to `learn` rather than after it, having already passed its value. Java passes the reward by value, so the result is the same.
- The HashMap iteration order is not modelled. The scans visit the names in an order that the model leaves unspecified, and the order is reported as a ghost sequence so that the tie rule can be stated.
