/**
 * Action-value arithmetic shared by both Q-learning brains
 * (UltraMeleeBot/QBrain.java and MeleeLearning/QBrain.java): the all-zero row a
 * state gets on first touch, the row maximum, the lowest-index argmax, the one-step
 * Q-learning rule, and the table-level effect of one learning step.
 */
module ActionValues {
  import opened Wrappers

  /** ALPHA, the learning rate of both brains. */
  const Alpha: real := 0.1
  /** GAMMA, the discount factor of both brains. */
  const Gamma: real := 0.9
  /** EPSILON, the exploration rate of both brains. */
  const Epsilon: real := 0.2

  /** One state's action values, indexed by action. */
  type Row = seq<real>
  /** The abstract Q-table: state key to action-value row. */
  type Table = map<string, Row>

  /** The row `new double[n]` holds: n zeros. */
  function Zeros(n: nat): (r: Row)
    ensures |r| == n
    ensures forall i :: 0 <= i < n ==> r[i] == 0.0
  {
    seq(n, _ => 0.0)
  }

  /** Every row of the table has exactly n entries. */
  ghost predicate WellShaped(t: Table, n: nat) {
    forall s :: s in t ==> |t[s]| == n
  }

  /**
   * The largest value of a non-empty row, scanning left to right the way the
   * source's `maxFutureQ` loops do.
   */
  function RowMax(row: Row): (m: real)
    requires |row| > 0
    ensures exists i :: 0 <= i < |row| && row[i] == m
    ensures forall i :: 0 <= i < |row| ==> row[i] <= m
  {
    if |row| == 1 then row[0]
    else
      var m := RowMax(row[..|row| - 1]);
      if row[|row| - 1] > m then row[|row| - 1] else m
  }

  /** `a` is a greatest entry of the row and no earlier entry reaches it. */
  predicate IsBestAction(row: Row, a: int) {
    && 0 <= a < |row|
    && (forall j :: 0 <= j < |row| ==> row[j] <= row[a])
    && (forall j :: 0 <= j < a ==> row[j] < row[a])
  }

  /** The argmax the source computes with a strict `>`: ties go to the lowest index. */
  function ArgMax(row: Row): (a: nat)
    requires |row| > 0
    ensures IsBestAction(row, a)
  {
    if |row| == 1 then 0
    else
      var b := ArgMax(row[..|row| - 1]);
      if row[|row| - 1] > row[b] then |row| - 1 else b
  }

  /** The best action of a row is unique, so any method that finds one finds ArgMax. */
  lemma BestActionUnique(row: Row, a: int, b: int)
    requires IsBestAction(row, a) && IsBestAction(row, b)
    ensures a == b
  {
    assert row[a] == row[b];
  }

  /** A fresh all-zero row has maximum 0 and best action 0. */
  lemma ZerosBest(n: nat)
    requires n > 0
    ensures RowMax(Zeros(n)) == 0.0
    ensures forall a :: IsBestAction(Zeros(n), a) <==> a == 0
  {
  }

  /**
   * The one-step Q-learning rule q + ALPHA * (reward + GAMMA * future - q): the new
   * value closes exactly ALPHA of the gap to the target reward + GAMMA * future, so it
   * lies between the old value and the target.
   */
  function Bellman(q: real, reward: real, future: real): (q': real)
    ensures q' - (reward + Gamma * future) == (1.0 - Alpha) * (q - (reward + Gamma * future))
    ensures q <= reward + Gamma * future ==> q <= q' <= reward + Gamma * future
    ensures reward + Gamma * future <= q ==> reward + Gamma * future <= q' <= q
  {
    q + Alpha * (reward + Gamma * future - q)
  }

  /** The row stored for s, or the all-zero row a lazily created entry gets. */
  function RowOf(t: Table, s: string, n: nat): Row {
    if s in t then t[s] else Zeros(n)
  }

  /**
   * `computeIfAbsent(s, zero row)`: the table gains at most the key s, and every row
   * afterwards is the row that was there or an all-zero one.
   */
  function Touch(t: Table, s: string, n: nat): (t': Table)
    ensures t'.Keys == t.Keys + {s}
    ensures forall k :: k in t' ==> t'[k] == RowOf(t, k, n)
    ensures WellShaped(t, n) ==> WellShaped(t', n)
  {
    if s in t then t else t[s := Zeros(n)]
  }

  /** The future estimate of a step: 0 at a terminal step, else the maximum of next's row. */
  function Future(t: Table, n: nat, next: Option<string>): real
    requires n > 0 && WellShaped(t, n)
  {
    match next
    case None => 0.0
    case Some(k) => RowMax(RowOf(t, k, n))
  }

  /**
   * The table after one learning step on (s, a, reward, next): the rows of s and of
   * next are created lazily, then Q[s][a] takes the Bellman value with the future
   * estimate read before the write. Nothing else changes: only s and next can be new
   * keys, a new row is all zero, and of s's row only entry a moves.
   */
  function Learned(t: Table, n: nat, s: string, a: nat, reward: real, next: Option<string>): (t': Table)
    requires 0 <= a < n && WellShaped(t, n)
    ensures WellShaped(t', n)
    ensures t'.Keys == t.Keys + {s} + (if next.Some? then {next.value} else {})
    ensures t'[s][a] == Bellman(RowOf(t, s, n)[a], reward, Future(t, n, next))
    ensures forall j :: 0 <= j < n && j != a ==> t'[s][j] == RowOf(t, s, n)[j]
    ensures forall k :: k in t' && k != s ==> t'[k] == RowOf(t, k, n)
  {
    var t2 := Reached(t, n, s, next);
    assert next.Some? ==> RowOf(t2, next.value, n) == RowOf(t, next.value, n);
    var future := Future(t2, n, next);
    t2[s := t2[s][a := Bellman(t2[s][a], reward, future)]]
  }

  /** The table a learning step reads from: s's and next's rows created lazily, in that order. */
  function Reached(t: Table, n: nat, s: string, next: Option<string>): Table {
    var t1 := Touch(t, s, n);
    if next.Some? then Touch(t1, next.value, n) else t1
  }

  /** One learning step is the Bellman write into the table it reads from. */
  lemma LearnedUnfold(t: Table, n: nat, s: string, a: nat, reward: real, next: Option<string>)
    requires 0 <= a < n && WellShaped(t, n)
    ensures var t2 := Reached(t, n, s, next);
      && WellShaped(t2, n) && s in t2
      && Learned(t, n, s, a, reward, next) == t2[s := t2[s][a := Bellman(t2[s][a], reward, Future(t2, n, next))]]
  {
  }

  /** Touching s before a step that starts in s changes nothing about the step. */
  lemma LearnedAbsorbsTouch(t: Table, n: nat, s: string, a: nat, reward: real, next: Option<string>)
    requires 0 <= a < n && WellShaped(t, n)
    ensures Learned(Touch(t, s, n), n, s, a, reward, next) == Learned(t, n, s, a, reward, next)
  {
  }

  /**
   * At a terminal step the new Q[s] depends on s's own row alone: no other state's
   * values leak into the episode's last update.
   */
  lemma TerminalIgnoresOtherStates(t1: Table, t2: Table, n: nat, s: string, a: nat, reward: real)
    requires 0 <= a < n && WellShaped(t1, n) && WellShaped(t2, n)
    requires RowOf(t1, s, n) == RowOf(t2, s, n)
    ensures Learned(t1, n, s, a, reward, None)[s] == Learned(t2, n, s, a, reward, None)[s]
  {
    var r1, r2 := Learned(t1, n, s, a, reward, None)[s], Learned(t2, n, s, a, reward, None)[s];
    assert |r1| == |r2| == n;
    forall j | 0 <= j < n ensures r1[j] == r2[j] {
    }
  }

  /**
   * Two worked first updates: from an empty table, Q[s][a] = 0, reward 10 and an
   * all-zero next row give 1.0; reward 15 - 10 + 0.1 = 5.1 gives 0.51.
   */
  lemma FirstUpdateExamples()
    ensures Learned(map[], 4, "s", 1, 10.0, Some("s'"))["s"][1] == 1.0
    ensures Learned(map[], 4, "CLOSE-LOW-DUEL", 1, 15.0 - 10.0 + 0.1, Some("MID-LOW-DUEL"))["CLOSE-LOW-DUEL"][1] == 0.51
  {
    ZerosBest(4);
  }
}
