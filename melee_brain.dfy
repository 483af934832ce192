/**
 * The earlier Q-table brain (MeleeLearning/QBrain.java): lazily initialised zero rows,
 * argmax over the whole row, epsilon-greedy selection, and a Q-learning update that
 * always treats the next state as a real, non-terminal state.
 */
module MeleeBrain {
  import opened Wrappers
  import opened ActionValues

  /**
   * The `for (double v : newQ)` maximum. The source starts from -Double.MAX_VALUE,
   * below every finite value; here "no value seen yet" stands for that sentinel.
   */
  method MaxFutureQ(newQ: array<real>) returns (m: real)
    requires newQ.Length > 0
    ensures m == RowMax(newQ[..])
  {
    var maxSoFar: Option<real> := None;
    for i := 0 to newQ.Length
      invariant i == 0 <==> maxSoFar.None?
      invariant i > 0 ==> maxSoFar == Some(RowMax(newQ[..i]))
    {
      assert newQ[..i + 1][..i] == newQ[..i];
      var v := newQ[i];
      if maxSoFar.None? || v > maxSoFar.value {
        maxSoFar := Some(v);
      }
    }
    assert newQ[..newQ.Length] == newQ[..];
    m := maxSoFar.value;
  }

  class QBrain {
    /** The fixed number of actions; every row has this many entries. */
    const numActions: nat
    /** The HashMap from state key to its `double[]` row. */
    var qTable: map<string, array<real>>

    /** Rows have numActions entries and no two keys share a row array. */
    ghost predicate Valid()
      reads this, qTable.Values
    {
      && numActions > 0
      && (forall s :: s in qTable ==> qTable[s].Length == numActions)
      && (forall s, s' :: s in qTable && s' in qTable && s != s' ==> qTable[s] != qTable[s'])
    }

    /** The table as values: each key with the current contents of its row. */
    ghost function Contents(): (t: Table)
      reads this, qTable.Values
      ensures t.Keys == qTable.Keys
      ensures Valid() ==> WellShaped(t, numActions)
    {
      map s | s in qTable :: qTable[s][..]
    }

    constructor (numberOfActions: nat)
      requires numberOfActions > 0
      ensures Valid() && numActions == numberOfActions && Contents() == map[]
    {
      numActions := numberOfActions;
      qTable := map[];
    }

    /** `initNewState`: state now maps to a fresh all-zero row; other keys keep theirs. */
    method InitNewState(state: string)
      requires Valid()
      modifies this
      ensures Valid()
      ensures Contents() == old(Contents())[state := Zeros(numActions)]
      ensures fresh(qTable[state])
      ensures forall s :: s in old(qTable) && s != state ==> s in qTable && qTable[s] == old(qTable[s])
    {
      var row := new real[numActions](_ => 0.0);
      assert row[..] == Zeros(numActions);
      qTable := qTable[state := row];
    }

    /** The `containsKey` / `initNewState` guard: state present, created all zero if absent. */
    method Ensure(state: string)
      requires Valid()
      modifies this
      ensures Valid()
      ensures state in qTable
      ensures Contents() == Touch(old(Contents()), state, numActions)
      ensures forall s :: s in old(qTable) ==> s in qTable && qTable[s] == old(qTable[s])
      ensures forall s :: s in qTable && s !in old(qTable) ==> fresh(qTable[s])
    {
      if state !in qTable {
        InitNewState(state);
      }
    }

    /** `getBestAction`: lazily initialise state, then the lowest index holding its row maximum. */
    method GetBestAction(state: string) returns (bestAction: nat)
      requires Valid()
      modifies this
      ensures Valid()
      ensures Contents() == Touch(old(Contents()), state, numActions)
      ensures IsBestAction(Contents()[state], bestAction)
      ensures state !in old(qTable) ==> bestAction == 0
      ensures forall s :: s in old(qTable) ==> s in qTable && qTable[s] == old(qTable[s])
      ensures forall s :: s in qTable && s !in old(qTable) ==> fresh(qTable[s])
    {
      Ensure(state);
      var actions := qTable[state];
      bestAction := 0;
      var maxVal := actions[0];
      for i := 1 to actions.Length
        invariant bestAction < i && maxVal == actions[bestAction]
        invariant IsBestAction(actions[..i], bestAction)
      {
        if actions[i] > maxVal {
          maxVal := actions[i];
          bestAction := i;
        }
      }
      assert actions[..actions.Length] == actions[..];
      if state !in old(qTable) {
        ZerosBest(numActions);
      }
    }

    /**
     * `getAction`: when training and the epsilon coin `roll` falls below EPSILON, any
     * action and no table change; otherwise the best action of state.
     */
    method GetAction(state: string, isTraining: bool, roll: real) returns (action: nat)
      requires Valid()
      modifies this
      ensures Valid() && action < numActions
      ensures isTraining && roll < Epsilon ==> Contents() == old(Contents())
      ensures !(isTraining && roll < Epsilon) ==>
        Contents() == Touch(old(Contents()), state, numActions) && IsBestAction(Contents()[state], action)
      ensures forall s :: s in old(qTable) ==> s in qTable && qTable[s] == old(qTable[s])
      ensures forall s :: s in qTable && s !in old(qTable) ==> fresh(qTable[s])
    {
      if isTraining && roll < Epsilon {
        action :| 0 <= action < numActions;
      } else {
        action := GetBestAction(state);
      }
    }

    /**
     * `learn`: both states made present, then Q[oldState][actionTaken] takes the
     * Bellman value against the maximum of newState's row, read before the write.
     */
    method Learn(oldState: string, actionTaken: nat, reward: real, newState: string)
      requires Valid() && actionTaken < numActions
      modifies this, qTable.Values
      ensures Valid()
      ensures Contents() == Learned(old(Contents()), numActions, oldState, actionTaken, reward, Some(newState))
      ensures forall s :: s in old(qTable) ==> s in qTable && qTable[s] == old(qTable[s])
      ensures forall s :: s in qTable && s !in old(qTable) ==> fresh(qTable[s])
    {
      ghost var t0 := Contents();
      var oldQ, newQ := EnsureBoth(oldState, newState);
      ghost var t2 := Contents();
      var maxFutureQ := MaxFutureQ(newQ);
      assert Contents() == t2;
      assert maxFutureQ == Future(t2, numActions, Some(newState));
      var currentQ := oldQ[actionTaken];
      assert currentQ == t2[oldState][actionTaken];
      var updated := currentQ + Alpha * (reward + Gamma * maxFutureQ - currentQ);
      assert updated == Bellman(t2[oldState][actionTaken], reward, Future(t2, numActions, Some(newState)));
      SetEntry(oldState, actionTaken, updated);
      assert Contents() == t2[oldState := t2[oldState][actionTaken := updated]];
      LearnedUnfold(t0, numActions, oldState, actionTaken, reward, Some(newState));
    }

    /** The two `containsKey` / `initNewState` guards of `learn`, and the rows they leave. */
    method EnsureBoth(oldState: string, newState: string) returns (oldQ: array<real>, newQ: array<real>)
      requires Valid()
      modifies this
      ensures Valid()
      ensures oldState in qTable && oldQ == qTable[oldState]
      ensures newState in qTable && newQ == qTable[newState]
      ensures Contents() == Reached(old(Contents()), numActions, oldState, Some(newState))
      ensures forall s :: s in old(qTable) ==> s in qTable && qTable[s] == old(qTable[s])
      ensures forall s :: s in qTable && s !in old(qTable) ==> fresh(qTable[s])
    {
      Ensure(oldState);
      Ensure(newState);
      oldQ := qTable[oldState];
      newQ := qTable[newState];
    }

    /** Writes `qTable[s][a] := v` in place; no other row or entry changes. */
    method SetEntry(s: string, a: nat, v: real)
      requires Valid() && s in qTable && a < numActions
      modifies qTable[s]
      ensures Valid()
      ensures Contents() == old(Contents())[s := old(Contents())[s][a := v]]
    {
      ghost var before := Contents();
      qTable[s][a] := v;
      assert forall k :: k in qTable && k != s ==> qTable[k][..] == before[k];
    }
  }
}
