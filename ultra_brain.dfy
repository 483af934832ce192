/**
 * The Q-table brain of UltraMeleeBot (UltraMeleeBot/QBrain.java): a table from state
 * keys to action-value rows, created lazily, with an argmax policy, epsilon-greedy
 * exploration, the Q-learning update with a "no previous state" guard and a terminal
 * case, and the replace-or-keep decision of loading a saved table.
 */
module UltraBrain {
  import opened Wrappers
  import opened ActionValues

  /** What reading the brain file's object produced. */
  datatype Deserialized = NotAMap | MapImage(rows: Table)

  /** The brain file: absent, unreadable (the read threw), or read to an object. */
  datatype Stored = Missing | Unreadable | Read(obj: Deserialized)

  /** The running maximum of the `maxFutureQ` loop over a non-empty row. */
  method MaxOf(row: array<real>) returns (m: real)
    requires row.Length > 0
    ensures m == RowMax(row[..])
  {
    m := row[0];
    for i := 1 to row.Length
      invariant m == RowMax(row[..i])
    {
      assert row[..i + 1][..i] == row[..i];
      if row[i] > m {
        m := row[i];
      }
    }
    assert row[..row.Length] == row[..];
  }

  class QBrain {
    /** The fixed number of actions; every row has this many entries. */
    const numActions: nat
    /** The HashMap from state key to its `double[]` row. */
    var qTable: map<string, array<real>>

    /** Rows have numActions entries and no two keys share a row array. */
    ghost predicate Valid()
      reads this, qTable.Values
    {
      && numActions > 0
      && (forall s :: s in qTable ==> qTable[s].Length == numActions)
      && (forall s, s' :: s in qTable && s' in qTable && s != s' ==> qTable[s] != qTable[s'])
    }

    /** The table as values: each key with the current contents of its row. */
    ghost function Contents(): (t: Table)
      reads this, qTable.Values
      ensures t.Keys == qTable.Keys
      ensures Valid() ==> WellShaped(t, numActions)
    {
      map s | s in qTable :: qTable[s][..]
    }

    constructor (n: nat)
      requires n > 0
      ensures Valid() && numActions == n && Contents() == map[]
    {
      numActions := n;
      qTable := map[];
    }

    /** `getQRow`: the row of state, inserting an all-zero row when state is absent. */
    method GetQRow(state: string) returns (row: array<real>)
      requires Valid()
      modifies this
      ensures Valid()
      ensures state in qTable && row == qTable[state]
      ensures Contents() == Touch(old(Contents()), state, numActions)
      ensures forall s :: s in old(qTable) ==> s in qTable && qTable[s] == old(qTable[s])
      ensures forall s :: s in qTable && s !in old(qTable) ==> fresh(qTable[s])
    {
      ghost var before := Contents();
      if state in qTable {
        row := qTable[state];
      } else {
        row := new real[numActions](_ => 0.0);
        assert row[..] == Zeros(numActions);
        qTable := qTable[state := row];
        assert Contents() == before[state := Zeros(numActions)];
      }
    }

    /** `getBestAction`: the lowest index holding the maximum of state's (lazily created) row. */
    method GetBestAction(state: string) returns (best: nat)
      requires Valid()
      modifies this
      ensures Valid()
      ensures Contents() == Touch(old(Contents()), state, numActions)
      ensures IsBestAction(Contents()[state], best)
      ensures state !in old(qTable) ==> best == 0
      ensures forall s :: s in old(qTable) ==> s in qTable && qTable[s] == old(qTable[s])
      ensures forall s :: s in qTable && s !in old(qTable) ==> fresh(qTable[s])
    {
      var row := GetQRow(state);
      best := 0;
      var bestVal := row[0];
      for i := 1 to numActions
        invariant best < i && bestVal == row[best]
        invariant IsBestAction(row[..i], best)
      {
        if row[i] > bestVal {
          bestVal := row[i];
          best := i;
        }
      }
      assert row[..numActions] == row[..];
      if state !in old(qTable) {
        ZerosBest(numActions);
      }
    }

    /**
     * `getAction`: when training and the epsilon coin `roll` (the `nextDouble()` draw)
     * falls below EPSILON, any action (the `nextInt` draw) and no table change;
     * otherwise the best action of state.
     */
    method GetAction(state: string, training: bool, roll: real) returns (action: nat)
      requires Valid()
      modifies this
      ensures Valid() && action < numActions
      ensures training && roll < Epsilon ==> Contents() == old(Contents())
      ensures !(training && roll < Epsilon) ==>
        Contents() == Touch(old(Contents()), state, numActions) && IsBestAction(Contents()[state], action)
      ensures forall s :: s in old(qTable) ==> s in qTable && qTable[s] == old(qTable[s])
      ensures forall s :: s in qTable && s !in old(qTable) ==> fresh(qTable[s])
    {
      if training && roll < Epsilon {
        action :| 0 <= action < numActions;
      } else {
        action := GetBestAction(state);
      }
    }

    /**
     * `learn`: a no-op without a previous state; otherwise the Q-learning step of
     * `Learned`, with future estimate 0 when newState is None (terminal).
     */
    method Learn(oldState: Option<string>, action: nat, reward: real, newState: Option<string>)
      requires Valid() && action < numActions
      modifies this, qTable.Values
      ensures Valid()
      ensures oldState.None? ==> Contents() == old(Contents())
      ensures oldState.Some? ==>
        Contents() == Learned(old(Contents()), numActions, oldState.value, action, reward, newState)
      ensures forall s :: s in old(qTable) ==> s in qTable && qTable[s] == old(qTable[s])
      ensures forall s :: s in qTable && s !in old(qTable) ==> fresh(qTable[s])
    {
      if oldState.None? {
        return;
      }
      var s := oldState.value;
      ghost var t0 := Contents();
      var oldRow, maxFutureQ := ReadRows(s, newState);
      ghost var t2 := Contents();
      var currentQ := oldRow[action];
      assert currentQ == t2[s][action];
      var updated := currentQ + Alpha * (reward + Gamma * maxFutureQ - currentQ);
      assert updated == Bellman(t2[s][action], reward, Future(t2, numActions, newState));
      SetEntry(s, action, updated);
      assert Contents() == t2[s := t2[s][action := updated]];
      LearnedUnfold(t0, numActions, s, action, reward, newState);
    }

    /**
     * The reads of `learn` before its write: the row of oldState and the future
     * estimate (0 when terminal, else the maximum of newState's row), both rows
     * created when absent.
     */
    method ReadRows(s: string, newState: Option<string>) returns (oldRow: array<real>, maxFutureQ: real)
      requires Valid()
      modifies this
      ensures Valid()
      ensures Contents() == Reached(old(Contents()), numActions, s, newState)
      ensures s in qTable && oldRow == qTable[s]
      ensures maxFutureQ == Future(Contents(), numActions, newState)
      ensures forall k :: k in old(qTable) ==> k in qTable && qTable[k] == old(qTable[k])
      ensures forall k :: k in qTable && k !in old(qTable) ==> fresh(qTable[k])
    {
      oldRow := GetQRow(s);
      if newState.None? {
        maxFutureQ := 0.0;
      } else {
        var newRow := GetQRow(newState.value);
        ghost var reached := Contents();
        maxFutureQ := MaxOf(newRow);
        assert Contents() == reached;
        assert RowOf(reached, newState.value, numActions) == newRow[..];
      }
    }

    /** Writes `qTable[s][a] := v` in place; no other row or entry changes. */
    method SetEntry(s: string, a: nat, v: real)
      requires Valid() && s in qTable && a < numActions
      modifies qTable[s]
      ensures Valid()
      ensures Contents() == old(Contents())[s := old(Contents())[s][a := v]]
    {
      ghost var before := Contents();
      qTable[s][a] := v;
      assert forall k :: k in qTable && k != s ==> qTable[k][..] == before[k];
    }

    /**
     * The replace-or-keep decision of `load`: the table becomes exactly the
     * deserialised map when one was read, and is kept when the file is missing,
     * unreadable or holds something other than a map.
     */
    method Load(stored: Stored)
      requires Valid()
      requires stored.Read? && stored.obj.MapImage? ==> WellShaped(stored.obj.rows, numActions)
      modifies this
      ensures Valid()
      ensures stored.Read? && stored.obj.MapImage? ==> Contents() == stored.obj.rows
      ensures !(stored.Read? && stored.obj.MapImage?) ==> qTable == old(qTable)
      ensures stored.Read? && stored.obj.MapImage? ==> forall s :: s in qTable ==> fresh(qTable[s])
    {
      if !stored.Read? || !stored.obj.MapImage? {
        return;
      }
      var rows := stored.obj.rows;
      var loaded: map<string, array<real>> := map[];
      var rest := rows.Keys;
      while rest != {}
        invariant rest <= rows.Keys
        invariant loaded.Keys == rows.Keys - rest
        invariant forall k :: k in loaded ==> fresh(loaded[k]) && loaded[k][..] == rows[k]
        invariant forall k, k' :: k in loaded && k' in loaded && k != k' ==> loaded[k] != loaded[k']
        decreases rest
      {
        var k :| k in rest;
        var row := rows[k];
        var arr := new real[|row|](i requires 0 <= i < |row| => row[i]);
        assert arr[..] == row;
        loaded := loaded[k := arr];
        rest := rest - {k};
      }
      qTable := loaded;
    }
  }
}
