/**
 * commit and rollback: one pass over the registered handles in insertion
 * order, finishing the transaction of each handle that has one, stopping at
 * the first driver failure. This module states the pass on the handles'
 * states; MySql.Registry is proved to follow it.
 */
module Sweep {
  import opened Outcomes
  import opened Lifecycle

  /** Which driver call the pass makes on each handle with a transaction. */
  datatype TxOp = CommitTx | RollbackTx

  /** One driver call made by a pass, on the handle registered under `key`. */
  datatype TxCall = TxCall(op: TxOp, key: string)

  /** The handles' states after a pass, the driver calls made and the first failure's message. */
  datatype SweepOutcome = SweepOutcome(states: seq<HandleState>, calls: seq<TxCall>, failure: Option<string>)

  /** What one handle contributes to a pass that has not failed yet. */
  datatype Settlement = Settlement(state: HandleState, calls: seq<TxCall>, failure: Option<string>)

  /**
   * A handle with a transaction gets its driver call; when that returns, the
   * handle loses its connection and its flag, and when it raises, the handle
   * is left as it was and the pass fails with the driver's message.
   */
  function Settled(op: TxOp, key: string, s: HandleState, failures: map<string, string>): (r: Settlement)
    ensures r.calls == if s.begin then [TxCall(op, key)] else []
    ensures r.failure.Some? <==> s.begin && key in failures
    ensures r.state == if s.begin && key !in failures then Unopened else s
  {
    if !s.begin then Settlement(s, [], None)
    else if key in failures then Settlement(s, [TxCall(op, key)], Some(failures[key]))
    else Settlement(Unopened, [TxCall(op, key)], None)
  }

  /** The pass so far, extended by one more handle `key` in state `s`; after a failure nothing further is done. */
  function Extend(r: SweepOutcome, op: TxOp, key: string, s: HandleState, failures: map<string, string>): SweepOutcome
  {
    if r.failure.Some? then SweepOutcome(r.states + [s], r.calls, r.failure)
    else
      var t := Settled(op, key, s, failures);
      SweepOutcome(r.states + [t.state], r.calls + t.calls, t.failure)
  }

  /**
   * The pass over the first `n` of the handles registered under `keys`,
   * whose states are `states`; `failures` gives the message of each key
   * whose driver call raises.
   */
  function SweepPrefix(op: TxOp, keys: seq<string>, states: seq<HandleState>, failures: map<string, string>, n: nat): (r: SweepOutcome)
    requires |keys| == |states| && n <= |keys|
    ensures |r.states| == n
    decreases n
  {
    if n == 0 then SweepOutcome([], [], None)
    else Extend(SweepPrefix(op, keys, states, failures, n - 1), op, keys[n - 1], states[n - 1], failures)
  }

  /** The whole pass. */
  function SweepStates(op: TxOp, keys: seq<string>, states: seq<HandleState>, failures: map<string, string>): (r: SweepOutcome)
    requires |keys| == |states|
    ensures |r.states| == |states|
  {
    SweepPrefix(op, keys, states, failures, |keys|)
  }

  /** The handle at `i` has a transaction whose driver call raises. */
  predicate FailsAt(keys: seq<string>, states: seq<HandleState>, failures: map<string, string>, i: int)
    requires |keys| == |states|
  {
    0 <= i < |keys| && states[i].begin && keys[i] in failures
  }

  /** The keys of the first `n` handles that have a transaction, in order. */
  function Pending(keys: seq<string>, states: seq<HandleState>, n: nat): (p: seq<string>)
    requires |keys| == |states| && n <= |keys|
    ensures |p| <= n
    decreases n
  {
    if n == 0 then []
    else Pending(keys, states, n - 1) + (if states[n - 1].begin then [keys[n - 1]] else [])
  }

  /** The calls of one kind on the given keys, in order. */
  function Calls(op: TxOp, ks: seq<string>): (cs: seq<TxCall>)
    ensures |cs| == |ks|
    decreases |ks|
  {
    if ks == [] then [] else Calls(op, ks[..|ks| - 1]) + [TxCall(op, ks[|ks| - 1])]
  }

  /** The index of the first of the first `n` handles whose call raises, or `n` if there is none. */
  function FirstFailure(keys: seq<string>, states: seq<HandleState>, failures: map<string, string>, n: nat): (j: nat)
    requires |keys| == |states| && n <= |keys|
    ensures j <= n
    ensures j < n ==> FailsAt(keys, states, failures, j)
    decreases n
  {
    if n == 0 then 0
    else
      var j := FirstFailure(keys, states, failures, n - 1);
      if j < n - 1 then j else if FailsAt(keys, states, failures, n - 1) then n - 1 else n
  }

  /** No handle before the one FirstFailure names fails. */
  lemma {:induction false} FirstFailureIsFirst(keys: seq<string>, states: seq<HandleState>, failures: map<string, string>, n: nat)
    requires |keys| == |states| && n <= |keys|
    ensures forall i :: 0 <= i < FirstFailure(keys, states, failures, n) ==> !FailsAt(keys, states, failures, i)
    decreases n
  {
    if n > 0 {
      FirstFailureIsFirst(keys, states, failures, n - 1);
    }
  }

  /** The state a pass whose first failure is at `j` leaves the handle at `i` in. */
  function Swept(states: seq<HandleState>, j: nat, i: nat): HandleState
    requires i < |states|
  {
    if i < j && states[i].begin then Unopened else states[i]
  }

  /**
   * What a pass does to each handle: every handle before the first failing
   * one that had a transaction is back to no connection and no flag; all
   * others are as they were. The pass fails iff some handle's call raises,
   * with the first such handle's message.
   */
  lemma {:induction false} SweepStatesAt(op: TxOp, keys: seq<string>, states: seq<HandleState>, failures: map<string, string>, n: nat)
    requires |keys| == |states| && n <= |keys|
    ensures var j := FirstFailure(keys, states, failures, n);
      var r := SweepPrefix(op, keys, states, failures, n);
      && r.failure == (if j < n then Some(failures[keys[j]]) else None)
      && forall i :: 0 <= i < n ==> r.states[i] == Swept(states, j, i)
    decreases n
  {
    if n > 0 {
      SweepStatesAt(op, keys, states, failures, n - 1);
      var p := SweepPrefix(op, keys, states, failures, n - 1);
      var r := SweepPrefix(op, keys, states, failures, n);
      var j' := FirstFailure(keys, states, failures, n - 1);
      var j := FirstFailure(keys, states, failures, n);
      assert r == Extend(p, op, keys[n - 1], states[n - 1], failures);
      if p.failure.Some? {
        assert j == j' < n - 1;
        assert r.states == p.states + [states[n - 1]];
      } else {
        var t := Settled(op, keys[n - 1], states[n - 1], failures);
        assert j' == n - 1;
        assert r.states == p.states + [t.state];
        assert t.state == Swept(states, j, n - 1);
      }
      forall i | 0 <= i < n ensures r.states[i] == Swept(states, j, i) {
        if i < n - 1 {
          assert r.states[i] == p.states[i];
        }
      }
    }
  }

  /** How many handles a pass over the first `n` reaches: up to and including the first failing one. */
  function Reached(keys: seq<string>, states: seq<HandleState>, failures: map<string, string>, n: nat): (m: nat)
    requires |keys| == |states| && n <= |keys|
    ensures m <= n
  {
    var j := FirstFailure(keys, states, failures, n);
    if j < n then j + 1 else n
  }

  /** The calls on two lists of keys are the calls on the first, then on the second. */
  lemma {:induction false} CallsAppend(op: TxOp, p: seq<string>, q: seq<string>)
    ensures Calls(op, p + q) == Calls(op, p) + Calls(op, q)
    decreases |q|
  {
    if q == [] {
      assert p + q == p;
    } else {
      var n := |q| - 1;
      assert (p + q)[..|p + q| - 1] == p + q[..n];
      CallsAppend(op, p, q[..n]);
    }
  }

  /** Step of SweepCalls after a failure among the first `n - 1` handles: nothing more is called. */
  lemma CallsAfterFailedPrefix(op: TxOp, keys: seq<string>, states: seq<HandleState>, failures: map<string, string>, n: nat)
    requires |keys| == |states| && 0 < n <= |keys|
    requires FirstFailure(keys, states, failures, n - 1) < n - 1
    requires SweepPrefix(op, keys, states, failures, n - 1).calls == Calls(op, Pending(keys, states, Reached(keys, states, failures, n - 1)))
    ensures SweepPrefix(op, keys, states, failures, n).calls == Calls(op, Pending(keys, states, Reached(keys, states, failures, n)))
  {
    SweepStatesAt(op, keys, states, failures, n - 1);
    var p := SweepPrefix(op, keys, states, failures, n - 1);
    assert p.failure.Some?;
    assert SweepPrefix(op, keys, states, failures, n).calls == p.calls;
  }

  /** Step of SweepCalls when none of the first `n - 1` handles failed: the n-th handle's call, if any, is added. */
  lemma CallsAfterCleanPrefix(op: TxOp, keys: seq<string>, states: seq<HandleState>, failures: map<string, string>, n: nat)
    requires |keys| == |states| && 0 < n <= |keys|
    requires FirstFailure(keys, states, failures, n - 1) == n - 1
    requires SweepPrefix(op, keys, states, failures, n - 1).calls == Calls(op, Pending(keys, states, n - 1))
    ensures SweepPrefix(op, keys, states, failures, n).calls == Calls(op, Pending(keys, states, n))
  {
    SweepStatesAt(op, keys, states, failures, n - 1);
    var p := SweepPrefix(op, keys, states, failures, n - 1);
    var t := Settled(op, keys[n - 1], states[n - 1], failures);
    var last := if states[n - 1].begin then [keys[n - 1]] else [];
    assert p.failure.None?;
    assert SweepPrefix(op, keys, states, failures, n).calls == p.calls + t.calls;
    assert Pending(keys, states, n) == Pending(keys, states, n - 1) + last;
    assert t.calls == Calls(op, last);
    CallsAppend(op, Pending(keys, states, n - 1), last);
  }

  /** The driver calls of a pass: one per handle with a transaction, in order, up to and including the first that raises. */
  lemma {:induction false} SweepCalls(op: TxOp, keys: seq<string>, states: seq<HandleState>, failures: map<string, string>, n: nat)
    requires |keys| == |states| && n <= |keys|
    ensures SweepPrefix(op, keys, states, failures, n).calls == Calls(op, Pending(keys, states, Reached(keys, states, failures, n)))
    decreases n
  {
    if n > 0 {
      SweepCalls(op, keys, states, failures, n - 1);
      if FirstFailure(keys, states, failures, n - 1) < n - 1 {
        CallsAfterFailedPrefix(op, keys, states, failures, n);
      } else {
        CallsAfterCleanPrefix(op, keys, states, failures, n);
      }
    }
  }

  /**
   * Once a pass has failed on the first `m` handles, the rest of the pass
   * changes nothing; in particular, the pass over all `m` handles is the
   * whole pass.
   */
  lemma {:induction false} SweepFromPrefix(op: TxOp, keys: seq<string>, states: seq<HandleState>,
                                           failures: map<string, string>, m: nat, n: nat)
    requires |keys| == |states| && m <= n <= |keys|
    requires m == n || SweepPrefix(op, keys, states, failures, m).failure.Some?
    ensures var p := SweepPrefix(op, keys, states, failures, m);
      SweepPrefix(op, keys, states, failures, n) == SweepOutcome(p.states + states[m..n], p.calls, p.failure)
    decreases n
  {
    var p := SweepPrefix(op, keys, states, failures, m);
    if n == m {
      assert p.states + states[m..n] == p.states;
    } else {
      SweepFromPrefix(op, keys, states, failures, m, n - 1);
      assert states[m..n - 1] + [states[n - 1]] == states[m..n];
    }
  }

  /**
   * A pass that meets no failure finishes every transaction and calls the
   * driver exactly for the handles that had one; it meets none iff no
   * handle with a transaction has a call that raises.
   */
  lemma SweepSuccess(op: TxOp, keys: seq<string>, states: seq<HandleState>, failures: map<string, string>)
    requires |keys| == |states|
    ensures var r := SweepStates(op, keys, states, failures);
      && (r.failure.None? <==> forall i :: 0 <= i < |keys| ==> !FailsAt(keys, states, failures, i))
      && (r.failure.None? ==> forall i :: 0 <= i < |keys| ==> r.states[i] == if states[i].begin then Unopened else states[i])
      && (r.failure.None? ==> r.calls == Calls(op, Pending(keys, states, |keys|)))
  {
    SweepStatesAt(op, keys, states, failures, |keys|);
    SweepCalls(op, keys, states, failures, |keys|);
    FirstFailureIsFirst(keys, states, failures, |keys|);
  }

  /** A pass keeps "a transaction implies a connection" for every handle. */
  lemma SweepKeepsConsistent(op: TxOp, keys: seq<string>, states: seq<HandleState>, failures: map<string, string>)
    requires |keys| == |states|
    requires forall i :: 0 <= i < |states| ==> Consistent(states[i])
    ensures var r := SweepStates(op, keys, states, failures);
      forall i :: 0 <= i < |states| ==> Consistent(r.states[i])
  {
    SweepStatesAt(op, keys, states, failures, |keys|);
  }

  /** A pass over handles none of which has a transaction calls nothing and changes nothing. */
  lemma {:induction false} NothingPending(op: TxOp, keys: seq<string>, states: seq<HandleState>, failures: map<string, string>, n: nat)
    requires |keys| == |states| && n <= |keys|
    requires forall i :: 0 <= i < |states| ==> !states[i].begin
    ensures SweepPrefix(op, keys, states, failures, n) == SweepOutcome(states[..n], [], None)
    decreases n
  {
    if n > 0 {
      NothingPending(op, keys, states, failures, n - 1);
      assert states[..n - 1] + [states[n - 1]] == states[..n];
    }
  }

  /** A second pass after a successful one finds no transaction: it calls nothing and changes nothing. */
  lemma SweepIdempotent(op: TxOp, op2: TxOp, keys: seq<string>, states: seq<HandleState>, failures: map<string, string>, failures2: map<string, string>)
    requires |keys| == |states|
    requires SweepStates(op, keys, states, failures).failure.None?
    ensures var after := SweepStates(op, keys, states, failures).states;
      SweepStates(op2, keys, after, failures2) == SweepOutcome(after, [], None)
  {
    var after := SweepStates(op, keys, states, failures).states;
    SweepStatesAt(op, keys, states, failures, |keys|);
    forall i | 0 <= i < |after| ensures !after[i].begin {
      assert after[i] == Swept(states, FirstFailure(keys, states, failures, |keys|), i);
    }
    NothingPending(op2, keys, after, failures2, |keys|);
    assert after[..|keys|] == after;
  }
}
