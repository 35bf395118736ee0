/**
 * Call sequences a data-access layer makes against the registry, each
 * starting from an empty registry, with the outcome it is guaranteed.
 */
module Scenarios {
  import opened Outcomes
  import opened Driver
  import opened Lifecycle
  import opened Sweep
  import opened MySql

  /** Asking twice for the same module and suffix yields the same handle. */
  method SameKeySameHandle(config: map<string, Credentials>) returns (same: bool, size: nat)
    ensures same && size == 1
  {
    var registry := new Registry();
    var first := registry.GetIns("orders", "_2024", config);
    var second := registry.GetIns("orders", "_2024", config);
    same := first == second;
    size := |registry.order|;
  }

  /**
   * The key is the bare concatenation of module and suffix, so ("ab", "c")
   * and ("a", "bc") share one handle, configured from the module asked first.
   */
  method ConcatenatedKeysShareHandle(config: map<string, Credentials>) returns (same: bool, settings: Credentials)
    ensures same && settings == ConfigFor(config, "ab")
  {
    var registry := new Registry();
    var first := registry.GetIns("ab", "c", config);
    assert "a" + "bc" == "ab" + "c";
    var second := registry.GetIns("a", "bc", config);
    same := first == second;
    settings := second.credentials;
  }

  /** Different keys get distinct handles, registered in the order asked. */
  method DistinctKeysDistinctHandles(config: map<string, Credentials>) returns (distinct: bool, keys: seq<string>)
    ensures distinct && keys == ["users", "orders"]
  {
    var registry := new Registry();
    var users := registry.GetIns("users", "", config);
    assert "orders" + "" != "users" + "" by { assert ("orders" + "")[0] != ("users" + "")[0]; }
    var orders := registry.GetIns("orders", "", config);
    distinct := users != orders;
    keys := registry.order;
    assert keys == [] + ["users" + ""] + ["orders" + ""];
    assert "users" + "" == "users" && "orders" + "" == "orders";
  }

  /** A pass over a single handle is that handle's settlement. */
  lemma SweepOne(op: TxOp, key: string, s: HandleState, failures: map<string, string>)
    ensures var t := Settled(op, key, s, failures);
      SweepStates(op, [key], [s], failures) == SweepOutcome([t.state], t.calls, t.failure)
  {
    assert SweepPrefix(op, [key], [s], failures, 0) == SweepOutcome([], [], None);
  }

  /** commit on a registry holding the single handle `h` under `key`. */
  method CommitSingle(registry: Registry, key: string, h: Handle, failures: map<string, string>)
    returns (res: Result<()>, calls: seq<TxCall>)
    requires registry.Valid() && registry.order == [key] && registry.ins == map[key := h]
    modifies registry, h
    ensures var t := Settled(CommitTx, key, old(h.State()), failures);
      && h.State() == t.state && calls == t.calls
      && res == (if t.failure.None? then Ok(()) else Err(DriverError(t.failure.value)))
    ensures registry.Valid() && registry.order == []
  {
    assert registry.States() == [h.State()];
    SweepOne(CommitTx, key, h.State(), failures);
    res, calls := registry.Commit(failures);
  }

  /**
   * An update opens a connection and a transaction; the commit that follows
   * commits it, releases the connection and empties the registry, so the
   * next request for the module builds a new handle.
   */
  method UpdateThenCommit(config: map<string, Credentials>)
    returns (updated: Result<nat>, logged: Option<string>, committed: Result<()>,
             calls: seq<TxCall>, after: HandleState, renewed: bool)
    ensures updated == Ok(1)
    ensures logged == Some("UPDATE orders SET state='shipped' WHERE id=42")
    ensures committed == Ok(()) && calls == [TxCall(CommitTx, "orders")]
    ensures after == Unopened && renewed
  {
    var registry := new Registry();
    var h := registry.GetIns("orders", "", config);
    assert "orders" + "" == "orders";
    updated, logged := h.Execute("UPDATE orders SET state='shipped' WHERE id=42", [], true,
                                 Connected(Connection(1)), Returned(()), Returned(1));
    assert h.State() == HandleState(Some(Connection(1)), true);
    committed, calls := CommitSingle(registry, "orders", h, map[]);
    after := h.State();
    var again := registry.GetIns("orders", "", config);
    renewed := again != h;
  }

  /**
   * A commit whose driver call raises still empties the registry and reports
   * the driver's message with the access layer's error code; the failing
   * handle keeps its connection and its flag.
   */
  method FailedCommitEmptiesRegistry(config: map<string, Credentials>)
    returns (committed: Result<()>, size: nat, after: HandleState)
    ensures committed == Err(DbError("gone away", ErrorCode))
    ensures size == 0
    ensures after == HandleState(Some(Connection(7)), true)
  {
    var registry := new Registry();
    var h := registry.GetIns("stock", "", config);
    assert "stock" + "" == "stock";
    var updated, logged := h.Execute("DELETE FROM stock", [], false,
                                     Connected(Connection(7)), Returned(()), Returned(3));
    assert h.State() == HandleState(Some(Connection(7)), true);
    var calls;
    committed, calls := CommitSingle(registry, "stock", h, map["stock" := "gone away"]);
    size := |registry.order|;
    after := h.State();
  }
}
