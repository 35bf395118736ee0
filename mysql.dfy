/**
 * The per-module access layer: a handle per registry key owning a lazily
 * opened connection and a transaction flag, and the registry that creates
 * handles on demand and is emptied by every commit or rollback pass.
 */
module MySql {
  import opened Outcomes
  import opened Driver
  import opened Paging
  import opened SqlLog
  import opened Lifecycle
  import opened Sweep

  /** A module's connection settings: data source name, user name and password. */
  datatype Credentials = Credentials(dsn: string, user: string, pwd: string)

  /** The settings of module `mdl`; a module without settings gets empty ones. */
  function ConfigFor(config: map<string, Credentials>, mdl: string): Credentials
  {
    if mdl in config then config[mdl] else Credentials("", "", "")
  }

  /** One handle: fixed credentials, a connection that is opened on first use, a transaction flag. */
  class Handle {
    const credentials: Credentials
    var link: Option<Connection>
    var begin: bool

    function State(): HandleState
      reads this
    {
      HandleState(link, begin)
    }

    ghost predicate Valid()
      reads this
    {
      Consistent(State())
    }

    constructor (credentials: Credentials)
      ensures this.credentials == credentials
      ensures State() == Unopened && Valid()
    {
      this.credentials := credentials;
      link := None;
      begin := false;
    }

    /** open: connect unless a connection is already set. */
    method Open(outcome: ConnectOutcome) returns (res: Result<()>)
      modifies this
      ensures old(Valid()) ==> Valid()
      ensures State() == Opened(old(State()), outcome).state
      ensures res == Opened(old(State()), outcome).result
    {
      if link.None? {
        if outcome.ConnectRaised? {
          return Err(DriverError(outcome.message));
        }
        link := Some(outcome.conn);
        if outcome.SetupRaised? {
          return Err(DriverError(outcome.message));
        }
      }
      res := Ok(());
    }

    /** begin_trans: start a transaction unless one is open. */
    method BeginTrans(outcome: Reply<()>) returns (res: Result<()>)
      requires link.Some?
      modifies this
      ensures old(Valid()) ==> Valid()
      ensures State() == Begun(old(State()), outcome).state
      ensures res == Begun(old(State()), outcome).result
    {
      if !begin {
        if outcome.Raised? {
          return Err(DriverError(outcome.message));
        }
        begin := true;
      }
      res := Ok(());
    }

    /** One handle's part of a commit or rollback pass. */
    method Settle(op: TxOp, key: string, failures: map<string, string>) returns (t: Settlement)
      modifies this
      ensures old(Valid()) ==> Valid()
      ensures t == Settled(op, key, old(State()), failures) && State() == t.state
    {
      t := Settlement(State(), [], None);
      if begin {
        if key in failures {
          t := Settlement(State(), [TxCall(op, key)], Some(failures[key]));
        } else {
          link := None;
          begin := false;
          t := Settlement(State(), [TxCall(op, key)], None);
        }
      }
    }

    /** execute: run a statement inside the handle's transaction and return the rows it affected. */
    method Execute(sql: string, params: seq<Param>, showSql: bool,
                   connect: ConnectOutcome, beginReply: Reply<()>, run: Reply<nat>)
      returns (res: Result<nat>, logged: Option<string>)
      modifies this
      ensures old(Valid()) ==> Valid()
      ensures var t := Executed(old(State()), sql, params, showSql, connect, beginReply, run);
        State() == t.state && res == t.result && logged == t.logged
    {
      var connected := Open(connect);
      if connected.Err? {
        return Err(connected.error), None;
      }
      logged := LogSql(sql, params, showSql);
      var begun := BeginTrans(beginReply);
      if begun.Err? {
        return Err(SqlError(begun.error.message, sql)), logged;
      }
      match run {
        case Returned(count) => res := Ok(count);
        case Raised(m) => res := Err(SqlError(m, sql));
      }
    }

    /** query: run a statement, bounded by the paging argument, and return its rows. */
    method Query(sql: string, params: seq<Param>, page: Option<PageSpec>, showSql: bool,
                 connect: ConnectOutcome, run: Reply<seq<Row>>)
      returns (res: Result<seq<Row>>, logged: Option<string>)
      modifies this
      ensures old(Valid()) ==> Valid()
      ensures var t := Queried(old(State()), sql, params, page, showSql, connect, run);
        State() == t.state && res == t.result && logged == t.logged
    {
      var connected := Open(connect);
      if connected.Err? {
        return Err(connected.error), None;
      }
      var paged := PageSql(sql, page);
      logged := LogSql(paged, params, showSql);
      match run {
        case Returned(rows) => res := Ok(rows);
        case Raised(m) => res := Err(SqlError(m, paged));
      }
    }
  }

  /** The states of the handles registered under `keys`, in that order. */
  ghost function StatesOf(ins: map<string, Handle>, keys: seq<string>): (s: seq<HandleState>)
    requires forall i :: 0 <= i < |keys| ==> keys[i] in ins
    reads ins.Values
    ensures |s| == |keys| && forall i :: 0 <= i < |keys| ==> s[i] == ins[keys[i]].State()
    decreases |keys|
  {
    if keys == [] then []
    else StatesOf(ins, keys[..|keys| - 1]) + [ins[keys[|keys| - 1]].State()]
  }

  /**
   * The registry of handles. `ins` maps each key to its handle and `order`
   * lists the keys in the order they were added, which is the order a pass
   * visits them.
   */
  class Registry {
    var order: seq<string>
    var ins: map<string, Handle>

    ghost predicate Valid()
      reads this, ins.Values
    {
      && (forall k :: k in ins <==> k in order)
      && (forall i, j :: 0 <= i < j < |order| ==> order[i] != order[j])
      && (forall k, k' :: k in ins && k' in ins && k != k' ==> ins[k] != ins[k'])
      && (forall k :: k in ins ==> ins[k].Valid())
    }

    /** The states of the registered handles, in visiting order. */
    ghost function States(): seq<HandleState>
      requires Valid()
      reads this, ins.Values
    {
      StatesOf(ins, order)
    }

    constructor ()
      ensures Valid() && ins == map[] && order == []
    {
      order := [];
      ins := map[];
    }

    /**
     * get_ins: the handle registered under the concatenation `mdl + suf`,
     * created from module `mdl`'s settings when there is none yet.
     */
    method GetIns(mdl: string, suf: string, config: map<string, Credentials>) returns (h: Handle)
      requires Valid()
      modifies this
      ensures Valid()
      ensures mdl + suf in ins && h == ins[mdl + suf]
      ensures mdl + suf in old(ins) ==> h == old(ins)[mdl + suf] && ins == old(ins) && order == old(order)
      ensures mdl + suf !in old(ins) ==>
        && fresh(h) && h.State() == Unopened && h.credentials == ConfigFor(config, mdl)
        && ins == old(ins)[mdl + suf := h] && order == old(order) + [mdl + suf]
    {
      var key := mdl + suf;
      if key !in ins {
        var created := new Handle(ConfigFor(config, mdl));
        ins := ins[key := created];
        order := order + [key];
      }
      h := ins[key];
    }

    /** commit: commit every open transaction, then empty the registry whatever happened. */
    method Commit(failures: map<string, string>) returns (res: Result<()>, calls: seq<TxCall>)
      requires Valid()
      modifies this, ins.Values
      ensures Valid() && ins == map[] && order == []
      ensures var out := SweepStates(CommitTx, old(order), old(States()), failures);
        && (forall i :: 0 <= i < |old(order)| ==> old(ins)[old(order)[i]].State() == out.states[i])
        && calls == out.calls
        && res == if out.failure.None? then Ok(()) else Err(DriverError(out.failure.value))
    {
      res, calls := Pass(CommitTx, failures);
    }

    /** rollback: roll back every open transaction, then empty the registry whatever happened. */
    method Rollback(failures: map<string, string>) returns (res: Result<()>, calls: seq<TxCall>)
      requires Valid()
      modifies this, ins.Values
      ensures Valid() && ins == map[] && order == []
      ensures var out := SweepStates(RollbackTx, old(order), old(States()), failures);
        && (forall i :: 0 <= i < |old(order)| ==> old(ins)[old(order)[i]].State() == out.states[i])
        && calls == out.calls
        && res == if out.failure.None? then Ok(()) else Err(DriverError(out.failure.value))
    {
      res, calls := Pass(RollbackTx, failures);
    }

    /**
     * The pass shared by commit and rollback: `failures` gives the message of
     * each key whose driver call raises. The registry is emptied on both the
     * success and the failure path.
     */
    method Pass(op: TxOp, failures: map<string, string>) returns (res: Result<()>, calls: seq<TxCall>)
      requires Valid()
      modifies this, ins.Values
      ensures Valid() && ins == map[] && order == []
      ensures var out := SweepStates(op, old(order), old(States()), failures);
        && (forall i :: 0 <= i < |old(order)| ==> old(ins)[old(order)[i]].State() == out.states[i])
        && calls == out.calls
        && res == if out.failure.None? then Ok(()) else Err(DriverError(out.failure.value))
    {
      res, calls := Settle(op, failures, States());
      Clear();
    }

    /** The pass itself, before the registry is emptied. */
    method Settle(op: TxOp, failures: map<string, string>, ghost before: seq<HandleState>)
      returns (res: Result<()>, calls: seq<TxCall>)
      requires Valid() && before == States()
      modifies ins.Values
      ensures var out := SweepStates(op, order, before, failures);
        && (forall i :: 0 <= i < |order| ==> ins[order[i]].State() == out.states[i])
        && calls == out.calls
        && res == if out.failure.None? then Ok(()) else Err(DriverError(out.failure.value))
    {
      forall k, k' | 0 <= k < k' < |order| ensures ins[order[k]] != ins[order[k']] {
        assert order[k] != order[k'];
      }
      var failure;
      calls, failure := Visit(op, order, ins, failures, before);
      res := if failure.None? then Ok(()) else Err(DriverError(failure.value));
    }

    /** Forget every handle. */
    method Clear()
      modifies this
      ensures Valid() && ins == map[] && order == []
    {
      ins := map[];
      order := [];
    }
  }

  /**
   * The foreach of commit and rollback over the handles `hs` registered
   * under `keys`, up to the first driver failure.
   */
  method Visit(op: TxOp, keys: seq<string>, hs: map<string, Handle>, failures: map<string, string>,
               ghost before: seq<HandleState>)
    returns (calls: seq<TxCall>, failure: Option<string>)
    requires forall k :: 0 <= k < |keys| ==> keys[k] in hs
    requires forall k, k' :: 0 <= k < k' < |keys| ==> hs[keys[k]] != hs[keys[k']]
    requires |before| == |keys| && forall k :: 0 <= k < |keys| ==> before[k] == hs[keys[k]].State()
    modifies hs.Values
    ensures var out := SweepStates(op, keys, before, failures);
      && (forall i :: 0 <= i < |keys| ==> hs[keys[i]].State() == out.states[i])
      && calls == out.calls
      && failure == out.failure
  {
    ghost var done := SweepOutcome([], [], None);
    ghost var now := before;
    calls, failure := [], None;
    var i := 0;
    while i < |keys| && failure.None?
      invariant 0 <= i <= |keys|
      invariant done == SweepPrefix(op, keys, before, failures, i)
      invariant calls == done.calls && failure == done.failure
      invariant now == done.states + before[i..]
      invariant |now| == |keys| && forall k :: 0 <= k < |keys| ==> hs[keys[k]].State() == now[k]
    {
      var t;
      ghost var prev := now;
      t, now := SettleAt(op, keys, hs, failures, i, now);
      VisitStep(op, keys, before, failures, i, done, prev, t);
      calls, failure := calls + t.calls, t.failure;
      done := SweepOutcome(done.states + [t.state], calls, failure);
      i := i + 1;
    }
    VisitDone(op, keys, before, failures, i, done, now);
  }

  /** The next handle's part of a pass; `now` and `next` hold the states of all the handles. */
  method SettleAt(op: TxOp, keys: seq<string>, hs: map<string, Handle>, failures: map<string, string>,
                  i: nat, ghost now: seq<HandleState>)
    returns (t: Settlement, ghost next: seq<HandleState>)
    requires i < |keys| == |now|
    requires forall k :: 0 <= k < |keys| ==> keys[k] in hs
    requires forall k :: 0 <= k < |keys| && k != i ==> hs[keys[k]] != hs[keys[i]]
    requires forall k :: 0 <= k < |keys| ==> hs[keys[k]].State() == now[k]
    modifies hs[keys[i]]
    ensures t == Settled(op, keys[i], now[i], failures) && next == now[i := t.state]
    ensures forall k :: 0 <= k < |keys| ==> hs[keys[k]].State() == next[k]
  {
    t := hs[keys[i]].Settle(op, keys[i], failures);
    next := now[i := t.state];
  }

  /** The bookkeeping of one iteration of the pass. */
  lemma VisitStep(op: TxOp, keys: seq<string>, before: seq<HandleState>, failures: map<string, string>,
                  i: nat, done: SweepOutcome, now: seq<HandleState>, t: Settlement)
    requires i < |keys| == |before|
    requires done == SweepPrefix(op, keys, before, failures, i) && done.failure.None?
    requires now == done.states + before[i..] && t == Settled(op, keys[i], now[i], failures)
    ensures var next := SweepOutcome(done.states + [t.state], done.calls + t.calls, t.failure);
      && next == SweepPrefix(op, keys, before, failures, i + 1)
      && now[i := t.state] == next.states + before[i + 1..]
  {
    assert now[i] == before[i];
    ReplaceFirstOfRest(done.states, before[i..], t.state);
    assert before[i..][1..] == before[i + 1..];
  }

  /** The bookkeeping after the last iteration of the pass. */
  lemma VisitDone(op: TxOp, keys: seq<string>, before: seq<HandleState>, failures: map<string, string>,
                  i: nat, done: SweepOutcome, now: seq<HandleState>)
    requires i <= |keys| == |before|
    requires done == SweepPrefix(op, keys, before, failures, i)
    requires i == |keys| || done.failure.Some?
    requires now == done.states + before[i..]
    ensures SweepStates(op, keys, before, failures) == SweepOutcome(now, done.calls, done.failure)
  {
    SweepFromPrefix(op, keys, before, failures, i, |keys|);
    assert before[i..|keys|] == before[i..];
  }

  /** Overwriting the first element after a prefix. */
  lemma ReplaceFirstOfRest<T>(a: seq<T>, b: seq<T>, x: T)
    requires |b| > 0
    ensures (a + b)[|a| := x] == a + [x] + b[1..]
  {
    assert forall k :: 0 <= k < |a| + |b| ==> (a + b)[|a| := x][k] == (a + [x] + b[1..])[k];
  }
}
