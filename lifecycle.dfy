/**
 * The state of one connection handle and what each of its operations does to
 * it, as functions of the old state and of the driver's answers. The class
 * MySql.Handle is proved to follow these.
 */
module Lifecycle {
  import opened Outcomes
  import opened Driver
  import opened Paging
  import opened SqlLog

  /** The two mutable fields of a handle: the connection (null until opened) and the transaction flag. */
  datatype HandleState = HandleState(link: Option<Connection>, begin: bool)

  /** A handle as created: not connected, no transaction. */
  const Unopened: HandleState := HandleState(None, false)

  /** A transaction is only ever open on an open connection. */
  predicate Consistent(s: HandleState) { s.begin ==> s.link.Some? }

  /** The new state, the result and the line logged (if any) of one operation. */
  datatype Transition<T> = Transition(state: HandleState, result: Result<T>, logged: Option<string>)

  /**
   * open: nothing happens when a connection is already set. Otherwise the
   * connection is stored as soon as the driver returns it, so a failure while
   * configuring the session leaves it set.
   */
  function Opened(s: HandleState, outcome: ConnectOutcome): (t: Transition<()>)
    ensures t.state.begin == s.begin && t.logged.None?
    ensures s.link.Some? ==> t.state == s && t.result.Ok?
    ensures s.link.None? ==> (t.result.Ok? <==> outcome.Connected?)
    ensures t.state.link.Some? <==> s.link.Some? || !outcome.ConnectRaised?
    ensures t.result.Ok? ==> t.state.link.Some?
    ensures s.link.None? && !outcome.Connected? ==> t.result == Err(DriverError(outcome.message))
    ensures s.link.None? && !outcome.ConnectRaised? ==> t.state.link == Some(outcome.conn)
  {
    if s.link.Some? then Transition(s, Ok(()), None)
    else
      match outcome
      case Connected(c) => Transition(s.(link := Some(c)), Ok(()), None)
      case ConnectRaised(m) => Transition(s, Err(DriverError(m)), None)
      case SetupRaised(c, m) => Transition(s.(link := Some(c)), Err(DriverError(m)), None)
  }

  /**
   * begin_trans: nothing happens when a transaction is open; otherwise the
   * flag is set only when the driver's beginTransaction returns.
   */
  function Begun(s: HandleState, outcome: Reply<()>): (t: Transition<()>)
    requires s.link.Some?
    ensures t.state.link == s.link && t.logged.None?
    ensures t.state.begin <==> s.begin || outcome.Returned?
    ensures t.result.Ok? <==> t.state.begin
    ensures t.result.Err? ==> t.result.error == DriverError(outcome.message)
  {
    if s.begin then Transition(s, Ok(()), None)
    else
      match outcome
      case Returned(_) => Transition(s.(begin := true), Ok(()), None)
      case Raised(m) => Transition(s, Err(DriverError(m)), None)
  }

  /**
   * execute: open, log, begin a transaction, run the statement and return
   * the number of rows it affected. A failure after the open is reported with
   * the statement's text.
   */
  function Executed(s: HandleState, sql: string, params: seq<Param>, showSql: bool,
                    connect: ConnectOutcome, begin: Reply<()>, run: Reply<nat>): (t: Transition<nat>)
    ensures t.logged == if s.link.Some? || connect.Connected? then LogLine(sql, params, showSql) else None
  {
    var afterOpen := Opened(s, connect);
    if afterOpen.result.Err? then Transition(afterOpen.state, Err(afterOpen.result.error), None)
    else
      var logged := LogLine(sql, params, showSql);
      var begun := Begun(afterOpen.state, begin);
      if begun.result.Err? then Transition(begun.state, Err(SqlError(begun.result.error.message, sql)), logged)
      else
        match run
        case Returned(count) => Transition(begun.state, Ok(count), logged)
        case Raised(m) => Transition(begun.state, Err(SqlError(m, sql)), logged)
  }

  /**
   * query: open, rewrite for paging, log, run the statement and return its
   * rows. A failure after the open is reported with the rewritten text.
   */
  function Queried(s: HandleState, sql: string, params: seq<Param>, page: Option<PageSpec>, showSql: bool,
                   connect: ConnectOutcome, run: Reply<seq<Row>>): (t: Transition<seq<Row>>)
    ensures t.logged == if s.link.Some? || connect.Connected? then LogLine(PageSql(sql, page), params, showSql) else None
  {
    var afterOpen := Opened(s, connect);
    if afterOpen.result.Err? then Transition(afterOpen.state, Err(afterOpen.result.error), None)
    else
      var paged := PageSql(sql, page);
      var logged := LogLine(paged, params, showSql);
      match run
      case Returned(rows) => Transition(afterOpen.state, Ok(rows), logged)
      case Raised(m) => Transition(afterOpen.state, Err(SqlError(m, paged)), logged)
  }

  /** Opening twice connects once: after a successful open, a second open changes nothing. */
  lemma OpenIdempotent(s: HandleState, first: ConnectOutcome, second: ConnectOutcome)
    requires Opened(s, first).result.Ok?
    ensures var t := Opened(s, first); Opened(t.state, second) == Transition(t.state, Ok(()), None)
  {
  }

  /** Beginning twice begins once: after a successful begin, a second begin changes nothing and asks nothing of the driver. */
  lemma BeginIdempotent(s: HandleState, first: Reply<()>, second: Reply<()>)
    requires s.link.Some? && Begun(s, first).result.Ok?
    ensures var t := Begun(s, first); Begun(t.state, second) == Transition(t.state, Ok(()), None)
  {
  }

  /**
   * After a successful execute a transaction is open on a connection, and a
   * connection that was already set is the one still in use.
   */
  lemma ExecuteOpensTransaction(s: HandleState, sql: string, params: seq<Param>, showSql: bool,
                                connect: ConnectOutcome, begin: Reply<()>, run: Reply<nat>)
    ensures var t := Executed(s, sql, params, showSql, connect, begin, run);
      && (t.result.Ok? ==> t.state.begin && t.state.link.Some?)
      && (t.result.Ok? <==> (s.link.Some? || connect.Connected?) && (s.begin || begin.Returned?) && run.Returned?)
      && (s.link.Some? ==> t.state.link == s.link)
      && (s.begin ==> t.state.begin)
      && (t.state.begin <==> s.begin || ((s.link.Some? || connect.Connected?) && begin.Returned?))
      && (t.result.Ok? ==> t.result.value == run.value)
  {
  }

  /**
   * Execute reports a driver failure after the open with the statement
   * attached; a failed open is reported bare, with nothing logged, since the
   * open happens before the statement's try block.
   */
  lemma ExecuteErrorNamesStatement(s: HandleState, sql: string, params: seq<Param>, showSql: bool,
                                   connect: ConnectOutcome, begin: Reply<()>, run: Reply<nat>)
    ensures var t := Executed(s, sql, params, showSql, connect, begin, run);
      (s.link.Some? || connect.Connected?) && t.result.Err? ==>
        t.result.error == SqlError(if !s.begin && begin.Raised? then begin.message else run.message, sql)
    ensures var t := Executed(s, sql, params, showSql, connect, begin, run);
      s.link.None? && !connect.Connected? ==> t.result == Err(DriverError(connect.message)) && t.logged.None?
  {
  }

  /** Query never touches the transaction flag, and keeps a connection that was set. */
  lemma QueryKeepsTransaction(s: HandleState, sql: string, params: seq<Param>, page: Option<PageSpec>, showSql: bool,
                              connect: ConnectOutcome, run: Reply<seq<Row>>)
    ensures var t := Queried(s, sql, params, page, showSql, connect, run);
      && t.state.begin == s.begin
      && (s.link.Some? ==> t.state.link == s.link)
      && (t.result.Ok? ==> t.state.link.Some? && t.result.value == run.value)
      && (t.result.Err? && (s.link.Some? || connect.Connected?) ==> t.result.error == SqlError(run.message, PageSql(sql, page)))
    ensures var t := Queried(s, sql, params, page, showSql, connect, run);
      s.link.None? && !connect.Connected? ==> t.result == Err(DriverError(connect.message)) && t.logged.None?
  {
  }

  /** Every operation keeps "a transaction implies a connection". */
  lemma OperationsKeepConsistent(s: HandleState, sql: string, params: seq<Param>, page: Option<PageSpec>, showSql: bool,
                                 connect: ConnectOutcome, begin: Reply<()>, count: Reply<nat>, rows: Reply<seq<Row>>)
    requires Consistent(s)
    ensures Consistent(Opened(s, connect).state)
    ensures s.link.Some? ==> Consistent(Begun(s, begin).state)
    ensures Consistent(Executed(s, sql, params, showSql, connect, begin, count).state)
    ensures Consistent(Queried(s, sql, params, page, showSql, connect, rows).state)
  {
  }

  /** After an execute, a query on the same handle runs on the same connection and leaves the transaction open. */
  lemma ExecuteThenQueryReusesConnection(s: HandleState, sql: string, params: seq<Param>, showSql: bool,
                                         connect: ConnectOutcome, begin: Reply<()>, run: Reply<nat>,
                                         sql2: string, params2: seq<Param>, page: Option<PageSpec>,
                                         connect2: ConnectOutcome, run2: Reply<seq<Row>>)
    requires Executed(s, sql, params, showSql, connect, begin, run).result.Ok?
    ensures var e := Executed(s, sql, params, showSql, connect, begin, run);
      var q := Queried(e.state, sql2, params2, page, showSql, connect2, run2);
      q.state == e.state && (run2.Returned? ==> q.result.Ok?)
  {
  }
}
