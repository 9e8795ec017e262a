/** The invoker of the order commands (emporia-api/command/order_invoker.py):
    it runs one command at a time, keeps every command that succeeded in its
    history, and on a failure undoes the whole history, newest first, before
    passing the failure on. `Invoke`, `Rollback` and `InvokeAll` say what
    the methods of `Invoker` do to the tables and to the history. */
module OrderInvoker {
  import opened Common
  import opened Tables
  import opened ProductRepo
  import opened OrderRepo
  import opened OrderCommands

  /** The state after `rollback`: the tables, the history as it then
      stands, and the message of the `undo` that raised, if one did. */
  datatype Rolled = Rolled(tables: Tables, history: seq<Command>, error: Option<string>)

  /** `rollback`: undo the history from the newest command back. An `undo`
      that raises ends the loop there, with the commands already undone in
      their new state and the history not cleared; otherwise the history is
      emptied. Before the clearing, `Rollback` keeps the undone commands in
      place, so its history is as long as the one it was given. */
  function Rollback(t: Tables, h: seq<Command>): Rolled
    decreases |h|
  {
    if h == [] then Rolled(t, [], None)
    else
      var u := Undo(t, h[|h| - 1]);
      if u.error.Some? then Rolled(u.tables, h, u.error)
      else
        var r := Rollback(u.tables, h[..|h| - 1]);
        Rolled(r.tables, r.history + [u.command], r.error)
  }

  /** The state after `execute_command`: the tables, the history, and the
      command's value or the message that was raised. */
  datatype Invoked = Invoked(tables: Tables, history: seq<Command>, result: Result<Value>)

  /** `execute_command`: a command that succeeds joins the history; one that
      raises does not, the history is rolled back, and what the caller sees
      is the command's message, or the message of an `undo` that raised in
      the rollback. A failed command's own partial effects are not undone. */
  function Invoke(t: Tables, h: seq<Command>, c: Command, now: int): Invoked
  {
    var s := Run(t, c, now);
    match s.result
    case Ok(v) => Invoked(s.tables, h + [s.command], Ok(v))
    case Err(m) =>
      var r := Rollback(s.tables, h);
      match r.error
      case None => Invoked(r.tables, [], Err(m))
      case Some(e) => Invoked(r.tables, r.history, Err(e))
  }

  /** The state after `execute_commands`. */
  datatype InvokedAll = InvokedAll(tables: Tables, history: seq<Command>, result: Result<seq<Value>>)

  /** `execute_commands`: the commands in order, collecting the values, until
      one raises. */
  function InvokeAll(t: Tables, h: seq<Command>, cs: seq<Command>, now: int): InvokedAll
    decreases |cs|
  {
    if cs == [] then InvokedAll(t, h, Ok([]))
    else
      var p := InvokeAll(t, h, cs[..|cs| - 1], now);
      match p.result
      case Err(m) => p
      case Ok(vs) =>
        var s := Invoke(p.tables, p.history, cs[|cs| - 1], now);
        match s.result
        case Ok(v) => InvokedAll(s.tables, s.history, Ok(vs + [v]))
        case Err(m) => InvokedAll(s.tables, s.history, Err(m))
  }

  /** Rolling back keeps the tables valid and, up to the clearing, keeps
      one entry per command; with no `undo` raising, every command has been
      undone in order. */
  lemma {:induction false} RollbackValid(t: Tables, h: seq<Command>)
    requires Valid(t)
    ensures Valid(Rollback(t, h).tables)
    ensures |Rollback(t, h).history| == |h|
    decreases |h|
  {
    if h != [] {
      RunValid(t, h[|h| - 1], 0);
      var u := Undo(t, h[|h| - 1]);
      if u.error.None? {
        RollbackValid(u.tables, h[..|h| - 1]);
      }
    }
  }

  /** Rolling back a history whose newest command is `c` undoes `c` first;
      when that does not raise, the rest of the history is rolled back from
      the tables it left. */
  lemma RollbackLast(t: Tables, h: seq<Command>, c: Command)
    ensures var u := Undo(t, c);
            u.error.Some? ==> Rollback(t, h + [c]) == Rolled(u.tables, h + [c], u.error)
    ensures var u := Undo(t, c);
            var r := Rollback(u.tables, h);
            u.error.None? ==> Rollback(t, h + [c]) == Rolled(r.tables, r.history + [u.command], r.error)
  {
    assert (h + [c])[..|h|] == h;
  }

  /** Running the commands keeps the tables valid. */
  lemma InvokeValid(t: Tables, h: seq<Command>, c: Command, now: int)
    requires Valid(t)
    ensures Valid(Invoke(t, h, c, now).tables)
  {
    RunValid(t, c, now);
    RollbackValid(Run(t, c, now).tables, h);
  }

  /** A command that succeeds is appended to the history as it ended up,
      and the tables are what it left; one that fails is never appended:
      the history is emptied, or left at its length when an `undo` raised. */
  lemma InvokeSpec(t: Tables, h: seq<Command>, c: Command, now: int)
    requires Valid(t)
    ensures var s := Run(t, c, now);
            var r := Invoke(t, h, c, now);
            (r.result.Ok? <==> s.result.Ok?) &&
            (s.result.Ok? ==> r == Invoked(s.tables, h + [s.command], s.result)) &&
            (s.result.Err? ==>
               var b := Rollback(s.tables, h);
               r.tables == b.tables &&
               (b.error.None? ==> r.history == [] && r.result == s.result) &&
               (b.error.Some? ==> |r.history| == |h| && r.result == Err(b.error.value)))
  {
    RunValid(t, c, now);
    RollbackValid(Run(t, c, now).tables, h);
  }

  /** `execute_commands` stops at the first failure: once a command has
      failed, later commands have no effect. */
  lemma {:induction false} InvokeAllStops(t: Tables, h: seq<Command>, a: seq<Command>, b: seq<Command>, now: int)
    requires InvokeAll(t, h, a, now).result.Err?
    ensures InvokeAll(t, h, a + b, now) == InvokeAll(t, h, a, now)
    decreases |b|
  {
    if b == [] {
      assert a + b == a;
    } else {
      assert (a + b)[..|a + b| - 1] == a + b[..|b| - 1];
      InvokeAllStops(t, h, a, b[..|b| - 1], now);
    }
  }

  /** The loop's step: the prefix one command longer invokes that command
      unless the shorter prefix already failed. */
  lemma InvokeAllStep(t: Tables, h: seq<Command>, cs: seq<Command>, i: nat, now: int)
    requires i < |cs|
    ensures InvokeAll(t, h, cs[..i + 1], now) ==
              (var p := InvokeAll(t, h, cs[..i], now);
               match p.result
               case Err(_) => p
               case Ok(vs) =>
                 var s := Invoke(p.tables, p.history, cs[i], now);
                 match s.result
                 case Ok(v) => InvokedAll(s.tables, s.history, Ok(vs + [v]))
                 case Err(m) => InvokedAll(s.tables, s.history, Err(m)))
  {
    assert cs[..i + 1][..i] == cs[..i];
  }

  /** When every command succeeds, there is one value per command and the
      history grows by one entry per command. */
  lemma {:induction false} InvokeAllSucceeds(t: Tables, h: seq<Command>, cs: seq<Command>, now: int)
    requires InvokeAll(t, h, cs, now).result.Ok?
    ensures |InvokeAll(t, h, cs, now).result.value| == |cs|
    ensures |InvokeAll(t, h, cs, now).history| == |h| + |cs|
    decreases |cs|
  {
    if cs != [] {
      var p := InvokeAll(t, h, cs[..|cs| - 1], now);
      if p.result.Ok? {
        InvokeAllSucceeds(t, h, cs[..|cs| - 1], now);
      }
    }
  }

  /** The rollback loop part-way: the commands before `i` are still to be
      undone from the current tables, those from `i` on are undone and in the
      state `hist` has them. */
  predicate RollbackLoop(t: Tables, h: seq<Command>, cur: Tables, hist: seq<Command>, i: int)
    requires 0 <= i <= |h| && |hist| == |h|
  {
    var r := Rollback(cur, h[..i]);
    Rollback(t, h) == Rolled(r.tables, r.history + hist[i..], r.error)
  }

  lemma RollbackLoopStart(t: Tables, h: seq<Command>)
    ensures RollbackLoop(t, h, t, h, |h|)
  {
    assert h[..|h|] == h && h[|h|..] == [];
    assert Rollback(t, h).history + [] == Rollback(t, h).history;
  }

  /** One round of the rollback loop: undo the newest command still to be
      undone. If it raises, the rollback ends here with the history as it
      stands; if not, the loop goes on with it in its undone state. */
  lemma RollbackLoopStep(t: Tables, h: seq<Command>, cur: Tables, hist: seq<Command>, i: int)
    requires 0 < i <= |h| && |hist| == |h| && hist[..i] == h[..i]
    requires RollbackLoop(t, h, cur, hist, i)
    ensures var u := Undo(cur, hist[i - 1]);
            u.error.Some? ==> Rollback(t, h) == Rolled(u.tables, hist, u.error)
    ensures var u := Undo(cur, hist[i - 1]);
            u.error.None? ==>
              hist[i - 1 := u.command][..i - 1] == h[..i - 1] &&
              RollbackLoop(t, h, u.tables, hist[i - 1 := u.command], i - 1)
  {
    var c := hist[i - 1];
    assert h[..i] == h[..i - 1] + [c];
    var u := Undo(cur, c);
    if u.error.Some? {
      RollbackLoopRaises(t, h, cur, hist, i, u);
    } else {
      RollbackLoopGoesOn(t, h, cur, hist, i, u);
    }
  }

  /** The case of `RollbackLoopStep` where the undo raises. */
  lemma RollbackLoopRaises(t: Tables, h: seq<Command>, cur: Tables, hist: seq<Command>, i: int, u: Undone)
    requires 0 < i <= |h| && |hist| == |h| && hist[..i] == h[..i] && h[..i] == h[..i - 1] + [hist[i - 1]]
    requires RollbackLoop(t, h, cur, hist, i)
    requires u == Undo(cur, hist[i - 1]) && u.error.Some?
    ensures Rollback(t, h) == Rolled(u.tables, hist, u.error)
  {
    RollbackLast(cur, h[..i - 1], hist[i - 1]);
    assert hist[..i] + hist[i..] == hist;
  }

  /** The case of `RollbackLoopStep` where the undo succeeds. */
  lemma RollbackLoopGoesOn(t: Tables, h: seq<Command>, cur: Tables, hist: seq<Command>, i: int, u: Undone)
    requires 0 < i <= |h| && |hist| == |h| && hist[..i] == h[..i] && h[..i] == h[..i - 1] + [hist[i - 1]]
    requires RollbackLoop(t, h, cur, hist, i)
    requires u == Undo(cur, hist[i - 1]) && u.error.None?
    ensures hist[i - 1 := u.command][..i - 1] == h[..i - 1]
    ensures RollbackLoop(t, h, u.tables, hist[i - 1 := u.command], i - 1)
  {
    RollbackLast(cur, h[..i - 1], hist[i - 1]);
    var next := hist[i - 1 := u.command];
    assert next[i - 1..] == [u.command] + hist[i..];
    var r := Rollback(u.tables, h[..i - 1]);
    assert r.history + [u.command] + hist[i..] == r.history + next[i - 1..];
  }

  lemma RollbackLoopEnd(t: Tables, h: seq<Command>, cur: Tables, hist: seq<Command>)
    requires |hist| == |h| && RollbackLoop(t, h, cur, hist, 0)
    ensures Rollback(t, h) == Rolled(cur, hist, None)
  {
    assert h[..0] == [] && hist[0..] == hist;
  }

  /** `OrderInvoker`: the repositories its commands use, all on one
      connection, and the command history. */
  class Invoker {
    const orders: DBOrderRepo
    const products: DBProductRepo
    var history: seq<Command>

    constructor (orders: DBOrderRepo, products: DBProductRepo)
      requires orders.db == products.db
      ensures this.orders == orders && this.products == products && history == []
    {
      this.orders := orders;
      this.products := products;
      history := [];
    }

    /** `rollback`: undo the history newest first, updating each command in
        place, and clear it unless an `undo` raised. */
    method RollbackHistory() returns (error: Option<string>)
      requires orders.db == products.db && Valid(orders.db.tables)
      modifies this, orders.db
      ensures Valid(orders.db.tables)
      ensures var r := Rollback(old(orders.db.tables), old(history));
              orders.db.tables == r.tables && error == r.error &&
              history == (if r.error.None? then [] else r.history)
    {
      ghost var t := orders.db.tables;
      ghost var h := history;
      var i := |history|;
      RollbackLoopStart(t, h);
      while i > 0
        invariant 0 <= i <= |h| && |history| == |h|
        invariant Valid(orders.db.tables)
        invariant history[..i] == h[..i]
        invariant RollbackLoop(t, h, orders.db.tables, history, i)
      {
        ghost var cur := orders.db.tables;
        ghost var before := history;
        var c := history[i - 1];
        RunValid(orders.db.tables, c, 0);
        var c', e := UndoCommand(orders, products, c);
        RollbackLoopStep(t, h, cur, before, i);
        if e.Some? {
          return e;
        }
        history := history[i - 1 := c'];
        i := i - 1;
      }
      RollbackLoopEnd(t, h, orders.db.tables, history);
      history := [];
      error := None;
    }

    /** `execute_command`. */
    method ExecuteCommand(c: Command, now: int) returns (r: Result<Value>)
      requires orders.db == products.db && Valid(orders.db.tables)
      modifies this, orders.db
      ensures Valid(orders.db.tables)
      ensures Invoked(orders.db.tables, history, r) == Invoke(old(orders.db.tables), old(history), c, now)
    {
      var c', v := Execute(orders, products, c, now);
      match v {
        case Ok(x) =>
          history := history + [c'];
          r := Ok(x);
        case Err(m) =>
          var e := RollbackHistory();
          match e {
            case None => r := Err(m);
            case Some(u) => r := Err(u);
          }
      }
    }

    /** `execute_commands`. */
    method ExecuteCommands(cs: seq<Command>, now: int) returns (r: Result<seq<Value>>)
      requires orders.db == products.db && Valid(orders.db.tables)
      modifies this, orders.db
      ensures Valid(orders.db.tables)
      ensures InvokedAll(orders.db.tables, history, r) == InvokeAll(old(orders.db.tables), old(history), cs, now)
    {
      ghost var t := orders.db.tables;
      ghost var h := history;
      var values: seq<Value> := [];
      for i := 0 to |cs|
        invariant Valid(orders.db.tables)
        invariant InvokedAll(orders.db.tables, history, Ok(values)) == InvokeAll(t, h, cs[..i], now)
      {
        InvokeAllStep(t, h, cs, i, now);
        var v := ExecuteCommand(cs[i], now);
        match v {
          case Ok(x) =>
            values := values + [x];
          case Err(m) =>
            InvokeAllStops(t, h, cs[..i + 1], cs[i + 1..], now);
            assert cs[..i + 1] + cs[i + 1..] == cs;
            return Err(m);
        }
      }
      assert cs[..|cs|] == cs;
      r := Ok(values);
    }
  }
}
