/** The activities as they run: statements inside a transaction that is rolled back unless it
    commits, and the retries around them. Each attempt is one transaction of module Store. */
module Activities {
  import opened Model
  import opened Money
  import opened Store
  import AuditLog

  /** What the database connection does to an attempt. `AckLost` commits but reports an error. */
  datatype Weather = Healthy | BeginFails | StatementFails | CommitFails | AckLost

  const MAX_ATTEMPTS: nat := 5

  predicate Reaches(w: Weather) {
    w.Healthy? || w.AckLost?
  }

  /** What an attempt leaves in the tables. */
  function Attempted(db: Db, tx: Tx, w: Weather): Db {
    if Reaches(w) then After(db, tx) else db
  }

  lemma {:induction false} ReplayConcat(db: Db, xs: seq<Tx>, ys: seq<Tx>)
    ensures Replay(db, xs + ys) == Replay(Replay(db, xs), ys)
  {
    if ys == [] {
      assert xs + ys == xs;
    } else {
      var init := ys[..|ys| - 1];
      assert (xs + ys)[..|xs + ys| - 1] == xs + init;
      ReplayConcat(db, xs, init);
    }
  }

  /** A create or an append that has committed once is a no-op ever after, whatever other
      transactions commit in between: the conflict clause finds its row. */
  lemma {:induction false} RepeatIsNoop(db: Db, tx: Tx, others: seq<Tx>)
    requires !tx.Close? && Commit(db, tx).Some?
    ensures var later := Replay(After(db, tx), others); Commit(later, tx) == Some(later)
  {
    AuditLog.ReplayKeeps(After(db, tx), others);
  }

  /** What the tables see of an activity's first n attempts: before each of them the transactions
      of others, and the activity's own whenever an attempt reaches the commit. */
  function Trace(tx: Tx, others: seq<seq<Tx>>, weather: seq<Weather>, n: nat): seq<Tx>
    requires n <= |others| == |weather|
  {
    if n == 0 then [] else
      Trace(tx, others, weather, n - 1) + others[n - 1] + (if Reaches(weather[n - 1]) then [tx] else [])
  }

  /** The tables the n-th attempt finds. */
  function Finds(db: Db, tx: Tx, others: seq<seq<Tx>>, weather: seq<Weather>, n: nat): Db
    requires n < |others| == |weather|
  {
    Replay(Replay(db, Trace(tx, others, weather, n)), others[n])
  }

  function Flat(others: seq<seq<Tx>>): seq<Tx> {
    if others == [] then [] else Flat(others[..|others| - 1]) + others[|others| - 1]
  }

  /** Among the transactions of others, tx took effect at position k. */
  predicate Once(db: Db, tx: Tx, all: seq<Tx>, k: nat, db': Db) {
    && k <= |all| && Commit(Replay(db, all[..k]), tx).Some?
    && db' == Replay(After(Replay(db, all[..k]), tx), all[k..])
  }

  lemma OnceLater(db: Db, tx: Tx, all: seq<Tx>, k: nat, db': Db, more: seq<Tx>)
    requires Once(db, tx, all, k, db')
    ensures Once(db, tx, all + more, k, Replay(db', more))
  {
    assert (all + more)[..k] == all[..k] && (all + more)[k..] == all[k..] + more;
    ReplayConcat(After(Replay(db, all[..k]), tx), all[k..], more);
  }

  lemma OnceNow(db: Db, tx: Tx, all: seq<Tx>)
    requires Commit(Replay(db, all), tx).Some?
    ensures Once(db, tx, all, |all|, After(Replay(db, all), tx))
  {
    assert all[..|all|] == all && all[|all|..] == [];
  }

  lemma OnceForAll(db: Db, tx: Tx, all: seq<Tx>, k: nat, db': Db)
    requires !tx.Close? && Once(db, tx, all, k, db')
    ensures After(db', tx) == db'
  {
    RepeatIsNoop(Replay(db, all[..k]), tx, all[k..]);
  }

  lemma TraceStep(db: Db, tx: Tx, others: seq<seq<Tx>>, weather: seq<Weather>, n: nat)
    requires n < |others| == |weather|
    ensures Replay(db, Trace(tx, others, weather, n + 1)) ==
            Attempted(Finds(db, tx, others, weather, n), tx, weather[n])
    ensures Flat(others[..n + 1]) == Flat(others[..n]) + others[n]
  {
    var seen := Trace(tx, others, weather, n);
    ReplayConcat(db, seen, others[n]);
    if Reaches(weather[n]) {
      ReplayConcat(db, seen + others[n], [tx]);
      assert [tx][..0] == [] && Replay(Finds(db, tx, others, weather, n), [tx]) == After(Finds(db, tx, others, weather, n), tx);
    } else {
      assert seen + others[n] + [] == seen + others[n];
    }
    assert others[..n + 1][..n] == others[..n];
  }

  /** A create or an append takes effect at most once, and once if an attempt of it committed. */
  ghost predicate AtMostOnce(db: Db, tx: Tx, all: seq<Tx>, done: bool, db': Db) {
    (!done && db' == Replay(db, all)) || exists k: nat :: Once(db, tx, all, k, db')
  }

  /** One more attempt, after more transactions of others. */
  lemma AtMostOnceNext(db: Db, tx: Tx, all: seq<Tx>, done: bool, db': Db, more: seq<Tx>, w: Weather)
    requires !tx.Close? && AtMostOnce(db, tx, all, done, db')
    ensures var found := Replay(db', more);
      AtMostOnce(db, tx, all + more, done || (Reaches(w) && Commit(found, tx).Some?), Attempted(found, tx, w))
  {
    var found := Replay(db', more);
    if k: nat :| Once(db, tx, all, k, db') {
      OnceLater(db, tx, all, k, db', more);
      OnceForAll(db, tx, all + more, k, found);
      assert Attempted(found, tx, w) == found;
    } else {
      ReplayConcat(db, all, more);
      if Reaches(w) && Commit(found, tx).Some? { OnceNow(db, tx, all + more); }
    }
  }

  /** The attempts made: only the last may be acknowledged, and it is one that commits in good
      weather. */
  ghost predicate Tried(db: Db, tx: Tx, others: seq<seq<Tx>>, weather: seq<Weather>, attempts: nat, ok: bool)
    requires attempts <= |others| == |weather|
  {
    forall n :: 0 <= n < attempts ==>
      ((ok && n == attempts - 1) <==> (weather[n].Healthy? && Commit(Finds(db, tx, others, weather, n), tx).Some?))
  }

  lemma TriedNext(db: Db, tx: Tx, others: seq<seq<Tx>>, weather: seq<Weather>, attempts: nat, ok: bool)
    requires attempts < |others| == |weather| && Tried(db, tx, others, weather, attempts, false)
    requires ok <==> weather[attempts].Healthy? && Commit(Finds(db, tx, others, weather, attempts), tx).Some?
    ensures Tried(db, tx, others, weather, attempts + 1, ok)
  {
  }

  /** What an activity's attempts have left: the tables have seen exactly the trace, and a create or
      an append took effect at most once, and once if it succeeded. */
  ghost predicate Executed(
    db: Db, tx: Tx, others: seq<seq<Tx>>, weather: seq<Weather>, attempts: nat, ok: bool, db': Db)
    requires attempts <= |others| == |weather|
  {
    && db' == Replay(db, Trace(tx, others, weather, attempts))
    && Tried(db, tx, others, weather, attempts, ok)
    && (!tx.Close? ==> AtMostOnce(db, tx, Flat(others[..attempts]), ok, db'))
  }

  lemma ExecutedNext(
    db: Db, tx: Tx, others: seq<seq<Tx>>, weather: seq<Weather>, attempts: nat, db': Db, ok: bool, db'': Db)
    requires attempts < |others| == |weather| && Executed(db, tx, others, weather, attempts, false, db')
    requires db'' == Attempted(Replay(db', others[attempts]), tx, weather[attempts])
    requires ok <==> weather[attempts].Healthy? && Commit(Replay(db', others[attempts]), tx).Some?
    ensures Executed(db, tx, others, weather, attempts + 1, ok, db'')
  {
    TraceStep(db, tx, others, weather, attempts);
    TriedNext(db, tx, others, weather, attempts, ok);
    if !tx.Close? {
      AtMostOnceNext(db, tx, Flat(others[..attempts]), false, db', others[attempts], weather[attempts]);
    }
  }

  class Tables {
    var bills: map<BillId, BillRow>
    var items: map<ItemId, ItemRow>
    var events: seq<Event>

    function Value(): Db
      reads this
    {
      Db(bills, items, events)
    }

    constructor ()
      ensures Value() == EMPTY
    {
      bills, items, events := map[], map[], [];
    }

    /** Undoes everything since the transaction began. */
    method Rollback(begun: Db)
      modifies this
      ensures Value() == begun
    {
      bills, items, events := begun.bills, begun.items, begun.events;
    }

    /** INSERT INTO bill_events; the bill must exist. */
    method AppendEvent(bill: BillId, actor: Account, payload: Payload) returns (ok: bool)
      modifies this`events
      ensures ok <==> bill in bills
      ensures events == if ok then old(events) + [EventOf(bill, actor, payload)] else old(events)
    {
      var name := actor;
      if name == "" { name := SYSTEM_ACTOR; }
      ok := bill in bills;
      if ok { events := events + [Event(bill, name, payload)]; }
    }

    method CreateBill(b: Bill, w: Weather) returns (ok: bool)
      modifies this
      ensures Value() == Attempted(old(Value()), Create(b), w)
      ensures ok <==> w.Healthy?
    {
      if w.BeginFails? { return false; }
      var begun := Db(bills, items, events);
      var committed := false;
      if w.StatementFails? {
        Rollback(begun);
        return false;
      }
      if b.id !in bills {
        bills := bills[b.id := BillRow(b.account, b.status, b.currency, 0, b.createdAt, None, b.periodStart, b.periodEnd, None)];
        var logged := AppendEvent(b.id, b.account, Opened(b.currency, b.periodStart, b.periodEnd));
      }
      committed := Reaches(w);
      if !committed { Rollback(begun); }
      ok := w.Healthy?;
    }

    method AppendLineItem(i: AppendInput, w: Weather) returns (ok: bool)
      modifies this
      ensures Value() == Attempted(old(Value()), Append(i), w)
      ensures ok <==> w.Healthy? && Commit(old(Value()), Append(i)).Some?
    {
      if w.BeginFails? { return false; }
      var begun := Db(bills, items, events);
      var stored := Round(i.item.amount);
      if w.StatementFails? || !(0 < stored && Fits(stored)) || (i.item.id !in items && i.bill !in bills) {
        Rollback(begun);
        return false;
      }
      if i.item.id !in items {
        items := items[i.item.id := ItemRow(i.bill, i.item.description, stored, i.item.currency, i.item.createdAt)];
        var total := Round(bills[i.bill].total as real + i.item.amount);
        if !Fits(total) {
          Rollback(begun);
          return false;
        }
        bills := bills[i.bill := bills[i.bill].(total := total)];
        var logged := AppendEvent(i.bill, i.actor, ItemAdded(i.item.id, i.item.description, i.item.amount, i.item.currency));
      }
      var committed := Reaches(w);
      if !committed { Rollback(begun); }
      ok := w.Healthy?;
    }

    method CloseBill(c: CloseInput, w: Weather) returns (ok: bool)
      modifies this
      ensures Value() == Attempted(old(Value()), Close(c), w)
      ensures ok <==> w.Healthy? && Commit(old(Value()), Close(c)).Some?
    {
      if w.BeginFails? { return false; }
      var begun := Db(bills, items, events);
      var total := Round(c.total);
      if w.StatementFails? {
        Rollback(begun);
        return false;
      }
      if c.bill in bills {
        if !Fits(total) {
          Rollback(begun);
          return false;
        }
        bills := bills[c.bill := bills[c.bill].(status := Closed, total := total, closedAt := Some(c.closedAt),
                                                closeReason := Nullable(c.reason))];
      }
      var logged := AppendEvent(c.bill, c.actor, BillClosed(c.total, c.reason));
      if !logged {
        Rollback(begun);
        return false;
      }
      var committed := Reaches(w);
      if !committed { Rollback(begun); }
      ok := w.Healthy?;
    }

    method Attempt(tx: Tx, w: Weather) returns (ok: bool)
      modifies this
      ensures Value() == Attempted(old(Value()), tx, w)
      ensures ok <==> w.Healthy? && Commit(old(Value()), tx).Some?
    {
      match tx
      case Create(b) => ok := CreateBill(b, w);
      case Append(i) => ok := AppendLineItem(i, w);
      case Close(c) => ok := CloseBill(c, w);
    }

    /** Other activities commit meanwhile. */
    method Meanwhile(txs: seq<Tx>)
      modifies this
      ensures Value() == Replay(old(Value()), txs)
    {
      var n := 0;
      while n < |txs|
        invariant 0 <= n <= |txs| && Value() == Replay(old(Value()), txs[..n])
      {
        assert txs[..n + 1][..n] == txs[..n];
        var committed := Attempt(txs[n], Healthy);
        n := n + 1;
      }
      assert txs[..|txs|] == txs;
    }

    /** An activity with its retries: at most five attempts, stopping at the first that is
        acknowledged, while other transactions commit before each of them. */
    method Execute(tx: Tx, weather: seq<Weather>, others: seq<seq<Tx>>) returns (ok: bool, attempts: nat)
      requires |weather| == |others| == MAX_ATTEMPTS
      modifies this
      ensures 0 < attempts <= 5 && (!ok ==> attempts == 5)
      ensures Executed(old(Value()), tx, others, weather, attempts, ok, Value())
    {
      ok, attempts := false, 0;
      while attempts < MAX_ATTEMPTS && !ok
        invariant attempts <= MAX_ATTEMPTS && (ok ==> attempts > 0)
        invariant Executed(old(Value()), tx, others, weather, attempts, ok, Value())
      {
        ghost var before := Value();
        Meanwhile(others[attempts]);
        ok := Attempt(tx, weather[attempts]);
        ExecutedNext(old(Value()), tx, others, weather, attempts, before, ok, Value());
        attempts := attempts + 1;
      }
    }
  }
}
