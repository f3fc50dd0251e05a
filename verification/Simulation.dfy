/**
 The batch driver inside the protocol: what `process_many` commits when it returns `Ok` is what a run of
 the transition system commits, so the protocol's safety covers it.
 */
module Simulation {
  import opened Ids
  import opened Batches
  import opened Protocol

  function KeysOf(batch: seq<Key>): set<Key> {
    set k | k in batch
  }

  /** No open transaction has locked a key of the batch. */
  ghost predicate Unlocked(s: Sys, batch: seq<Key>) {
    forall u, k :: u in s.txns && k in batch ==> k !in s.txns[u].locks
  }

  /** Since `s` one transaction was opened beside the others, which did not move, and nothing was committed. */
  ghost predicate Beside(s: Sys, e: Sys, t: nat) {
    && Inv(e) && t !in s.txns && t in e.txns && e.txns - {t} == s.txns
    && e.committed == s.committed && e.log == s.log && e.applied == s.applied
  }

  /** A batch between two claims or two handlers. */
  predicate Ready(x: Txn, batch: seq<Key>) {
    x.driver.Batch? && x.batch == batch && x.mode.Open? && x.running.None?
  }

  ghost predicate Driving(s: Sys, e: Sys, t: nat, batch: seq<Key>) {
    Beside(s, e, t) && Ready(e.txns[t], batch) && Unlocked(s, batch)
  }

  lemma {:induction false} Append(s: Sys, run: seq<Action>, a: Action)
    requires Inv(s) && Valid(s, run) && Enabled(Exec(s, run), a)
    ensures Valid(s, run + [a]) && Exec(s, run + [a]) == Apply(Exec(s, run), a) && Inv(Exec(s, run + [a]))
  {
    assert (run + [a])[..|run + [a]| - 1] == run;
    RunKeepsInv(s, run);
    StepKeepsInv(Exec(s, run), a);
  }

  lemma StaysBeside(s: Sys, e: Sys, t: nat, y: Txn)
    requires Beside(s, e, t) && Inv(e.(txns := e.txns[t := y]))
    ensures Beside(s, e.(txns := e.txns[t := y]), t)
  {
    assert e.txns[t := y] - {t} == e.txns - {t};
  }

  /** A move that stays inside that transaction. */
  lemma {:induction false} MoveInside(s: Sys, run: seq<Action>, t: nat, m: Move) returns (run': seq<Action>)
    requires Inv(s) && Valid(s, run) && Beside(s, Exec(s, run), t) && CanMove(Exec(s, run), t, m)
    requires !m.Commit? && !m.End?
    ensures Valid(s, run') && Beside(s, Exec(s, run'), t)
    ensures Exec(s, run').txns[t] == Inside(Exec(s, run).txns[t], m, s.committed)
  {
    Append(s, run, Do(t, m));
    run' := run + [Do(t, m)];
    StaysBeside(s, Exec(s, run), t, Inside(Exec(s, run).txns[t], m, s.committed));
  }

  /** The claims answered so far inserted exactly the rows that were missing. */
  ghost predicate Claiming(s: Sys, x: Txn) {
    x.next <= |x.batch| && x.unhandled == x.rows.Keys == Answered(x) - s.committed.Keys
  }

  lemma ClaimInside(s: Sys, x: Txn, m: Move)
    requires x.next < |x.batch| && Claiming(s, x) && x.driver.Batch?
    requires if NextKey(x) in s.committed then m == ClaimDuplicate(false) else m.ClaimFresh?
    ensures Claiming(s, Inside(x, m, s.committed))
  {
    AnsweredGrows(x);
    assert Answered(Inside(x, m, s.committed)) == Answered(x.(next := x.next + 1));
  }

  lemma NobodyElseLocks(s: Sys, e: Sys, t: nat, key: Key)
    requires Beside(s, e, t) && forall u :: u in s.txns ==> key !in s.txns[u].locks
    ensures !LockedByAnother(e, t, key)
  {
    forall u | u in e.txns && u != t
      ensures key !in e.txns[u].locks
    {
      assert u in s.txns && s.txns[u] == e.txns[u];
    }
  }

  lemma ClaimIsPossible(s: Sys, e: Sys, t: nat, batch: seq<Key>) returns (m: Move)
    requires Driving(s, e, t, batch) && e.txns[t].next < |batch|
    ensures CanMove(e, t, m)
    ensures if NextKey(e.txns[t]) in s.committed then m == ClaimDuplicate(false) else m == ClaimFresh(e.now)
  {
    var key := NextKey(e.txns[t]);
    assert key in batch;
    NobodyElseLocks(s, e, t, key);
    m := if key in s.committed then ClaimDuplicate(false) else ClaimFresh(e.now);
  }

  lemma {:induction false} ClaimNext(s: Sys, run: seq<Action>, t: nat, batch: seq<Key>) returns (run': seq<Action>)
    requires Inv(s) && Valid(s, run) && Driving(s, Exec(s, run), t, batch)
    requires Claiming(s, Exec(s, run).txns[t]) && Exec(s, run).txns[t].next < |batch|
    ensures Valid(s, run') && Driving(s, Exec(s, run'), t, batch)
    ensures Claiming(s, Exec(s, run').txns[t]) && Exec(s, run').txns[t].next == Exec(s, run).txns[t].next + 1
  {
    var x := Exec(s, run).txns[t];
    var m := ClaimIsPossible(s, Exec(s, run), t, batch);
    run' := MoveInside(s, run, t, m);
    ClaimInside(s, x, m);
  }

  /** Claims the whole batch. */
  lemma {:induction false} ClaimAll(s: Sys, run: seq<Action>, t: nat, batch: seq<Key>) returns (run': seq<Action>)
    requires Inv(s) && Valid(s, run) && Driving(s, Exec(s, run), t, batch) && Claiming(s, Exec(s, run).txns[t])
    ensures Valid(s, run') && Driving(s, Exec(s, run'), t, batch)
    ensures var x := Exec(s, run').txns[t];
            x.next == |batch| && x.unhandled == x.rows.Keys == KeysOf(batch) - s.committed.Keys
    decreases |batch| - Exec(s, run).txns[t].next
  {
    if Exec(s, run).txns[t].next == |batch| {
      assert batch[..|batch|] == batch;
      return run;
    }
    run' := ClaimNext(s, run, t, batch);
    run' := ClaimAll(s, run', t, batch);
  }

  /** What is left of a batch when the handlers in `due` ran and those outside `succeed` failed. */
  ghost predicate Handled(x: Txn, y: Txn, due: set<Key>, succeed: set<Key>) {
    y.next == x.next && y.unhandled == x.unhandled - due && y.rows.Keys == x.rows.Keys - (due - succeed)
  }

  lemma HandleInside(x: Txn, batch: seq<Key>, key: Key, ok: bool, committed: map<Key, int>)
    requires Ready(x, batch) && key in x.unhandled && key in x.rows
    ensures var y := Inside(x, StartHandler(key), committed);
            var z := Inside(y, if ok then HandlerOk else HandlerErr, committed);
            Ready(z, batch) && Handled(x, z, {key}, if ok then {key} else {})
  {
    assert (x.rows - {key}).Keys == x.rows.Keys - {key};
  }

  /** Runs one handler to its end: the row stays exactly if it succeeds. */
  lemma {:induction false} HandleOne(s: Sys, run: seq<Action>, t: nat, batch: seq<Key>, key: Key, ok: bool)
    returns (run': seq<Action>)
    requires Inv(s) && Valid(s, run) && Driving(s, Exec(s, run), t, batch)
    requires Exec(s, run).txns[t].next == |batch| && key in Exec(s, run).txns[t].unhandled
    ensures Valid(s, run') && Driving(s, Exec(s, run'), t, batch)
    ensures Handled(Exec(s, run).txns[t], Exec(s, run').txns[t], {key}, if ok then {key} else {})
  {
    var x := Exec(s, run).txns[t];
    assert TxnInv(x);
    run' := MoveInside(s, run, t, StartHandler(key));
    run' := MoveInside(s, run', t, if ok then HandlerOk else HandlerErr);
    HandleInside(x, batch, key, ok, s.committed);
  }

  lemma HandledThen(x: Txn, y: Txn, z: Txn, key: Key, due: set<Key>, succeed: set<Key>)
    requires key in due
    requires Handled(x, y, {key}, if key in succeed then {key} else {}) && Handled(y, z, due - {key}, succeed)
    ensures Handled(x, z, due, succeed)
  {
  }

  /** Runs every handler still due. */
  lemma {:induction false} HandleAll(
    s: Sys, run: seq<Action>, t: nat, batch: seq<Key>, succeed: set<Key>, due: set<Key>) returns (run': seq<Action>)
    requires Inv(s) && Valid(s, run) && Driving(s, Exec(s, run), t, batch)
    requires Exec(s, run).txns[t].next == |batch| && Exec(s, run).txns[t].unhandled == due
    ensures Valid(s, run') && Driving(s, Exec(s, run'), t, batch)
    ensures Handled(Exec(s, run).txns[t], Exec(s, run').txns[t], due, succeed)
    decreases due
  {
    if due == {} {
      return run;
    }
    var key :| key in due;
    var next := HandleOne(s, run, t, batch, key, key in succeed);
    run' := HandleAll(s, next, t, batch, succeed, due - {key});
    HandledThen(Exec(s, run).txns[t], Exec(s, next).txns[t], Exec(s, run').txns[t], key, due, succeed);
  }

  predicate EndsWith(run: seq<Action>, a: Action) {
    run != [] && run[|run| - 1] == a
  }

  /** The database after a batch left `done`: those rows, and one effect for each; the others as they were. */
  ghost predicate Landed(s: Sys, s': Sys, done: set<Key>) {
    s'.txns == s.txns && AddsRows(s, s', done)
  }

  lemma {:induction false} CommitAll(s: Sys, run: seq<Action>, t: nat, batch: seq<Key>, replied: bool)
    returns (run': seq<Action>)
    requires Inv(s) && Valid(s, run) && Driving(s, Exec(s, run), t, batch)
    requires Exec(s, run).txns[t].next == |batch| && Exec(s, run).txns[t].unhandled == {}
    ensures EndsWith(run', Do(t, Commit(replied)))
    ensures Valid(s, run') && Landed(s, Exec(s, run'), Exec(s, run).txns[t].rows.Keys)
  {
    var e := Exec(s, run);
    assert TxnInv(e.txns[t]);
    Append(s, run, Do(t, Commit(replied)));
    run' := run + [Do(t, Commit(replied))];
    CommitAddsRows(e, t);
  }

  lemma {:induction false} BeginBatch(s: Sys, batch: seq<Key>) returns (run: seq<Action>)
    requires Inv(s) && Unlocked(s, batch) && batch != [] && InLockOrder(batch)
    ensures Valid(s, run) && Driving(s, Exec(s, run), s.nextTxn, batch) && Claiming(s, Exec(s, run).txns[s.nextTxn])
  {
    Append(s, [], Begin(Batch, batch));
    run := [] + [Begin(Batch, batch)];
    assert s.nextTxn !in s.txns;
    assert Exec(s, run).txns - {s.nextTxn} == s.txns;
    assert Answered(Opened(s, Batch, batch)) == {};
  }

  lemma {:induction false} HandleAndCommit(
    s: Sys, run: seq<Action>, t: nat, batch: seq<Key>, succeed: set<Key>, replied: bool)
    returns (run': seq<Action>)
    requires Inv(s) && Valid(s, run) && Driving(s, Exec(s, run), t, batch) && Exec(s, run).txns[t].next == |batch|
    requires Exec(s, run).txns[t].unhandled == Exec(s, run).txns[t].rows.Keys
    ensures EndsWith(run', Do(t, Commit(replied)))
    ensures Valid(s, run') && Landed(s, Exec(s, run'), Exec(s, run).txns[t].unhandled * succeed)
  {
    var due := Exec(s, run).txns[t].unhandled;
    run' := HandleAll(s, run, t, batch, succeed, due);
    assert Exec(s, run').txns[t].rows.Keys == due * succeed;
    run' := CommitAll(s, run', t, batch, replied);
  }

  /**
   A batch beside any transactions that have not locked its keys: the keys that are not there yet and
   succeed are committed, once each, whether or not the commit's reply arrives.
   */
  lemma {:induction false} BatchRuns(s: Sys, batch: seq<Key>, succeed: set<Key>, replied: bool)
    returns (run: seq<Action>)
    requires Inv(s) && Unlocked(s, batch) && batch != [] && InLockOrder(batch)
    ensures EndsWith(run, Do(s.nextTxn, Commit(replied)))
    ensures Valid(s, run) && Landed(s, Exec(s, run), (KeysOf(batch) - s.committed.Keys) * succeed)
  {
    run := BeginBatch(s, batch);
    run := ClaimAll(s, run, s.nextTxn, batch);
    run := HandleAndCommit(s, run, s.nextTxn, batch, succeed, replied);
  }

  function Keyed(consumer: string, ids: set<string>): set<Key> {
    set id | id in ids :: Key(consumer, id)
  }

  /**
   For every handler and batch, beside any transactions that hold none of its keys: some run of the
   protocol, claiming the sorted, deduplicated ids, ends with this consumer's rows as `process_many` leaves
   them, other consumers' rows untouched, and one more effect for each new row. Its commit may go
   unanswered.
   */
  lemma {:induction false} ProcessManyIsARun<H, W, T, E>(
    s: Sys, consumer: string, db: Db<W>, start: H, ids: seq<string>, unique: seq<string>, h: Handler<H, W, T, E>,
    replied: bool)
    returns (run: seq<Action>)
    requires Inv(s) && ids != []
    requires forall u, id :: u in s.txns && id in ids ==> Key(consumer, id) !in s.txns[u].locks
    requires forall id :: id in db.rows <==> Key(consumer, id) in s.committed
    requires StrictlyIncreasing(unique) && forall id :: id in unique <==> id in ids
    ensures EndsWith(run, Do(s.nextTxn, Commit(replied)))
    ensures Valid(s, run)
    ensures Landed(s, Exec(s, run), Keyed(consumer, ProcessEach(db, start, ids, h).db.rows - db.rows))
  {
    EveryIdIsRecordedOrFailed(db, start, ids, h);
    var done := Keyed(consumer, ProcessEach(db, start, ids, h).db.rows - db.rows);
    var batch := seq(|unique|, i requires 0 <= i < |unique| => Key(consumer, unique[i]));
    assert unique != [] by { assert ids[0] in unique; }
    KeysOfBatch(consumer, ids, unique, batch);
    assert Unlocked(s, batch) by { assert forall k :: k in batch <==> k in KeysOf(batch); }
    run := BatchRuns(s, batch, done, replied);
    assert (KeysOf(batch) - s.committed.Keys) * done == done;
  }

  /**
   The outer `Err` can hide a commit: whenever some handler succeeds, there is a run whose commit gets no
   reply and yet leaves a new row of this consumer, with its effect.
   */
  lemma LostReplyHidesACommit<H, W, T, E>(
    s: Sys, consumer: string, db: Db<W>, start: H, ids: seq<string>, unique: seq<string>, h: Handler<H, W, T, E>)
    returns (run: seq<Action>, key: Key)
    requires Inv(s) && !NoneSucceeded(ProcessEach(db, start, ids, h).attempts)
    requires forall u, id :: u in s.txns && id in ids ==> Key(consumer, id) !in s.txns[u].locks
    requires forall id :: id in db.rows <==> Key(consumer, id) in s.committed
    requires StrictlyIncreasing(unique) && forall id :: id in unique <==> id in ids
    ensures Valid(s, run) && EndsWith(run, Do(s.nextTxn, Commit(false)))
    ensures key.consumer == consumer && key.id in ids
    ensures key !in s.committed && key in Exec(s, run).committed && Exec(s, run).log[key] == s.log[key] + 1
  {
    EveryIdIsRecordedOrFailed(db, start, ids, h);
    ChangesIffSomethingSucceeds(db, start, ids, h);
    run := ProcessManyIsARun(s, consumer, db, start, ids, unique, h, false);
    var rows := ProcessEach(db, start, ids, h).db.rows;
    var id :| id in rows && id !in db.rows;
    key := Key(consumer, id);
    assert key in Keyed(consumer, rows - db.rows);
    assert key in Exec(s, run).committed.Keys;
  }

  lemma KeysOfBatch(consumer: string, ids: seq<string>, unique: seq<string>, batch: seq<Key>)
    requires |batch| == |unique| && forall i :: 0 <= i < |batch| ==> batch[i] == Key(consumer, unique[i])
    requires forall id :: id in unique <==> id in ids
    ensures forall k: Key :: k in KeysOf(batch) <==> k.consumer == consumer && k.id in ids
  {
    forall k: Key | k.consumer == consumer && k.id in ids
      ensures k in KeysOf(batch)
    {
      var i :| 0 <= i < |unique| && unique[i] == k.id;
      assert batch[i] == k;
    }
  }
}
