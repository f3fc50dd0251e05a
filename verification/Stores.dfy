/**
 The `InboxStore` and `Savepoints` contracts (src/store.rs) on one pooled connection. Any statement may
 fail; a failure may leave the transaction aborted or already rolled back by the backend.
 */
module Stores {
  import opened Results
  import opened Claims
  import opened Batches

  datatype StoreError = Backend | Contended

  /** An open transaction: its view of the database and the snapshots of its open savepoints. */
  datatype Tx<+W> = Tx(db: Db<W>, savepoints: seq<Db<W>>, mode: Mode) {
    function Issued(op: Op, failure: Option<StoreError>): Call {
      Call(op, |savepoints|, mode, failure)
    }
  }

  datatype Op =
    | Begin | ClaimOne(id: string) | ClaimMany(ids: seq<string>)
    | Savepoint | ReleaseAndSavepoint | Release | RollbackTo | Unclaim(id: string)
    | Commit | Rollback

  /**
   A statement sent to the backend: how many savepoints were open, the transaction's mode, and how it failed,
   if the backend did not do as its contract says, which includes answering a batch claim one for one.
   */
  datatype Call = Call(op: Op, depth: nat, mode: Mode, failure: Option<StoreError>) {
    const ok: bool := failure.None?
  }

  /** How a batch claim failed: by its error, or by answering more or fewer ids than were sent. */
  function BatchFailure(r: Result<seq<Claim>, StoreError>, sent: nat): Option<StoreError> {
    if r.Ok? && |r.value| != sent then Some(Backend) else r.Failure()
  }

  /** One insert-if-absent and whether the backend executed it; a batch claim may take several. */
  datatype Insert = Insert(id: string, ok: bool)

  /** The inserts of a claim loop that got through `done` of its ids. */
  function InsertsOf(ids: seq<string>, done: nat): seq<Insert>
    requires done <= |ids|
  {
    seq(done, i requires 0 <= i < done => Insert(ids[i], true))
    + if done < |ids| then [Insert(ids[done], false)] else []
  }

  /** What becomes of a commit: refused, done with the reply lost, or done and acknowledged. */
  datatype CommitFate = Refused | ReplyLost | Acknowledged

  /** What a backend can execute at all: an aborted transaction only ends or rolls back to a savepoint. */
  predicate Accepts<W>(tx: Tx<W>, op: Op) {
    match op
    case Savepoint => tx.mode.Open?
    case ReleaseAndSavepoint | Release => tx.mode.Open? && tx.savepoints != []
    case RollbackTo => !tx.mode.Dead? && tx.savepoints != []
    case Commit | Rollback => true
    case _ => !tx.mode.Aborted?
  }

  /** Rows come back from the database in no particular order. */
  method InSomeOrder(ids: set<string>) returns (listed: seq<string>)
    ensures Lists(listed, ids)
  {
    var left := ids;
    listed := [];
    while left != {}
      invariant left <= ids && forall id :: id in listed <==> id in ids && id !in left
      decreases left
    {
      var id :| id in left;
      listed, left := listed + [id], left - {id};
    }
  }

  /** What a backend may get wrong: a statement fails, with an error and the mode it leaves, or miscounts. */
  datatype Faults = Faults(
    calls: nat -> Option<Fault>,     // the statement with this number, if it fails
    inserts: nat -> Option<Fault>,   // the insert with this number, if it fails
    miscounts: nat -> bool)          // whether this statement answers too few claims

  datatype Fault = Fault(error: StoreError, left: Mode)

  class Store<W> {
    var durable: Db<W>
    var tx: Option<Tx<W>>
    var calls: seq<Call>
    var inserts: seq<Insert>
    const faults: Faults

    constructor (db: Db<W>, faults: Faults)
      ensures durable == db && tx == None && calls == [] && inserts == [] && this.faults == faults
    {
      durable, tx, calls, inserts := db, None, [], [];
      this.faults := faults;
    }

    /** Nothing fails but what the transaction's own state forbids. */
    ghost predicate Faultless() {
      forall n :: faults.calls(n).None? && faults.inserts(n).None? && !faults.miscounts(n)
    }

    /** How the next statement fails: by a fault, or because the transaction cannot take it. */
    function Verdict(op: Op): Option<StoreError>
      requires tx.Some?
      reads this
    {
      var fault := faults.calls(|calls|);
      if fault.Some? then Some(fault.value.error) else if Accepts(tx.value, op) then None else Some(Backend)
    }

    /** Sends a statement; a fault leaves the transaction in whatever mode the backend chose. */
    method Executes(op: Op) returns (failure: Option<StoreError>)
      requires tx.Some?
      modifies this`calls, this`tx
      ensures failure == old(Verdict(op)) && calls == old(calls) + [old(tx.value).Issued(op, failure)]
      ensures var fault := faults.calls(|old(calls)|);
              if fault.Some?
              then failure == Some(fault.value.error) && tx == Some(old(tx.value).(mode := fault.value.left))
              else tx == old(tx) && (failure.None? <==> Accepts(old(tx.value), op))
      ensures tx.Some? && tx.value == old(tx.value).(mode := tx.value.mode)
    {
      failure := Verdict(op);
      var fault := faults.calls(|calls|);
      calls := calls + [tx.value.Issued(op, failure)];
      if fault.Some? { tx := Some(tx.value.(mode := fault.value.left)); }
    }

    method Begin() returns (r: Result<(), StoreError>)
      requires tx.None?
      modifies this
      ensures durable == old(durable)
      ensures calls == old(calls) + [Call(Op.Begin, 0, Open, r.Failure())]
      ensures r == if faults.calls(|old(calls)|).Some? then Err(faults.calls(|old(calls)|).value.error) else Ok(())
      ensures tx == if r.Ok? then Some(Tx(durable, [], Open)) else None
    {
      var fault := faults.calls(|calls|);
      r := if fault.Some? then Err(fault.value.error) else Ok(());
      calls := calls + [Call(Op.Begin, 0, Open, r.Failure())];
      if r.Ok? { tx := Some(Tx(durable, [], Open)); }
    }

    /**
     One insert-if-absent. On a transaction the backend has already rolled back, the statement commits
     by itself.
     */
    method InsertIfAbsent(id: string) returns (r: Result<Claim, StoreError>)
      requires tx.Some?
      modifies this`tx, this`durable, this`inserts
      ensures inserts == old(inserts) + [Insert(id, r.Ok?)]
      ensures tx.Some? && (r.Ok? <==> !old(tx.value.mode).Aborted? && faults.inserts(|old(inserts)|).None?)
      ensures faults.inserts(|old(inserts)|).Some? ==> r == Err(faults.inserts(|old(inserts)|).value.error)
      ensures r.Err? ==> durable == old(durable) && tx.value == old(tx.value).(mode := tx.value.mode)
      ensures r.Ok? && old(tx.value.mode).Dead? ==>
                && tx == old(tx) && r.value == Answer(old(durable).rows, id)
                && durable == old(durable).(rows := old(durable).rows + {id})
      ensures r.Ok? && old(tx.value.mode).Open? ==>
                var was := old(tx.value);
                && durable == old(durable) && r.value == Answer(was.db.rows, id)
                && tx.value == was.(db := was.db.(rows := was.db.rows + {id}))
    {
      var fault := faults.inserts(|inserts|);
      inserts := inserts + [Insert(id, fault.None? && !tx.value.mode.Aborted?)];
      if fault.Some? {
        tx := Some(tx.value.(mode := fault.value.left));
        return Err(fault.value.error);
      }
      if tx.value.mode.Aborted? { return Err(Backend); }
      if tx.value.mode.Dead? {
        r := Ok(Answer(durable.rows, id));
        durable := durable.(rows := durable.rows + {id});
      } else {
        r := Ok(Answer(tx.value.db.rows, id));
        tx := Some(tx.value.(db := tx.value.db.(rows := tx.value.db.rows + {id})));
      }
    }

    method ClaimOne(id: string) returns (r: Result<Claim, StoreError>)
      requires tx.Some?
      modifies this
      ensures tx.Some?
      ensures calls == old(calls) + [old(tx.value).Issued(Op.ClaimOne(id), r.Failure())]
      ensures inserts == old(inserts) + [Insert(id, r.Ok?)]
      ensures !old(tx.value.mode).Dead? || r.Err? ==> durable == old(durable)
      ensures r.Ok? && old(tx.value.mode).Open? ==>
                var was := old(tx.value);
                r.value == Answer(was.db.rows, id) && tx.value == was.(db := was.db.(rows := was.db.rows + {id}))
      ensures r.Ok? && old(tx.value.mode).Dead? ==> durable == old(durable).(rows := old(durable).rows + {id})
      ensures r.Ok? <==> !old(tx.value.mode).Aborted? && faults.inserts(|old(inserts)|).None?
    {
      var was := tx.value;
      r := InsertIfAbsent(id);
      calls := calls + [was.Issued(Op.ClaimOne(id), r.Failure())];
    }

    /**
     The default batch claim: one by one, pushing each answer, stopping at the first that fails. What the
     `done` claims before it inserted stays in the transaction. A backend may miscount its answers.
     */
    method ClaimMany(ids: seq<string>) returns (r: Result<seq<Claim>, StoreError>, ghost done: nat)
      requires tx.Some?
      modifies this
      ensures tx.Some?
      ensures calls == old(calls) + [old(tx.value).Issued(Op.ClaimMany(ids), BatchFailure(r, |ids|))]
      ensures done <= |ids| && (r.Ok? <==> done == |ids|) && inserts == old(inserts) + InsertsOf(ids, done)
      ensures forall n :: |old(inserts)| <= n < |old(inserts)| + done ==> faults.inserts(n).None?
      ensures done < |ids| ==> faults.inserts(|old(inserts)| + done).Some? || old(tx.value.mode).Aborted?
      ensures r.Ok? ==> (|r.value| == |ids| <==> ids == [] || !faults.miscounts(|old(calls)|))
      ensures var was, claimed := old(tx.value), ClaimEach(old(tx.value.db.rows), ids[..done]);
              !was.mode.Dead? ==>
                && durable == old(durable)
                && tx.value == was.(db := was.db.(rows := claimed.rows), mode := tx.value.mode)
      ensures old(tx.value.mode).Dead? ==>
                durable == old(durable).(rows := ClaimEach(old(durable).rows, ids[..done]).rows)
      ensures r.Ok? && old(tx.value.mode).Open? ==> tx.value.mode.Open?
      ensures r.Ok? && old(tx.value.mode).Open? && |r.value| == |ids| ==>
                r.value == ClaimEach(old(tx.value.db.rows), ids).claims
    {
      var was := tx.value;
      ghost var base := if was.mode.Dead? then durable.rows else was.db.rows;
      var claims := [];
      done := 0;
      for i := 0 to |ids|
        invariant done == i && calls == old(calls) && tx.Some? && tx.value.mode == was.mode
        invariant i > 0 ==> !was.mode.Aborted?
        invariant |inserts| == |old(inserts)| + i
        invariant forall n :: |old(inserts)| <= n < |old(inserts)| + i ==> faults.inserts(n).None?
        invariant inserts == old(inserts) + seq(i, k requires 0 <= k < i => Insert(ids[k], true))
        invariant ClaimEach(base, ids[..i]).claims == claims
        invariant var rows := ClaimEach(base, ids[..i]).rows;
                  if was.mode.Dead? then tx.value == was && durable == old(durable).(rows := rows)
                  else durable == old(durable) && tx.value == was.(db := was.db.(rows := rows))
      {
        assert ids[..i + 1][..i] == ids[..i];
        var claim := InsertIfAbsent(ids[i]);
        if claim.Err? {
          calls := calls + [was.Issued(Op.ClaimMany(ids), Some(claim.error))];
          return Err(claim.error), done;
        }
        claims, done := claims + [claim.value], i + 1;
      }
      assert ids[..|ids|] == ids;
      ClaimEachMeaning(base, ids);
      if faults.miscounts(|calls|) && ids != [] { claims := claims[1..]; }
      calls := calls + [was.Issued(Op.ClaimMany(ids), BatchFailure(Ok(claims), |ids|))];
      return Ok(claims), done;
    }

    /** The batch claim of the SQL backends: one insert-if-absent, its returned ids mapped back in order. */
    method ClaimManyReturning(ids: seq<string>) returns (r: Result<seq<Claim>, StoreError>)
      requires tx.Some?
      modifies this
      ensures tx.Some?
      ensures calls == old(calls) + [old(tx.value).Issued(Op.ClaimMany(ids), r.Failure())]
      ensures r.Failure() == old(Verdict(Op.ClaimMany(ids)))
      ensures !old(tx.value.mode).Dead? ==> durable == old(durable)
      ensures r.Ok? && old(tx.value.mode).Open? ==>
                var was := old(tx.value);
                var claimed := ClaimEach(was.db.rows, ids);
                && tx.value == was.(db := was.db.(rows := claimed.rows))
                && (r.value == claimed.claims <==> NoUnrecordedRepeat(was.db.rows, ids))
    {
      var failure := Executes(Op.ClaimMany(ids));
      if failure.Some? { return Err(failure.value); }
      var base := if tx.value.mode.Dead? then durable.rows else tx.value.db.rows;
      var inserted := Absent(base, ids);
      var returned := InSomeOrder(inserted);
      BatchInsertIsOneByOne(base, ids, returned);
      if tx.value.mode.Dead? {
        durable := durable.(rows := base + inserted);
      } else {
        tx := Some(tx.value.(db := tx.value.db.(rows := base + inserted)));
      }
      return Ok(ClaimsFromFresh(ids, returned));
    }

    method Savepoint() returns (r: Result<(), StoreError>)
      requires tx.Some?
      modifies this
      ensures tx.Some? && durable == old(durable)
      ensures calls == old(calls) + [old(tx.value).Issued(Op.Savepoint, r.Failure())]
      ensures r.Failure() == old(Verdict(Op.Savepoint))
      ensures r.Ok? ==> old(tx.value.mode).Open? &&
                        tx.value == old(tx.value).(savepoints := old(tx.value.savepoints) + [old(tx.value.db)])
    {
      var failure := Executes(Op.Savepoint);
      if failure.Some? { return Err(failure.value); }
      tx := Some(tx.value.(savepoints := tx.value.savepoints + [tx.value.db]));
      return Ok(());
    }

    method ReleaseAndSavepoint() returns (r: Result<(), StoreError>)
      requires tx.Some?
      modifies this
      ensures tx.Some? && durable == old(durable)
      ensures calls == old(calls) + [old(tx.value).Issued(Op.ReleaseAndSavepoint, r.Failure())]
      ensures r.Failure() == old(Verdict(Op.ReleaseAndSavepoint))
      ensures r.Ok? ==>
                && old(tx.value.mode).Open? && old(tx.value.savepoints) != []
                && var open := old(tx.value.savepoints);
                tx.value == old(tx.value).(savepoints := open[..|open| - 1] + [old(tx.value.db)])
    {
      var failure := Executes(Op.ReleaseAndSavepoint);
      if failure.Some? { return Err(failure.value); }
      var open := tx.value.savepoints;
      tx := Some(tx.value.(savepoints := open[..|open| - 1] + [tx.value.db]));
      return Ok(());
    }

    method Release() returns (r: Result<(), StoreError>)
      requires tx.Some?
      modifies this
      ensures tx.Some? && durable == old(durable)
      ensures calls == old(calls) + [old(tx.value).Issued(Op.Release, r.Failure())]
      ensures r.Failure() == old(Verdict(Op.Release))
      ensures r.Ok? ==>
                && old(tx.value.mode).Open? && old(tx.value.savepoints) != []
                && var open := old(tx.value.savepoints);
                tx.value == old(tx.value).(savepoints := open[..|open| - 1])
    {
      var failure := Executes(Op.Release);
      if failure.Some? { return Err(failure.value); }
      var open := tx.value.savepoints;
      tx := Some(tx.value.(savepoints := open[..|open| - 1]));
      return Ok(());
    }

    /** Restores the savepoint's snapshot, leaving it open; this also revives an aborted transaction. */
    method RollbackTo() returns (r: Result<(), StoreError>)
      requires tx.Some?
      modifies this
      ensures tx.Some? && durable == old(durable)
      ensures calls == old(calls) + [old(tx.value).Issued(Op.RollbackTo, r.Failure())]
      ensures r.Failure() == old(Verdict(Op.RollbackTo))
      ensures r.Ok? ==>
                && !old(tx.value.mode).Dead? && old(tx.value.savepoints) != []
                && var open := old(tx.value.savepoints);
                tx.value == Tx(open[|open| - 1], open, Open)
    {
      var failure := Executes(Op.RollbackTo);
      if failure.Some? { return Err(failure.value); }
      var open := tx.value.savepoints;
      tx := Some(Tx(open[|open| - 1], open, Open));
      return Ok(());
    }

    /** Deletes the row whoever inserted it; on a dead transaction the delete commits by itself. */
    method Unclaim(id: string) returns (r: Result<(), StoreError>)
      requires tx.Some?
      modifies this
      ensures tx.Some?
      ensures calls == old(calls) + [old(tx.value).Issued(Op.Unclaim(id), r.Failure())]
      ensures r.Failure() == old(Verdict(Op.Unclaim(id)))
      ensures !old(tx.value.mode).Dead? || r.Err? ==> durable == old(durable)
      ensures r.Ok? && old(tx.value.mode).Dead? ==> durable == old(durable).(rows := old(durable).rows - {id})
      ensures r.Ok? && old(tx.value.mode).Open? ==>
                var was := old(tx.value);
                tx.value == was.(db := was.db.(rows := was.db.rows - {id}))
    {
      var failure := Executes(Op.Unclaim(id));
      if failure.Some? { return Err(failure.value); }
      if tx.value.mode.Dead? {
        durable := durable.(rows := durable.rows - {id});
      } else {
        tx := Some(tx.value.(db := tx.value.db.(rows := tx.value.db.rows - {id})));
      }
      return Ok(());
    }

    /** What a handler's own statements did through the connection it was handed. */
    method HandlerWrites(world: W, mode: Mode)
      requires tx.Some?
      modifies this`tx
      ensures tx == Some(old(tx.value).(db := old(tx.value.db).(world := world), mode := mode))
    {
      tx := Some(tx.value.(db := tx.value.db.(world := world), mode := mode));
    }

    /**
     Commits and closes. The reply may be lost after the commit took effect, and a transaction that is
     not open has nothing to commit, yet may say it did.
     */
    method Commit(fate: CommitFate) returns (r: Result<(), StoreError>)
      requires tx.Some?
      modifies this
      ensures tx == None
      ensures calls == old(calls) + [old(tx.value).Issued(Op.Commit, r.Failure())]
      ensures r.Ok? <==> fate.Acknowledged?
      ensures durable == if !fate.Refused? && old(tx.value.mode).Open? then old(tx.value.db) else old(durable)
    {
      if !fate.Refused? && tx.value.mode.Open? {
        durable := tx.value.db;
      }
      calls := calls + [tx.value.Issued(Op.Commit, if fate.Acknowledged? then None else Some(Backend))];
      tx := None;
      return if fate.Acknowledged? then Ok(()) else Err(Backend);
    }

    method Rollback() returns (r: Result<(), StoreError>)
      requires tx.Some?
      modifies this
      ensures tx == None && durable == old(durable)
      ensures calls == old(calls) + [old(tx.value).Issued(Op.Rollback, r.Failure())]
      ensures r.Failure() == old(Verdict(Op.Rollback))
    {
      var failure := Executes(Op.Rollback);
      tx := None;
      return if failure.Some? then Err(failure.value) else Ok(());
    }

    /** The transaction leaves scope: without a commit it rolls back, also when a future is cancelled. */
    method Drop()
      modifies this`tx
      ensures tx == None
    {
      tx := None;
    }
  }
}
