/**
 What `process` and `process_many` (src/consumer.rs) mean, as folds over the delivered ids, and the
 promises made about them. The methods in `Consumers` are proved to compute these folds.
 */
module Batches {
  import opened Results
  import opened Claims

  /**
   The database as one consumer sees it: the ids its inbox rows record, and everything else. A handler
   is framed to the second part: it neither reads nor writes this consumer's rows.
   */
  datatype Db<+W> = Db(rows: set<string>, world: W)

  /** Whether a transaction still works, only rolls back to a savepoint, or is gone. */
  datatype Mode = Open | Aborted | Dead

  /** What one handler call did. Its own state survives a rollback; a failure may have cost the transaction. */
  datatype Step<+H, +W, +T, +E> =
    | Done(state: H, world: W, value: T)
    | Failed(state: H, world: W, error: E, mode: Mode)

  type Handler<!H, !W, +T, +E> = (H, string, W) -> Step<H, W, T, E>

  datatype Outcome<+T> = Processed(value: T) | Duplicate

  datatype Failure<+E> = HandlerFailed(error: E) | EarlierDeliveryFailed(id: string)

  type ProcessResult<+T, +E> = Result<Outcome<T>, Failure<E>>

  /** One handler call: the id, the handler state it started from, and whether it succeeded. */
  datatype Attempt<+H> = Attempt(id: string, state: H, ok: bool)

  datatype Run<+H, +W, +T, +E> = Run(
    db: Db<W>, state: H, failed: set<string>, attempts: seq<Attempt<H>>, results: seq<ProcessResult<T, E>>)

  function Start<H, W, T, E>(db: Db<W>, state: H): Run<H, W, T, E> {
    Run(db, state, {}, [], [])
  }

  /** One `process` call that reaches its end. */
  function ProcessOne<H, W, T, E>(run: Run<H, W, T, E>, id: string, h: Handler<H, W, T, E>): Run<H, W, T, E> {
    if id in run.db.rows then
      run.(results := run.results + [Ok(Outcome.Duplicate)])
    else
      match h(run.state, id, run.db.world)
      case Done(state, world, value) =>
        run.(db := Db(run.db.rows + {id}, world), state := state,
             attempts := run.attempts + [Attempt(id, run.state, true)],
             results := run.results + [Ok(Processed(value))])
      case Failed(state, _, error, _) =>
        run.(state := state, failed := run.failed + {id},
             attempts := run.attempts + [Attempt(id, run.state, false)],
             results := run.results + [Err(HandlerFailed(error))])
  }

  /** Looping over `process`, one transaction per message. */
  function Loop<H, W, T, E>(db: Db<W>, state: H, ids: seq<string>, h: Handler<H, W, T, E>): Run<H, W, T, E> {
    if ids == [] then Start(db, state)
    else ProcessOne(Loop(db, state, ids[..|ids| - 1], h), ids[|ids| - 1], h)
  }

  /** The loop with ids that already failed skipped, reported as failed. */
  function ProcessNext<H, W, T, E>(run: Run<H, W, T, E>, id: string, h: Handler<H, W, T, E>): Run<H, W, T, E> {
    if id in run.failed then run.(results := run.results + [Err(EarlierDeliveryFailed(id))])
    else ProcessOne(run, id, h)
  }

  /** What `process_many` commits to when it returns `Ok`. */
  function ProcessEach<H, W, T, E>(db: Db<W>, state: H, ids: seq<string>, h: Handler<H, W, T, E>): Run<H, W, T, E> {
    if ids == [] then Start(db, state)
    else ProcessNext(ProcessEach(db, state, ids[..|ids| - 1], h), ids[|ids| - 1], h)
  }

  /** Every delivered id ends up recorded or failed, never both, and no recorded row is lost. */
  lemma {:induction false} EveryIdIsRecordedOrFailed<H, W, T, E>(
    db: Db<W>, state: H, ids: seq<string>, h: Handler<H, W, T, E>)
    ensures var run := ProcessEach(db, state, ids, h);
            && |run.results| == |ids|
            && db.rows <= run.db.rows
            && run.db.rows !! run.failed
            && run.failed !! db.rows
            && run.db.rows + run.failed == db.rows + set id | id in ids
  {
    if ids != [] {
      EveryIdIsRecordedOrFailed(db, state, ids[..|ids| - 1], h);
      assert ids == ids[..|ids| - 1] + [ids[|ids| - 1]];
    }
  }

  lemma {:induction false} ResultsExtend<H, W, T, E>(
    db: Db<W>, state: H, ids: seq<string>, h: Handler<H, W, T, E>, k: nat)
    requires k <= |ids|
    ensures ProcessEach(db, state, ids[..k], h).results <= ProcessEach(db, state, ids, h).results
    ensures ProcessEach(db, state, ids[..k], h).failed <= ProcessEach(db, state, ids, h).failed
    ensures ProcessEach(db, state, ids[..k], h).db.rows <= ProcessEach(db, state, ids, h).db.rows
  {
    if k < |ids| {
      assert ids[..|ids| - 1][..k] == ids[..k];
      ResultsExtend(db, state, ids[..|ids| - 1], h, k);
    } else {
      assert ids[..k] == ids;
    }
  }

  /** Ack safety: at every position, repeats included, the result is `Ok` exactly when the id is recorded. */
  lemma AckSafety<H, W, T, E>(db: Db<W>, state: H, ids: seq<string>, h: Handler<H, W, T, E>)
    ensures |ProcessEach(db, state, ids, h).results| == |ids|
    ensures forall i :: 0 <= i < |ids| ==>
                          (ProcessEach(db, state, ids, h).results[i].Ok? <==>
                           ids[i] in ProcessEach(db, state, ids, h).db.rows)
  {
    EveryIdIsRecordedOrFailed(db, state, ids, h);
    var run := ProcessEach(db, state, ids, h);
    forall i | 0 <= i < |ids|
      ensures run.results[i].Ok? <==> ids[i] in run.db.rows
    {
      ResultDecidedByRecord(db, state, ids, h, i);
    }
  }

  lemma ResultDecidedByRecord<H, W, T, E>(
    db: Db<W>, state: H, ids: seq<string>, h: Handler<H, W, T, E>, i: nat)
    requires i < |ids| == |ProcessEach(db, state, ids, h).results|
    ensures var run := ProcessEach(db, state, ids, h);
            && (run.results[i].Ok? <==> ids[i] in run.db.rows)
            && (run.results[i].Err? <==> ids[i] in run.failed)
  {
    var run := ProcessEach(db, state, ids, h);
    var before, after := ProcessEach(db, state, ids[..i], h), ProcessEach(db, state, ids[..i + 1], h);
    assert ids[..i + 1][..i] == ids[..i];
    EveryIdIsRecordedOrFailed(db, state, ids[..i], h);
    EveryIdIsRecordedOrFailed(db, state, ids, h);
    ResultsExtend(db, state, ids, h, i + 1);
    assert after == ProcessNext(before, ids[i], h);
    assert after.results[i] == run.results[i];
  }

  // -------------------------------------------------- the handler's calls

  /** The first occurrence of each id not yet recorded, in input order. */
  function Unprocessed(rows: set<string>, ids: seq<string>): seq<string> {
    if ids == [] then []
    else
      var n := |ids| - 1;
      Unprocessed(rows, ids[..n]) + (if ids[n] in rows || ids[n] in ids[..n] then [] else [ids[n]])
  }

  function AttemptedIds<H>(attempts: seq<Attempt<H>>): seq<string> {
    if attempts == [] then [] else AttemptedIds(attempts[..|attempts| - 1]) + [attempts[|attempts| - 1].id]
  }

  /** The handler runs once for every distinct, unprocessed id, in input order, whatever fails. */
  lemma {:induction false} HandlerRunsOncePerUnprocessedId<H, W, T, E>(
    db: Db<W>, state: H, ids: seq<string>, h: Handler<H, W, T, E>)
    ensures AttemptedIds(ProcessEach(db, state, ids, h).attempts) == Unprocessed(db.rows, ids)
  {
    if ids != [] {
      var n := |ids| - 1;
      HandlerRunsOncePerUnprocessedId(db, state, ids[..n], h);
      EveryIdIsRecordedOrFailed(db, state, ids[..n], h);
      var before, after := ProcessEach(db, state, ids[..n], h), ProcessEach(db, state, ids, h);
      assert ids[n] in before.db.rows + before.failed <==> ids[n] in db.rows || ids[n] in ids[..n];
      if |after.attempts| > |before.attempts| {
        assert after.attempts[..|after.attempts| - 1] == before.attempts;
      }
    }
  }

  /** The world left by applying only the successful calls, in the order they were made. */
  function ApplySuccesses<H, W, T, E>(world: W, attempts: seq<Attempt<H>>, h: Handler<H, W, T, E>): W {
    if attempts == [] then world
    else
      var last := attempts[|attempts| - 1];
      var before := ApplySuccesses(world, attempts[..|attempts| - 1], h);
      if last.ok then h(last.state, last.id, before).world else before
  }

  function StateAfter<H, W, T, E>(world: W, state: H, attempts: seq<Attempt<H>>, h: Handler<H, W, T, E>): H {
    if attempts == [] then state
    else
      var last := attempts[|attempts| - 1];
      h(last.state, last.id, ApplySuccesses(world, attempts[..|attempts| - 1], h)).state
  }

  /**
   Poison isolation, for any placement of failures: the committed world is the fold of the successful
   calls alone, while the handler's captured state went through every call, failed ones included.
   */
  lemma {:induction false} PoisonIsolation<H, W, T, E>(
    db: Db<W>, state: H, ids: seq<string>, h: Handler<H, W, T, E>)
    ensures var run := ProcessEach(db, state, ids, h);
            && run.db.world == ApplySuccesses(db.world, run.attempts, h)
            && run.state == StateAfter(db.world, state, run.attempts, h)
  {
    if ids != [] {
      var n := |ids| - 1;
      PoisonIsolation(db, state, ids[..n], h);
      var before, after := ProcessEach(db, state, ids[..n], h), ProcessEach(db, state, ids, h);
      if |after.attempts| > |before.attempts| {
        assert after.attempts[..|after.attempts| - 1] == before.attempts;
      }
    }
  }

  predicate NoneSucceeded<H>(attempts: seq<Attempt<H>>) {
    forall i :: 0 <= i < |attempts| ==> !attempts[i].ok
  }

  /** A batch leaves the database as it was exactly when no handler call succeeded, and else adds a row. */
  lemma {:induction false} ChangesIffSomethingSucceeds<H, W, T, E>(
    db: Db<W>, state: H, ids: seq<string>, h: Handler<H, W, T, E>)
    ensures var run := ProcessEach(db, state, ids, h);
            if NoneSucceeded(run.attempts) then run.db == db else run.db.rows != db.rows
  {
    if ids != [] {
      var n := |ids| - 1;
      ChangesIffSomethingSucceeds(db, state, ids[..n], h);
      EveryIdIsRecordedOrFailed(db, state, ids[..n], h);
      var before, after := ProcessEach(db, state, ids[..n], h), ProcessEach(db, state, ids, h);
      assert before.attempts <= after.attempts;
      assert before.db.rows <= after.db.rows;
      if |after.attempts| > |before.attempts| && after.attempts[|before.attempts|].ok {
        assert ids[n] in after.db.rows && ids[n] !in db.rows;
      } else {
        assert after.db == before.db;
      }
    }
  }

  /** The handler's effect depends on the message and the database, not on captured state. */
  ghost predicate Stateless<H(!new), W(!new), T, E>(h: Handler<H, W, T, E>) {
    forall s, s', id, w ::
      h(s, id, w).Done? == h(s', id, w).Done? && h(s, id, w).world == h(s', id, w).world
  }

  /** The deliveries that were not reported as failed. */
  function Survivors<T, E>(ids: seq<string>, results: seq<ProcessResult<T, E>>): seq<string>
    requires |ids| == |results|
  {
    if ids == [] then []
    else
      var n := |ids| - 1;
      Survivors(ids[..n], results[..n]) + (if results[n].Ok? then [ids[n]] else [])
  }

  /** A poison message costs only itself: the batch without the failed deliveries leaves the same database. */
  lemma {:induction false} PoisonsLeaveNoTrace<H(!new), W(!new), T, E>(
    db: Db<W>, state: H, ids: seq<string>, h: Handler<H, W, T, E>)
    requires Stateless(h)
    ensures |ProcessEach(db, state, ids, h).results| == |ids|
    ensures var run := ProcessEach(db, state, ids, h);
            var clean := ProcessEach(db, state, Survivors(ids, run.results), h);
            clean.db == run.db && clean.failed == {}
  {
    if ids != [] {
      var n := |ids| - 1;
      EveryIdIsRecordedOrFailed(db, state, ids[..n], h);
      var before, after := ProcessEach(db, state, ids[..n], h), ProcessEach(db, state, ids, h);
      assert after.results[..n] == before.results;
      PoisonsLeaveNoTrace(db, state, ids[..n], h);
      var kept := Survivors(ids[..n], before.results);
      if after.results[n].Ok? {
        assert (kept + [ids[n]])[..|kept + [ids[n]]| - 1] == kept;
      } else {
        assert Survivors(ids, after.results) == kept;
      }
    }
  }

  // ------------------------------------------------ against looping `process`

  /** Some delivery repeats an id that failed earlier in the batch. */
  ghost predicate RepeatsAFailure<T, E>(ids: seq<string>, results: seq<ProcessResult<T, E>>)
    requires |ids| == |results|
  {
    exists i, j :: 0 <= i < j < |ids| && ids[i] == ids[j] && results[i].Err?
  }

  lemma {:induction false} LoopReportsOnlyHandlerErrors<H, W, T, E>(
    db: Db<W>, state: H, ids: seq<string>, h: Handler<H, W, T, E>)
    ensures |Loop(db, state, ids, h).results| == |ids|
    ensures forall r :: r in Loop(db, state, ids, h).results && r.Err? ==> r.error.HandlerFailed?
  {
    if ids != [] { LoopReportsOnlyHandlerErrors(db, state, ids[..|ids| - 1], h); }
  }

  /** A repeat of a failed id is never acked and never re-run. */
  lemma RepeatOfFailureIsReported<H, W, T, E>(
    db: Db<W>, state: H, ids: seq<string>, h: Handler<H, W, T, E>, i: nat, j: nat)
    requires i < j < |ids| == |ProcessEach(db, state, ids, h).results|
    requires ids[i] == ids[j] && ProcessEach(db, state, ids, h).results[i].Err?
    ensures ProcessEach(db, state, ids, h).results[j] == Err(EarlierDeliveryFailed(ids[j]))
  {
    var run := ProcessEach(db, state, ids, h);
    var before, after := ProcessEach(db, state, ids[..j], h), ProcessEach(db, state, ids[..j + 1], h);
    assert ids[..j + 1][..j] == ids[..j];
    EveryIdIsRecordedOrFailed(db, state, ids[..j], h);
    ResultsExtend(db, state, ids, h, j);
    ResultsExtend(db, state, ids, h, j + 1);
    assert before.results[i] == run.results[i];
    ResultDecidedByRecord(db, state, ids[..j], h, i);
    assert after.results[j] == run.results[j];
  }

  /**
   `process_many` is the loop over `process` (results, calls, handler state, rows and world alike)
   exactly when no delivery repeats an id that failed earlier in the batch; distinct ids never do.
   */
  lemma ProcessManyIsTheLoop<H, W, T, E>(db: Db<W>, state: H, ids: seq<string>, h: Handler<H, W, T, E>)
    ensures |ProcessEach(db, state, ids, h).results| == |ids|
    ensures ProcessEach(db, state, ids, h) == Loop(db, state, ids, h) <==>
            !RepeatsAFailure(ids, ProcessEach(db, state, ids, h).results)
    ensures (forall i, j :: 0 <= i < j < |ids| ==> ids[i] != ids[j]) ==>
              ProcessEach(db, state, ids, h) == Loop(db, state, ids, h)
  {
    EveryIdIsRecordedOrFailed(db, state, ids, h);
    var results := ProcessEach(db, state, ids, h).results;
    if RepeatsAFailure(ids, results) {
      var i, j :| 0 <= i < j < |ids| && ids[i] == ids[j] && results[i].Err?;
      RepeatOfFailureIsReported(db, state, ids, h, i, j);
      LoopReportsOnlyHandlerErrors(db, state, ids, h);
      assert results[j] in results;
    } else {
      WithoutRepeatsItIsTheLoop(db, state, ids, h);
    }
  }

  lemma {:induction false} WithoutRepeatsItIsTheLoop<H, W, T, E>(
    db: Db<W>, state: H, ids: seq<string>, h: Handler<H, W, T, E>)
    requires |ProcessEach(db, state, ids, h).results| == |ids|
    requires !RepeatsAFailure(ids, ProcessEach(db, state, ids, h).results)
    ensures ProcessEach(db, state, ids, h) == Loop(db, state, ids, h)
  {
    if ids != [] {
      var n := |ids| - 1;
      EveryIdIsRecordedOrFailed(db, state, ids[..n], h);
      var before, after := ProcessEach(db, state, ids[..n], h), ProcessEach(db, state, ids, h);
      assert after.results[..n] == before.results;
      WithoutRepeatsItIsTheLoop(db, state, ids[..n], h);
      if ids[n] in before.failed {
        assert ids[n] in ids[..n];
        var i :| 0 <= i < n && ids[..n][i] == ids[n];
        ResultDecidedByRecord(db, state, ids[..n], h, i);
        assert false;
      }
    }
  }

  /**
   What a caller can check beforehand: `process_many` is the loop over `process` for every handler exactly
   when no id the inbox does not hold is delivered twice.
   */
  lemma LoopForEveryHandler<H(!new), W(!new), T(!new), E(!new)>(db: Db<W>, state: H, ids: seq<string>, e: E)
    ensures (forall h: Handler<H, W, T, E> :: ProcessEach(db, state, ids, h) == Loop(db, state, ids, h))
            <==> NoUnrecordedRepeat(db.rows, ids)
  {
    if NoUnrecordedRepeat(db.rows, ids) {
      forall h: Handler<H, W, T, E>
        ensures ProcessEach(db, state, ids, h) == Loop(db, state, ids, h)
      {
        ProcessManyIsTheLoop(db, state, ids, h);
        EveryIdIsRecordedOrFailed(db, state, ids, h);
        forall i | 0 <= i < |ids| && ids[i] in db.rows
          ensures ProcessEach(db, state, ids, h).results[i].Ok?
        {
          ResultDecidedByRecord(db, state, ids, h, i);
        }
      }
    } else {
      var i, j :| 0 <= i < j < |ids| && ids[i] == ids[j] && ids[i] !in db.rows;
      var h: Handler<H, W, T, E> := (s, id, w) => Failed(s, w, e, Open);
      ProcessManyIsTheLoop(db, state, ids, h);
      NothingSucceeds(db, state, ids, h);
      EveryIdIsRecordedOrFailed(db, state, ids, h);
      ResultDecidedByRecord(db, state, ids, h, i);
    }
  }

  lemma {:induction false} NothingSucceeds<H(!new), W(!new), T, E>(
    db: Db<W>, state: H, ids: seq<string>, h: Handler<H, W, T, E>)
    requires forall s, id, w :: h(s, id, w).Failed?
    ensures ProcessEach(db, state, ids, h).db == db
  {
    if ids != [] {
      var n := |ids| - 1;
      NothingSucceeds(db, state, ids[..n], h);
      var before := ProcessEach(db, state, ids[..n], h);
      assert h(before.state, ids[n], before.db.world).Failed?;
    }
  }
}
