/** `Consumer` (src/consumer.rs): the claim, single-message and batch drivers over one store. */
module Consumers {
  import opened Results
  import opened Ids
  import opened Claims
  import opened Batches
  import opened Stores

  datatype InboxError<+E> = FromStore(cause: StoreError) | FromHandler(error: E)

  // ------------------------------------------------------------ claim_many

  function Insert(id: string, sorted: seq<string>): seq<string> {
    if sorted == [] then [id]
    else if IdLess(sorted[0], id) then [sorted[0]] + Insert(id, sorted[1..])
    else [id] + sorted
  }

  /** `sort_unstable_by` on `as_str`. */
  function Sort(ids: seq<string>): seq<string> {
    if ids == [] then [] else Insert(ids[0], Sort(ids[1..]))
  }

  ghost predicate Sorted(ids: seq<string>) {
    forall i, j :: 0 <= i < j < |ids| ==> !IdLess(ids[j], ids[i])
  }

  lemma PrependKeepsSorted(id: string, rest: seq<string>)
    requires Sorted(rest) && forall x :: x in rest ==> !IdLess(x, id)
    ensures Sorted([id] + rest)
  {
    var all := [id] + rest;
    forall i, j | 0 <= i < j < |all|
      ensures !IdLess(all[j], all[i])
    {
      assert all[j] == rest[j - 1] && all[j] in rest;
    }
  }

  lemma {:induction false} InsertInserts(id: string, sorted: seq<string>)
    ensures multiset(Insert(id, sorted)) == multiset(sorted) + multiset{id}
    ensures forall x :: x in Insert(id, sorted) <==> x == id || x in sorted
  {
    if sorted != [] && IdLess(sorted[0], id) {
      InsertInserts(id, sorted[1..]);
      assert sorted == [sorted[0]] + sorted[1..];
    }
  }

  lemma {:induction false} InsertKeepsSorted(id: string, sorted: seq<string>)
    requires Sorted(sorted)
    ensures Sorted(Insert(id, sorted))
  {
    if sorted == [] {
      return;
    }
    var first, rest := sorted[0], sorted[1..];
    assert forall x :: x in rest ==> !IdLess(x, first);
    if IdLess(first, id) {
      InsertKeepsSorted(id, rest);
      InsertInserts(id, rest);
      IdLessStrict(first, id, id);
      PrependKeepsSorted(first, Insert(id, rest));
    } else {
      forall x | x in sorted
        ensures !IdLess(x, id)
      {
        IdLessTotal(first, x);
        IdLessStrict(first, x, id);
      }
      PrependKeepsSorted(id, sorted);
    }
  }

  lemma {:induction false} SortSorts(ids: seq<string>)
    ensures Sorted(Sort(ids))
    ensures multiset(Sort(ids)) == multiset(ids)
    ensures forall x :: x in Sort(ids) <==> x in ids
  {
    if ids != [] {
      SortSorts(ids[1..]);
      InsertKeepsSorted(ids[0], Sort(ids[1..]));
      InsertInserts(ids[0], Sort(ids[1..]));
      assert ids == [ids[0]] + ids[1..];
    }
  }

  lemma AppendKeepsIncreasing(ids: seq<string>, id: string)
    requires StrictlyIncreasing(ids) && (ids != [] ==> IdLess(ids[|ids| - 1], id))
    ensures StrictlyIncreasing(ids + [id])
  {
    forall k | 0 <= k < |ids|
      ensures IdLess(ids[k], id)
    {
      IdLessStrict(ids[k], ids[|ids| - 1], id);
    }
  }

  /** `Vec::dedup`: keeps the first of each run of equal neighbours. */
  method Dedup(sorted: seq<string>) returns (unique: seq<string>)
    requires Sorted(sorted)
    ensures StrictlyIncreasing(unique)
    ensures forall id :: id in unique <==> id in sorted
  {
    unique := [];
    for i := 0 to |sorted|
      invariant StrictlyIncreasing(unique)
      invariant forall id :: id in unique <==> id in sorted[..i]
      invariant if i == 0 then unique == [] else unique != [] && unique[|unique| - 1] == sorted[i - 1]
    {
      assert sorted[..i + 1] == sorted[..i] + [sorted[i]];
      if i == 0 || unique[|unique| - 1] != sorted[i] {
        if i > 0 {
          assert !IdLess(sorted[i], sorted[i - 1]);
          IdLessTotal(sorted[i - 1], sorted[i]);
        }
        AppendKeepsIncreasing(unique, sorted[i]);
        unique := unique + [sorted[i]];
      }
    }
    assert sorted[..|sorted|] == sorted;
  }

  lemma IncreasingIsUnique(ids: seq<string>)
    requires StrictlyIncreasing(ids)
    ensures forall i, j :: 0 <= i < j < |ids| ==> ids[i] != ids[j]
  {
    forall i, j | 0 <= i < j < |ids|
      ensures ids[i] != ids[j]
    {
      IdLessStrict(ids[i], ids[j], ids[j]);
    }
  }

  /** On unique ids every claim is decided by the rows alone. */
  lemma UniqueClaims(rows: set<string>, unique: seq<string>)
    requires StrictlyIncreasing(unique)
    ensures |ClaimEach(rows, unique).claims| == |unique|
    ensures forall i :: 0 <= i < |unique| ==> ClaimEach(rows, unique).claims[i] == Answer(rows, unique[i])
  {
    ClaimEachMeaning(rows, unique);
    IncreasingIsUnique(unique);
    forall i | 0 <= i < |unique|
      ensures ClaimEach(rows, unique).claims[i] == Answer(rows, unique[i])
    {
      assert FirstUnrecorded(rows, unique, i) <==> unique[i] !in rows;
    }
  }

  /** Collects the backend's answers by id. */
  method AnswersById(unique: seq<string>, claims: seq<Claim>) returns (answers: map<string, Claim>)
    requires StrictlyIncreasing(unique) && |claims| == |unique|
    ensures forall id :: id in answers <==> id in unique
    ensures forall k :: 0 <= k < |unique| ==> unique[k] in answers && answers[unique[k]] == claims[k]
  {
    IncreasingIsUnique(unique);
    answers := map[];
    for i := 0 to |unique|
      invariant forall id :: id in answers <==> id in unique[..i]
      invariant forall k :: 0 <= k < i ==> unique[k] in answers && answers[unique[k]] == claims[k]
    {
      assert unique[..i + 1] == unique[..i] + [unique[i]];
      answers := answers[unique[i] := claims[i]];
    }
    assert unique[..|unique|] == unique;
  }

  /** Answers every delivery from the map, leaving `Duplicate` behind for its repeats. */
  method Expand<K(==)>(ids: seq<K>, given: map<K, Claim>) returns (claims: seq<Claim>)
    requires forall id :: id in given <==> id in ids
    ensures |claims| == |ids|
    ensures forall k {:trigger claims[k]} :: 0 <= k < |ids| ==>
                          claims[k] == if ids[k] in ids[..k] then Claim.Duplicate else given[ids[k]]
  {
    var answers := given;
    claims := [];
    for i := 0 to |ids|
      invariant |claims| == i
      invariant answers.Keys == given.Keys
      invariant forall id :: id in given ==> answers[id] == if id in ids[..i] then Claim.Duplicate else given[id]
      invariant forall k {:trigger claims[k]} :: 0 <= k < i ==>
                              claims[k] == if ids[k] in ids[..k] then Claim.Duplicate else given[ids[k]]
    {
      assert ids[i] in answers;
      assert ids[..i + 1] == ids[..i] + [ids[i]];
      claims := claims + [answers[ids[i]]];
      answers := answers[ids[i] := Claim.Duplicate];
    }
  }

  /** Answers by id, re-expanded, are the answers of claiming each delivery in turn. */
  lemma ExpansionIsOneByOne(
    rows: set<string>, ids: seq<string>, unique: seq<string>, given: map<string, Claim>, claims: seq<Claim>)
    requires StrictlyIncreasing(unique) && forall id :: id in unique <==> id in ids
    requires |ClaimEach(rows, unique).claims| == |unique|
    requires forall k :: 0 <= k < |unique| ==>
                           unique[k] in given && given[unique[k]] == ClaimEach(rows, unique).claims[k]
    requires |claims| == |ids|
    requires forall k :: 0 <= k < |ids| ==>
                           ids[k] in given && claims[k] == if ids[k] in ids[..k] then Claim.Duplicate else given[ids[k]]
    ensures claims == ClaimEach(rows, ids).claims
    ensures ClaimEach(rows, unique).rows == ClaimEach(rows, ids).rows
  {
    UniqueClaims(rows, unique);
    ClaimEachMeaning(rows, ids);
    ClaimEachMeaning(rows, unique);
    forall k | 0 <= k < |ids|
      ensures claims[k] == ClaimEach(rows, ids).claims[k]
    {
      assert ids[k] in unique;
      var j :| 0 <= j < |unique| && unique[j] == ids[k];
      assert given[ids[k]] == Answer(rows, ids[k]);
      assert claims[k] == Fresh <==> FirstUnrecorded(rows, ids, k);
    }
  }

  /**
   One backend call went out, for the same ids, strictly increasing in byte order; the caller gets its
   claims exactly if the backend executed it and answered one for one, and else the call's own error.
   */
  ghost predicate SentOneBatch<W>(
    before: seq<Call>, was: Tx<W>, ids: seq<string>, after: seq<Call>, failure: Option<StoreError>)
  {
    && |after| == |before| + 1 && before == after[..|before|]
    && var call := after[|before|];
    && call.op.ClaimMany? && call == was.Issued(call.op, failure)
    && StrictlyIncreasing(call.op.ids) && forall id :: id in call.op.ids <==> id in ids
  }

  /**
   Sort, dedup, one backend call, re-expansion through a map overwritten in place. On an open
   transaction this is claiming each id in turn, repeats and all; the map lookup never misses.
   */
  method ClaimMany<W>(store: Store<W>, ids: seq<string>) returns (r: Result<seq<Claim>, StoreError>)
    requires store.tx.Some?
    modifies store
    ensures store.tx.Some?
    ensures !old(store.tx.value.mode).Dead? ==> store.durable == old(store.durable)
    ensures ids == [] ==> r == Ok([]) && unchanged(store)
    ensures ids != [] ==> SentOneBatch(old(store.calls), old(store.tx.value), ids, store.calls, r.Failure())
    ensures store.Faultless() && old(store.tx.value.mode).Open? ==> r.Ok?
    ensures r.Ok? && old(store.tx.value.mode).Open? ==>
              var was := old(store.tx.value);
              var claimed := ClaimEach(was.db.rows, ids);
              r.value == claimed.claims && store.tx.value == was.(db := was.db.(rows := claimed.rows))
  {
    if ids == [] {
      return Ok([]);
    }
    SortSorts(ids);
    var unique := Dedup(Sort(ids));
    ghost var was := store.tx.value;
    var answered, _ := store.ClaimMany(unique);
    assert unique[..|unique|] == unique;
    var claims :- answered;
    if |claims| != |unique| {
      return Err(Backend);
    }
    var answers := AnswersById(unique, claims);
    var expanded := Expand(ids, answers);
    if was.mode.Open? {
      ExpansionIsOneByOne(was.db.rows, ids, unique, answers, expanded);
    }
    return Ok(expanded);
  }

  // --------------------------------------------------------------- process

  /** The body of `process`; the transaction it leaves behind, if any, is dropped by `Process`. */
  method ProcessBody<H, W, T, E>(
    store: Store<W>, id: string, h: Handler<H, W, T, E>, start: H, fate: CommitFate)
    returns (r: Result<Outcome<T>, InboxError<E>>, state: H)
    requires store.tx.None?
    modifies store
    ensures ProcessPost(
              old(store.durable), old(store.calls), store.durable, store.calls, id, h, start, fate, r, state)
    ensures store.Faultless() && fate.Acknowledged? ==> r.Ok? || r.error.FromHandler?
  {
    state := start;
    ghost var db := store.durable;
    var begun := store.Begin();
    if begun.Err? { return Err(FromStore(begun.error)), state; }
    var claim := store.ClaimOne(id);
    if claim.Err? { return Err(FromStore(claim.error)), state; }
    if claim.value == Claim.Duplicate {
      var undone := store.Rollback();
      if undone.Err? { return Err(FromStore(undone.error)), state; }
      return Ok(Outcome.Duplicate), state;
    }
    r, state := HandleAndClose(store, id, h, start, fate);
  }

  /** The handler of a fresh message, then the commit it earns or the rollback. */
  method HandleAndClose<H, W, T, E>(
    store: Store<W>, id: string, h: Handler<H, W, T, E>, start: H, fate: CommitFate)
    returns (r: Result<Outcome<T>, InboxError<E>>, state: H)
    requires store.tx.Some? && store.tx.value.mode.Open?
    modifies store
    ensures old(store.calls) < store.calls && |store.calls| == |old(store.calls)| + 1
    ensures var step, last := h(start, id, old(store.tx.value.db.world)), store.calls[|store.calls| - 1];
            && state == step.state
            && match step
               case Done(_, world, value) =>
                 && last.op == Commit && last.mode == Open && last.ok == fate.Acknowledged?
                 && store.durable ==
                    (if fate.Refused? then old(store.durable) else old(store.tx.value.db).(world := world))
                 && (if fate.Acknowledged? then r == Ok(Processed(value))
                     else last.failure.Some? && r == Err(FromStore(last.failure.value)))
               case Failed(_, _, error, _) =>
                 last.op == Rollback && store.durable == old(store.durable) && r == Err(FromHandler(error))
  {
    var step := h(start, id, store.tx.value.db.world);
    state := step.state;
    if step.Done? {
      store.HandlerWrites(step.world, Open);
      var committed := store.Commit(fate);
      if committed.Err? { return Err(FromStore(committed.error)), state; }
      return Ok(Processed(step.value)), state;
    } else {
      store.HandlerWrites(step.world, step.mode);
      var _ := store.Rollback();
      return Err(FromHandler(step.error)), state;
    }
  }

  /** The last statement sent was a commit. */
  ghost predicate EndsInCommit(calls: seq<Call>) {
    calls != [] && calls[|calls| - 1].op == Commit
  }

  /**
   Every reply `process` can give, and what it says about the database: it changes exactly when a commit
   went out and took effect, and then as the fold does.
   */
  ghost predicate ProcessPost<H, W, T, E>(
    db: Db<W>, calls: seq<Call>, db': Db<W>, calls': seq<Call>, id: string, h: Handler<H, W, T, E>, start: H,
    fate: CommitFate, r: Result<Outcome<T>, InboxError<E>>, state: H)
  {
    var run := ProcessOne(Start(db, start), id, h);
    && calls < calls'
    && ProcessTrace(calls', |calls|, id)
    && db' == (if EndsInCommit(calls') && !fate.Refused? then run.db else db)
    && match r
       case Ok(outcome) =>
         && db' == run.db && state == run.state && run.results == [Ok(outcome)]
         && Closed(calls', |calls|, if outcome.Processed? then Commit else Rollback) && calls'[|calls'| - 1].ok
       case Err(FromHandler(e)) =>
         && db' == db && state == run.state && run.results == [Err(HandlerFailed(e))]
         && Closed(calls', |calls|, Rollback)
       case Err(FromStore(cause)) => calls'[|calls'| - 1].failure == Some(cause)
  }

  /** The transaction was begun, claimed in, and closed by `op`. */
  ghost predicate Closed(calls: seq<Call>, from: nat, op: Op) {
    |calls| == from + 3 && calls[from + 2].op == op
  }

  /** `process` sends at most begin, claim and one closing statement, stopping at the first failure. */
  ghost predicate ProcessTrace(calls: seq<Call>, from: nat, id: string) {
    && |calls| <= from + 3
    && (|calls| > from ==> calls[from].op == Begin)
    && (|calls| > from + 1 ==> calls[from].ok && calls[from + 1].op == ClaimOne(id))
    && (|calls| > from + 2 ==>
          && calls[from + 1].ok && calls[from + 2].op in {Commit, Rollback}
          && (calls[from + 2].op == Commit ==> calls[from + 2].mode == Open))
  }

  method Process<H, W, T, E>(store: Store<W>, id: string, h: Handler<H, W, T, E>, start: H, fate: CommitFate)
    returns (r: Result<Outcome<T>, InboxError<E>>, state: H)
    requires store.tx.None?
    modifies store
    ensures store.tx.None?
    ensures ProcessPost(
              old(store.durable), old(store.calls), store.durable, store.calls, id, h, start, fate, r, state)
    ensures store.Faultless() && fate.Acknowledged? ==> r.Ok? || r.error.FromHandler?
  {
    r, state := ProcessBody(store, id, h, start, fate);
    store.Drop();
  }

  // ---------------------------------------------------------- process_many

  function CountFresh(claims: seq<Claim>): nat {
    if claims == [] then 0 else (if claims[0] == Fresh then 1 else 0) + CountFresh(claims[1..])
  }

  /**
   How each statement of a batch finds the transaction: the savepoint opens once and is open for every
   release and rollback-to, none is open at commit, and a claim is withdrawn only if `rows`, the rows
   recorded before the batch, does not hold it.
   */
  ghost predicate Proper(call: Call, rows: set<string>) {
    match call.op
    case Begin => true
    case ClaimMany(ids) => StrictlyIncreasing(ids) && call.mode == Open && call.depth == 0
    case Savepoint => call.mode == Open && call.depth == 0
    case ReleaseAndSavepoint | Release => call.mode == Open && call.depth == 1
    case RollbackTo => call.depth == 1
    case Unclaim(id) => call.mode == Open && call.depth == 1 && id !in rows
    case Commit => call.mode == Open && call.depth == 0
    case ClaimOne(_) | Rollback => false
  }

  /** Every statement is proper and only the last may be a commit or have failed: the driver stops there. */
  ghost predicate FailStop(calls: seq<Call>, from: nat, rows: set<string>) {
    forall i :: from <= i < |calls| ==>
                  Proper(calls[i], rows) && (i < |calls| - 1 ==> calls[i].ok && calls[i].op != Commit)
  }

  ghost predicate AllWell(calls: seq<Call>, from: nat, rows: set<string>) {
    forall i :: from <= i < |calls| ==> Proper(calls[i], rows) && calls[i].ok && calls[i].op != Commit
  }

  /** A handler that fails leaves the transaction alive, if perhaps aborted. */
  ghost predicate Gentle<H(!new), W(!new), T, E>(h: Handler<H, W, T, E>) {
    forall s, id, w :: h(s, id, w).Failed? ==> !h(s, id, w).mode.Dead?
  }

  /** The last statement sent failed with this error, and it was no commit. */
  ghost predicate StoppedShort(calls: seq<Call>, from: nat, error: StoreError) {
    |calls| > from && calls[|calls| - 1].failure == Some(error) && calls[|calls| - 1].op != Commit
  }

  ghost predicate AllOk(calls: seq<Call>, from: nat) {
    forall i :: from <= i < |calls| ==> calls[i].ok
  }

  /**
   The database changes exactly when the commit went out and took effect, and then to the fold's. A batch
   whose every statement the backend executed is committed and answered; the outer `Err` comes only from a
   statement that failed, which is the last.
   */
  ghost predicate ProcessManyPost<H, W, T, E>(
    db: Db<W>, calls: seq<Call>, db': Db<W>, calls': seq<Call>, ids: seq<string>, h: Handler<H, W, T, E>, start: H,
    fate: CommitFate, r: Result<seq<ProcessResult<T, E>>, StoreError>, state: H)
  {
    var run := ProcessEach(db, start, ids, h);
    var committing := |calls'| > |calls| && EndsInCommit(calls');
    && calls <= calls'
    && FailStop(calls', |calls|, db.rows)
    && (ids == [] <==> calls' == calls)
    && (ids != [] ==> calls'[|calls'| - 1].failure == r.Failure())
    && (r.Ok? <==> ids == [] || (committing && fate.Acknowledged?))
    && db' == (if committing && !fate.Refused? then run.db else db)
    && (r.Ok? ==> r.value == run.results)
    && (r.Ok? || committing ==> state == run.state)
  }

  /** One fresh message: its handler inside the open savepoint, its undoing if it fails, the savepoint moved on. */
  method HandleFresh<H, W, T, E>(
    store: Store<W>, id: string, h: Handler<H, W, T, E>, start: H, more: bool, ghost rows: set<string>)
    returns (r: Result<ProcessResult<T, E>, StoreError>, state: H)
    requires store.tx.Some? && store.tx.value.mode.Open?
    requires store.tx.value.savepoints == [store.tx.value.db] && id !in rows
    modifies store
    ensures store.tx.Some? && store.durable == old(store.durable)
    ensures old(store.calls) < store.calls
    ensures FailStop(store.calls, |old(store.calls)|, rows)
    ensures var last := store.calls[|store.calls| - 1]; last.op != Commit && last.failure == r.Failure()
    ensures var step := h(start, id, old(store.tx.value.db.world));
            && state == step.state
            && (store.Faultless() && (step.Failed? ==> !step.mode.Dead?) ==> r.Ok?)
            && (r.Ok? ==> HandledFresh(old(store.tx.value), id, step, more, store.tx.value, r.value))
  {
    var step := h(start, id, store.tx.value.db.world);
    state := step.state;
    var result;
    if step.Done? {
      store.HandlerWrites(step.world, Open);
      result := Ok(Processed(step.value));
    } else {
      store.HandlerWrites(step.world, step.mode);
      var _ :- store.RollbackTo();
      var _ :- store.Unclaim(id);
      result := Err(HandlerFailed(step.error));
    }
    if more {
      var _ :- store.ReleaseAndSavepoint();
    } else {
      var _ :- store.Release();
    }
    return Ok(result), state;
  }

  /** The transaction after one message: its effects kept, or its effects and its claim gone. */
  ghost predicate HandledFresh<H, W, T, E>(
    was: Tx<W>, id: string, step: Step<H, W, T, E>, more: bool, now: Tx<W>, result: ProcessResult<T, E>)
  {
    && now.mode.Open?
    && now.savepoints == (if more then [now.db] else [])
    && match step
       case Done(_, world, value) => now.db == Db(was.db.rows, world) && result == Ok(Processed(value))
       case Failed(_, _, error, _) =>
         now.db == Db(was.db.rows - {id}, was.db.world) && result == Err(HandlerFailed(error))
  }

  /** The transaction between messages: what the fold recorded, plus the claims still ahead. */
  ghost predicate BetweenMessages<H, W, T, E>(tx: Tx<W>, run: Run<H, W, T, E>, ids: set<string>, pending: nat) {
    && tx.mode.Open?
    && tx.savepoints == (if pending > 0 then [tx.db] else [])
    && tx.db == Db(run.db.rows + ids - run.failed, run.db.world)
  }

  /** Handling the next fresh id is the next step of the fold. */
  lemma FreshStep<H, W, T, E>(
    was: Tx<W>, now: Tx<W>, run: Run<H, W, T, E>, ids: set<string>, pending: nat,
    id: string, h: Handler<H, W, T, E>, result: ProcessResult<T, E>)
    requires pending > 0 && BetweenMessages(was, run, ids, pending)
    requires id in ids && id !in run.db.rows && id !in run.failed
    requires HandledFresh(was, id, h(run.state, id, run.db.world), pending > 1, now, result)
    ensures var next := ProcessNext(run, id, h);
            && next.results == run.results + [result]
            && next.failed == run.failed + (if result.Ok? then {} else {id})
            && next.state == h(run.state, id, run.db.world).state
            && (run.db.rows !! run.failed ==> BetweenMessages(now, next, ids, pending - 1))
  {
    var next := ProcessNext(run, id, h);
    if run.db.rows !! run.failed {
      if h(run.state, id, run.db.world).Done? {
        assert run.db.rows + ids - run.failed == next.db.rows + ids - next.failed;
      } else {
        assert run.db.rows + ids - run.failed - {id} == next.db.rows + ids - next.failed;
      }
    }
  }

  lemma CallsChain(calls: seq<Call>, calls': seq<Call>, from: nat, rows: set<string>)
    requires from <= |calls| && calls <= calls'
    requires AllWell(calls, from, rows) && FailStop(calls', |calls|, rows)
    ensures FailStop(calls', from, rows)
    ensures AllWell(calls', |calls|, rows) ==> AllWell(calls', from, rows)
  {
    forall i | from <= i < |calls|
      ensures Proper(calls'[i], rows) && calls'[i].ok && calls'[i].op != Commit
    {
      assert calls'[i] == calls[i];
    }
  }

  /** One delivery of the loop: skipped, reported as failed, or handled. */
  method RunOne<H(!new), W(!new), T, E>(
    store: Store<W>, id: string, claim: Claim, failed: set<string>, h: Handler<H, W, T, E>, start: H, ahead: nat,
    ghost run: Run<H, W, T, E>, ghost all: set<string>, ghost rows: set<string>)
    returns (r: Result<ProcessResult<T, E>, StoreError>, state: H, pending: nat)
    requires store.tx.Some? && BetweenMessages(store.tx.value, run, all, ahead)
    requires failed == run.failed && start == run.state && run.db.rows !! run.failed && rows <= run.db.rows
    requires claim == Fresh <==> id !in run.db.rows && id !in run.failed
    requires claim == Fresh ==> ahead > 0 && id in all
    modifies store
    ensures store.tx.Some? && store.durable == old(store.durable)
    ensures old(store.calls) <= store.calls && FailStop(store.calls, |old(store.calls)|, rows)
    ensures r.Err? ==> StoppedShort(store.calls, |old(store.calls)|, r.error)
    ensures pending == ahead - (if claim == Fresh then 1 else 0)
    ensures r.Ok? ==> AllWell(store.calls, |old(store.calls)|, rows)
    ensures store.Faultless() && Gentle(h) ==> r.Ok?
    ensures r.Ok? ==> var next := ProcessNext(run, id, h);
                      && BetweenMessages(store.tx.value, next, all, pending)
                      && next.results == run.results + [r.value] && next.state == state
                      && next.failed == failed + (if r.value.Ok? then {} else {id})
  {
    state, pending := start, ahead;
    if claim == Claim.Duplicate {
      return Ok(if id in failed then Err(EarlierDeliveryFailed(id)) else Ok(Outcome.Duplicate)), state, pending;
    }
    pending := pending - 1;
    ghost var was := store.tx.value;
    r, state := HandleFresh(store, id, h, state, pending > 0, rows);
    if r.Ok? {
      FreshStep(was, store.tx.value, run, all, ahead, id, h, r.value);
    }
  }

  lemma CountFreshStep(claims: seq<Claim>, i: nat)
    requires i < |claims|
    ensures CountFresh(claims[i..]) == CountFresh(claims[i + 1..]) + (if claims[i] == Fresh then 1 else 0)
  {
    assert claims[i..][1..] == claims[i + 1..];
  }

  /** The claim made up front for delivery `i` says whether the fold is still to handle it. */
  lemma ClaimDecidesStep<H, W, T, E>(db: Db<W>, start: H, ids: seq<string>, h: Handler<H, W, T, E>, i: nat)
    requires i < |ids|
    ensures |ClaimEach(db.rows, ids).claims| == |ids|
    ensures var run := ProcessEach(db, start, ids[..i], h);
            && run.db.rows !! run.failed && db.rows <= run.db.rows
            && (ClaimEach(db.rows, ids).claims[i] == Fresh <==> ids[i] !in run.db.rows && ids[i] !in run.failed)
            && ProcessEach(db, start, ids[..i + 1], h) == ProcessNext(run, ids[i], h)
  {
    ClaimEachMeaning(db.rows, ids);
    EveryIdIsRecordedOrFailed(db, start, ids[..i], h);
    assert ids[..i + 1][..i] == ids[..i];
    var run := ProcessEach(db, start, ids[..i], h);
    assert ids[i] in run.db.rows + run.failed <==> !FirstUnrecorded(db.rows, ids, i);
  }

  /** The loop over the claimed deliveries: `pending` counts the fresh claims still ahead. */
  method RunMessages<H(!new), W(!new), T, E>(
    store: Store<W>, ids: seq<string>, claims: seq<Claim>, ahead: nat, h: Handler<H, W, T, E>, start: H,
    ghost db: Db<W>)
    returns (r: Result<seq<ProcessResult<T, E>>, StoreError>, state: H)
    requires store.tx.Some?
    requires claims == ClaimEach(db.rows, ids).claims && |claims| == |ids| && ahead == CountFresh(claims)
    requires BetweenMessages(store.tx.value, Start<H, W, T, E>(db, start), (set id | id in ids), ahead)
    modifies store
    ensures store.tx.Some? && store.durable == old(store.durable)
    ensures old(store.calls) <= store.calls && FailStop(store.calls, |old(store.calls)|, db.rows)
    ensures r.Err? ==> StoppedShort(store.calls, |old(store.calls)|, r.error)
    ensures r.Ok? ==> AllWell(store.calls, |old(store.calls)|, db.rows)
    ensures store.Faultless() && Gentle(h) ==> r.Ok?
    ensures r.Ok? ==> var run := ProcessEach(db, start, ids, h);
                      && BetweenMessages(store.tx.value, run, (set id | id in ids), 0)
                      && r.value == run.results && state == run.state
  {
    state := start;
    var pending := ahead;
    var results := [];
    var failed: set<string> := {};
    ghost var n0, all := |store.calls|, set id | id in ids;
    assert claims[0..] == claims;
    for i := 0 to |ids|
      invariant store.tx.Some? && store.durable == old(store.durable)
      invariant old(store.calls) <= store.calls && AllWell(store.calls, n0, db.rows)
      invariant pending == CountFresh(claims[i..])
      invariant var run := ProcessEach(db, start, ids[..i], h);
                && results == run.results && state == run.state && failed == run.failed
                && BetweenMessages(store.tx.value, run, all, pending)
    {
      CountFreshStep(claims, i);
      ClaimDecidesStep(db, start, ids, h, i);
      ghost var calls := store.calls;
      var ran;
      ran, state, pending := RunOne(store, ids[i], claims[i], failed, h, state, pending,
                                    ProcessEach(db, start, ids[..i], h), all, db.rows);
      CallsChain(calls, store.calls, n0, db.rows);
      var result :- ran;
      if result.Err? {
        failed := failed + {ids[i]};
      }
      results := results + [result];
    }
    assert ids[..|ids|] == ids;
    return Ok(results), state;
  }

  /** Begin, claim everything up front, and open the savepoint if anything is to be handled. */
  method OpenBatch<H, W, T, E>(store: Store<W>, ids: seq<string>, ghost run: Run<H, W, T, E>)
    returns (r: Result<seq<Claim>, StoreError>)
    requires store.tx.None? && ids != [] && run.db == store.durable && run.failed == {}
    modifies store
    ensures store.durable == old(store.durable)
    ensures old(store.calls) < store.calls && FailStop(store.calls, |old(store.calls)|, store.durable.rows)
    ensures !EndsInCommit(store.calls) && store.calls[|store.calls| - 1].failure == r.Failure()
    ensures store.Faultless() ==> r.Ok?
    ensures r.Ok? ==>
              && store.tx.Some? && AllWell(store.calls, |old(store.calls)|, store.durable.rows)
              && r.value == ClaimEach(store.durable.rows, ids).claims && |r.value| == |ids|
              && BetweenMessages(store.tx.value, run, (set id | id in ids), CountFresh(r.value))
  {
    ClaimEachMeaning(store.durable.rows, ids);
    var _ :- store.Begin();
    var claims :- ClaimMany(store, ids);
    if CountFresh(claims) > 0 {
      var _ :- store.Savepoint();
    }
    return Ok(claims);
  }

  method ProcessManyBody<H(!new), W(!new), T, E>(
    store: Store<W>, ids: seq<string>, h: Handler<H, W, T, E>, start: H, fate: CommitFate)
    returns (r: Result<seq<ProcessResult<T, E>>, StoreError>, state: H)
    requires store.tx.None?
    modifies store
    ensures ProcessManyPost(
              old(store.durable), old(store.calls), store.durable, store.calls, ids, h, start, fate, r, state)
    ensures store.Faultless() && Gentle(h) && fate.Acknowledged? ==> r.Ok?
  {
    state := start;
    ghost var db, n0 := store.durable, |store.calls|;
    if ids == [] {
      return Ok([]), state;
    }
    var claims :- OpenBatch(store, ids, Start<H, W, T, E>(db, start));
    ghost var calls := store.calls;
    var ran;
    ran, state := RunMessages(store, ids, claims, CountFresh(claims), h, start, db);
    CallsChain(calls, store.calls, n0, db.rows);
    var results :- ran;
    EveryIdIsRecordedOrFailed(db, start, ids, h);
    ghost var run := ProcessEach(db, start, ids, h);
    assert run.db.rows + (set id | id in ids) - run.failed == run.db.rows;
    var _ :- store.Commit(fate);
    return Ok(results), state;
  }

  /**
   `process_many`. It commits and returns the fold if the backend executes every statement, and stops at
   the first it does not. Beside that: a result is `Ok` exactly when its id is recorded, and no
   recorded row is ever lost, whatever fails. "The outer `Err` means nothing was committed" is wrong
   exactly when the commit took effect, its reply was lost, and some handler had succeeded.
   */
  method ProcessMany<H(!new), W(!new), T, E>(
    store: Store<W>, ids: seq<string>, h: Handler<H, W, T, E>, start: H, fate: CommitFate)
    returns (r: Result<seq<ProcessResult<T, E>>, StoreError>, state: H)
    requires store.tx.None?
    modifies store
    ensures store.tx.None?
    ensures ProcessManyPost(
              old(store.durable), old(store.calls), store.durable, store.calls, ids, h, start, fate, r, state)
    ensures r.Ok? <==> AllOk(store.calls, |old(store.calls)|)
    ensures store.Faultless() && Gentle(h) && fate.Acknowledged? ==> r.Ok?
    ensures AllOk(store.calls, |old(store.calls)|) ==>
              var run := ProcessEach(old(store.durable), start, ids, h);
              r == Ok(run.results) && store.durable == run.db && state == run.state
    ensures r.Ok? ==> |r.value| == |ids|
    ensures r.Ok? ==> forall i :: 0 <= i < |ids| ==> (r.value[i].Ok? <==> ids[i] in store.durable.rows)
    ensures old(store.durable).rows <= store.durable.rows
    ensures r.Err? ==>
              (store.durable == old(store.durable) <==>
               !(EndsInCommit(store.calls) && fate.ReplyLost?)
               || NoneSucceeded(ProcessEach(old(store.durable), start, ids, h).attempts))
  {
    ghost var db := store.durable;
    r, state := ProcessManyBody(store, ids, h, start, fate);
    store.Drop();
    ChangesIffSomethingSucceeds(db, start, ids, h);
    AckSafety(db, start, ids, h);
    EveryIdIsRecordedOrFailed(db, start, ids, h);
  }
}
