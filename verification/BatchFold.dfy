/**
 What the batch driver reports beside other transactions is what the fold reports: the promises proved of
 `Batches.ProcessEach` hold of the result vector of every interleaving.
 */
module BatchFold {
  import opened Results
  import opened Ids
  import opened Claims
  import opened Protocol
  import opened BatchLoop
  import Batches
  import Consumers

  /** A call of `process_many`: the deliveries, the handler, and the database as its claims found it. */
  datatype Job<!H, !W, !T, !E> = Job(
    consumer: string, ids: seq<string>, db: Batches.Db<W>, start: H, h: Batches.Handler<H, W, T, E>)
  {
    function Keys(): seq<Key> {
      seq(|ids|, i requires 0 <= i < |ids| => Key(consumer, ids[i]))
    }

    /** The fold over the first `i` deliveries. */
    function At(i: nat): Batches.Run<H, W, T, E>
      requires i <= |ids|
    {
      Batches.ProcessEach(db, start, ids[..i], h)
    }

    /** What the handler does when the fold comes to delivery `i`. */
    function Handles(i: nat): Batches.Step<H, W, T, E>
      requires i < |ids|
    {
      h(At(i).state, ids[i], At(i).db.world)
    }
  }

  ghost predicate Matches<T, E>(reply: Reply, result: Batches.ProcessResult<T, E>) {
    match reply
    case Handled => result.Ok? && result.value.Processed?
    case Skipped => result.Ok? && result.value.Duplicate?
    case Failed => result.Err? && result.error.HandlerFailed?
    case FailedEarlier => result.Err? && result.error.EarlierDeliveryFailed?
  }

  ghost predicate AllMatch<T, E>(replies: seq<Reply>, results: seq<Batches.ProcessResult<T, E>>) {
    |replies| == |results| && forall j :: 0 <= j < |replies| ==> Matches(replies[j], results[j])
  }

  /** The claims answered as `job.db` has the rows, and handlers end as `job.h` does. */
  ghost predicate Agrees<H, W, T, E>(w: Worker, e: Event, job: Job<H, W, T, E>)
    requires Possible(w, e)
  {
    w.ids == job.Keys() &&
    match e
    case Expand =>
      forall id :: id in job.ids && Key(job.consumer, id) in w.phase.answers ==>
                     (id in job.db.rows <==> w.phase.answers[Key(job.consumer, id)] == Claim.Duplicate)
    case Own(m) =>
      && (m.HandlerOk? ==> job.Handles(|w.phase.results|).Done?)
      && (m.HandlerErr? ==> job.Handles(|w.phase.results|).Failed?)
    case _ => true
  }

  ghost predicate Follows<H, W, T, E>(w: Worker, run: seq<Event>, job: Job<H, W, T, E>)
    requires Legal(w, run)
  {
    run == [] ||
    (Follows(w, run[..|run| - 1], job) && Agrees(After(w, run[..|run| - 1]), run[|run| - 1], job))
  }

  /** The loop's variables are the fold's after as many deliveries. */
  ghost predicate Tracks<H, W, T, E>(phase: Phase, job: Job<H, W, T, E>)
    requires phase.Looping?
  {
    && |phase.results| <= |job.ids| && phase.claims == ClaimEach(job.db.rows, job.ids).claims
    && var fold := job.At(|phase.results|);
    && AllMatch(phase.results, fold.results)
    && forall id :: id in fold.failed <==> Key(job.consumer, id) in phase.failed
  }

  ghost predicate FoldInv<H, W, T, E>(phase: Phase, job: Job<H, W, T, E>) {
    && (phase.Looping? ==> Tracks(phase, job))
    && (phase.Returned? ==> AllMatch(phase.results, job.At(|job.ids|).results))
  }

  // ------------------------------------------------------------ steps

  lemma SamePrefix<H, W, T, E>(job: Job<H, W, T, E>, i: nat)
    requires i < |job.ids|
    ensures job.Keys()[i] in job.Keys()[..i] <==> job.ids[i] in job.ids[..i]
  {
    if job.Keys()[i] in job.Keys()[..i] {
      var j :| 0 <= j < i && job.Keys()[..i][j] == job.Keys()[i];
      assert job.ids[..i][j] == job.ids[i];
    }
    if job.ids[i] in job.ids[..i] {
      var j :| 0 <= j < i && job.ids[..i][j] == job.ids[i];
      assert job.Keys()[..i][j] == job.Keys()[i];
    }
  }

  /** The answers, re-expanded, are those of claiming each delivery in turn. */
  lemma ExpansionFollows<H, W, T, E>(job: Job<H, W, T, E>, answers: map<Key, Claim>)
    requires forall k :: k in job.Keys() ==> k in answers
    requires forall id :: id in job.ids && Key(job.consumer, id) in answers ==>
                            (id in job.db.rows <==> answers[Key(job.consumer, id)] == Claim.Duplicate)
    ensures Expanded(job.Keys(), answers) == ClaimEach(job.db.rows, job.ids).claims
  {
    var claims := Expanded(job.Keys(), answers);
    ClaimEachMeaning(job.db.rows, job.ids);
    forall i | 0 <= i < |job.ids|
      ensures claims[i] == ClaimEach(job.db.rows, job.ids).claims[i]
    {
      SamePrefix(job, i);
      assert job.Keys()[i] == Key(job.consumer, job.ids[i]) && job.ids[i] in job.ids;
      assert claims[i] == Fresh <==> FirstUnrecorded(job.db.rows, job.ids, i);
    }
  }

  /** Whether delivery `i` is to be handled, and the fold's step if it is answered. */
  lemma FoldStep<H, W, T, E>(job: Job<H, W, T, E>, i: nat)
    requires i < |job.ids|
    ensures |ClaimEach(job.db.rows, job.ids).claims| == |job.ids|
    ensures var fold := job.At(i);
            && (ClaimEach(job.db.rows, job.ids).claims[i] == Fresh <==>
                job.ids[i] !in fold.db.rows && job.ids[i] !in fold.failed)
            && job.At(i + 1) == Batches.ProcessNext(fold, job.ids[i], job.h)
  {
    Consumers.ClaimDecidesStep(job.db, job.start, job.ids, job.h, i);
  }

  lemma SkipTracks<H, W, T, E>(phase: Phase, job: Job<H, W, T, E>, reply: Reply)
    requires phase.Looping? && Tracks(phase, job) && |phase.results| < |job.ids| == |phase.claims|
    requires phase.claims[|phase.results|] == Claim.Duplicate
    requires reply == if Key(job.consumer, job.ids[|phase.results|]) in phase.failed then FailedEarlier else Skipped
    ensures Tracks(phase.(results := phase.results + [reply]), job)
  {
    FoldStep(job, |phase.results|);
  }

  lemma HandledTracks<H, W, T, E>(phase: Phase, job: Job<H, W, T, E>, ok: bool)
    requires phase.Looping? && Tracks(phase, job) && |phase.results| < |job.ids| == |phase.claims|
    requires phase.claims[|phase.results|] == Fresh && ok == job.Handles(|phase.results|).Done?
    ensures var key := Key(job.consumer, job.ids[|phase.results|]);
            Tracks(phase.(results := phase.results + [if ok then Handled else Failed],
                          failed := phase.failed + if ok then {} else {key}), job)
  {
    FoldStep(job, |phase.results|);
  }

  lemma ExpandTracks<H, W, T, E>(job: Job<H, W, T, E>, claims: seq<Claim>, pending: int)
    requires claims == ClaimEach(job.db.rows, job.ids).claims
    ensures Tracks(Looping(claims, pending, {}, []), job)
  {
    assert job.ids[..0] == [];
  }

  lemma HandlerTracks<H, W, T, E>(phase: Phase, x: Txn, m: Move, job: Job<H, W, T, E>)
    requires phase.Looping? && Tracks(phase, job) && |phase.results| < |job.ids| == |phase.claims|
    requires phase.claims[|phase.results|] == Fresh
    requires if job.Handles(|phase.results|).Done? then m == HandlerOk else m == HandlerErr
    ensures FoldInv(Heard(job.Keys(), x, phase, m), job)
  {
    HandledTracks(phase, job, m.HandlerOk?);
    assert phase.failed + {} == phase.failed;
  }

  lemma OwnTracks<H, W, T, E>(w: Worker, m: Move, job: Job<H, W, T, E>)
    requires Possible(w, Own(m)) && Agrees(w, Own(m), job) && FoldInv(w.phase, job)
    requires w.phase.Looping? ==> LoopingInv(w.sys.txns[w.t], w.ids, w.phase)
    ensures FoldInv(Heard(w.ids, w.sys.txns[w.t], w.phase, m), job)
  {
    if m.HandlerOk? || m.HandlerErr? {
      HandlerTracks(w.phase, w.sys.txns[w.t], m, job);
    }
  }

  lemma StepTracks<H, W, T, E>(w: Worker, e: Event, job: Job<H, W, T, E>)
    requires WorkerInv(w) && Possible(w, e) && Agrees(w, e, job) && FoldInv(w.phase, job)
    ensures FoldInv(Step(w, e).phase, job)
  {
    match e
    case Other(_) =>
    case Own(m) => OwnTracks(w, m, job);
    case Expand =>
      ExpansionFollows(job, w.phase.answers);
      ExpandTracks(job, Expanded(w.ids, w.phase.answers), Step(w, e).phase.pending);
    case Skip =>
      var i := |w.phase.results|;
      assert w.ids[i] == Key(job.consumer, job.ids[i]);
      SkipTracks(w.phase, job, if w.ids[i] in w.phase.failed then FailedEarlier else Skipped);
  }

  lemma {:induction false} EveryRunTracks<H, W, T, E>(
    s: Sys, batch: seq<Key>, run: seq<Event>, job: Job<H, W, T, E>)
    requires Inv(s) && SentFor(batch, job.Keys()) && Legal(Start(s, job.Keys(), batch), run)
    requires Follows(Start(s, job.Keys(), batch), run, job)
    ensures FoldInv(After(Start(s, job.Keys(), batch), run).phase, job)
  {
    if run != [] {
      var w, prefix := Start(s, job.Keys(), batch), run[..|run| - 1];
      EveryRunTracks(s, batch, prefix, job);
      EveryRunKeepsWorkerInv(s, job.Keys(), batch, prefix);
      StepTracks(After(w, prefix), run[|run| - 1], job);
    }
  }

  /**
   Over every interleaving in which the handler ends as `job.h` does, on the database its claims found,
   `process_many` returns at every position what the fold returns.
   */
  lemma {:induction false} ResultsAreTheFold<H, W, T, E>(
    s: Sys, batch: seq<Key>, run: seq<Event>, job: Job<H, W, T, E>)
    requires Inv(s) && SentFor(batch, job.Keys()) && Legal(Start(s, job.Keys(), batch), run)
    requires Follows(Start(s, job.Keys(), batch), run, job)
    ensures var w := After(Start(s, job.Keys(), batch), run);
            w.phase.Returned? ==>
              AllMatch(w.phase.results, Batches.ProcessEach(job.db, job.start, job.ids, job.h).results)
  {
    EveryRunTracks(s, batch, run, job);
    assert job.ids[..|job.ids|] == job.ids;
  }

  /** The keys whose rows the fold adds over the first `i` deliveries. */
  function NewRows<H, W, T, E>(job: Job<H, W, T, E>, i: nat): set<Key>
    requires i <= |job.ids|
  {
    set id | id in job.At(i).db.rows - job.db.rows :: Key(job.consumer, id)
  }

  lemma NewRowsStep<H, W, T, E>(job: Job<H, W, T, E>, i: nat)
    requires i < |job.ids|
    ensures |job.At(i + 1).results| == |job.At(i).results| + 1 && job.At(i).results <= job.At(i + 1).results
    ensures var result := job.At(i + 1).results[|job.At(i).results|];
            NewRows(job, i + 1)
            == NewRows(job, i) + if Matches(Handled, result) then {Key(job.consumer, job.ids[i])} else {}
  {
    Consumers.ClaimDecidesStep(job.db, job.start, job.ids, job.h, i);
  }

  /** The deliveries reported as handled are those whose rows the fold adds. */
  lemma {:induction false} HandledAreNewRows<H, W, T, E>(job: Job<H, W, T, E>, replies: seq<Reply>)
    requires |replies| <= |job.ids| && AllMatch(replies, job.At(|replies|).results)
    ensures HandledIds(job.Keys(), replies) == NewRows(job, |replies|)
  {
    if replies == [] {
      assert job.ids[..0] == [];
    } else {
      var n := |replies| - 1;
      NewRowsStep(job, n);
      assert AllMatch(replies[..n], job.At(n).results);
      HandledAreNewRows(job, replies[..n]);
    }
  }

  lemma {:induction false} IdsStay(w: Worker, run: seq<Event>)
    requires Legal(w, run)
    ensures After(w, run).ids == w.ids
  {
    if run != [] { IdsStay(w, run[..|run| - 1]); }
  }

  lemma {:induction false} ReportsTheFold<H, W, T, E>(
    s: Sys, batch: seq<Key>, run: seq<Event>, job: Job<H, W, T, E>, replied: bool)
    requires Inv(s) && SentFor(batch, job.Keys()) && Legal(Start(s, job.Keys(), batch), run)
    requires Follows(Start(s, job.Keys(), batch), run, job)
    requires Possible(After(Start(s, job.Keys(), batch), run), Own(Commit(replied)))
    ensures var w := After(Start(s, job.Keys(), batch), run);
            w.ids == job.Keys() && HandledIds(w.ids, w.phase.results) == NewRows(job, |job.ids|)
  {
    IdsStay(Start(s, job.Keys(), batch), run);
    EveryRunTracks(s, batch, run, job);
    HandledAreNewRows(job, After(Start(s, job.Keys(), batch), run).phase.results);
  }

  /**
   And so the commit adds exactly the rows it reports as handled, which are the fold's, and one effect for
   each, whatever others did meanwhile.
   */
  lemma {:induction false} CommitAddsTheFold<H, W, T, E>(
    s: Sys, batch: seq<Key>, run: seq<Event>, job: Job<H, W, T, E>, replied: bool)
    requires Inv(s) && SentFor(batch, job.Keys()) && Legal(Start(s, job.Keys(), batch), run)
    requires Follows(Start(s, job.Keys(), batch), run, job)
    requires Possible(After(Start(s, job.Keys(), batch), run), Own(Commit(replied)))
    ensures var w := After(Start(s, job.Keys(), batch), run);
            && w.ids == job.Keys() && HandledIds(w.ids, w.phase.results) == NewRows(job, |job.ids|)
            && AddsRows(w.sys, Apply(w.sys, Do(w.t, Commit(replied))), HandledIds(w.ids, w.phase.results))
  {
    ReportsTheFold(s, batch, run, job, replied);
    EveryCommitAddsWhatItReports(s, job.Keys(), batch, run, replied);
  }
}
