/**
 `process_many` beside other transactions: its claims, its `pending` count, its `failed` set and its results,
 next to the inbox protocol, whose every other transaction may move between any two of its steps.
 */
module BatchLoop {
  import opened Results
  import opened Ids
  import opened Claims
  import opened Protocol
  import Consumers

  /** One entry of the result vector: the first two are `Ok`, the others `Err`. */
  datatype Reply = Handled | Skipped | Failed | FailedEarlier

  predicate Acked(r: Reply) {
    r.Handled? || r.Skipped?
  }

  datatype Phase =
    | Claiming(answers: map<Key, Claim>)
    | Looping(claims: seq<Claim>, pending: int, failed: set<Key>, results: seq<Reply>)
    | Returned(results: seq<Reply>)
    | GaveUp  // an outer `Err`, a cancellation or a crash

  datatype Worker = Worker(sys: Sys, ids: seq<Key>, t: nat, phase: Phase)

  datatype Event =
    | Other(action: Action)  // anything that is not this transaction's
    | Own(move: Move)
    | Expand
    | Skip

  /** What the driver sends where; losing the transaction or dropping it can happen anywhere. */
  predicate Issues(w: Worker, m: Move) {
    match m
    case ClaimFresh(_) | ClaimDuplicate(_) | Block | Wake => w.phase.Claiming?
    case Break | End => true
    case StartHandler(key) =>
      && w.phase.Looping? && |w.phase.results| < |w.ids| && |w.phase.claims| == |w.ids|
      && w.phase.claims[|w.phase.results|] == Fresh && key == w.ids[|w.phase.results|]
    case HandlerOk | HandlerErr => w.phase.Looping? && |w.phase.results| < |w.ids|
    case Commit(_) => w.phase.Looping? && |w.phase.results| == |w.ids|
  }

  ghost predicate Possible(w: Worker, e: Event) {
    match e
    case Other(a) => Enabled(w.sys, a) && !(a.Do? && a.t == w.t)
    case Own(m) => Enabled(w.sys, Do(w.t, m)) && Issues(w, m)
    case Expand =>
      && w.phase.Claiming? && w.t in w.sys.txns && w.sys.txns[w.t].next == |w.sys.txns[w.t].batch|
      && forall id :: id in w.ids ==> id in w.phase.answers
    case Skip =>
      && w.phase.Looping? && |w.phase.results| < |w.ids| && |w.phase.claims| == |w.ids|
      && w.phase.claims[|w.phase.results|] == Claim.Duplicate
  }

  /** The first delivery of an id takes the database's answer, its repeats `Duplicate`. */
  function Expanded(ids: seq<Key>, answers: map<Key, Claim>): seq<Claim>
    requires forall id :: id in ids ==> id in answers
  {
    seq(|ids|, i requires 0 <= i < |ids| => if ids[i] in ids[..i] then Claim.Duplicate else answers[ids[i]])
  }

  /** The driver's variables after one of its own statements. */
  function Heard(ids: seq<Key>, x: Txn, phase: Phase, m: Move): Phase
    requires m.ClaimFresh? || m.ClaimDuplicate? ==> phase.Claiming? && x.next < |x.batch|
    requires m.StartHandler? || m.Commit? ==> phase.Looping?
    requires m.HandlerOk? || m.HandlerErr? ==> phase.Looping? && |phase.results| < |ids|
  {
    match m
    case ClaimFresh(_) => Claiming(phase.answers[NextKey(x) := Fresh])
    case ClaimDuplicate(_) => Claiming(phase.answers[NextKey(x) := Claim.Duplicate])
    case StartHandler(_) => phase.(pending := phase.pending - 1)
    case HandlerOk => phase.(results := phase.results + [Handled])
    case HandlerErr =>
      phase.(failed := phase.failed + {ids[|phase.results|]}, results := phase.results + [Failed])
    case Commit(replied) => if replied then Returned(phase.results) else GaveUp
    case End => GaveUp
    case _ => phase
  }

  ghost function Step(w: Worker, e: Event): Worker
    requires Possible(w, e)
  {
    match e
    case Other(a) => w.(sys := Apply(w.sys, a))
    case Own(m) => w.(sys := Apply(w.sys, Do(w.t, m)), phase := Heard(w.ids, w.sys.txns[w.t], w.phase, m))
    case Expand =>
      var claims := Expanded(w.ids, w.phase.answers);
      w.(phase := Looping(claims, Consumers.CountFresh(claims), {}, []))
    case Skip =>
      var reply := if w.ids[|w.phase.results|] in w.phase.failed then FailedEarlier else Skipped;
      w.(phase := w.phase.(results := w.phase.results + [reply]))
  }

  /** What is sent for `ids`: the same keys, in lock order. */
  ghost predicate SentFor(batch: seq<Key>, ids: seq<Key>) {
    batch != [] && InLockOrder(batch) && forall k :: k in batch <==> k in ids
  }

  /** The driver after its `begin`. */
  function Start(s: Sys, ids: seq<Key>, batch: seq<Key>): Worker
    requires SentFor(batch, ids)
  {
    Worker(Apply(s, Begin(Batch, batch)), ids, s.nextTxn, Claiming(map[]))
  }

  ghost predicate Legal(w: Worker, run: seq<Event>)
    decreases |run|, 0
  {
    run == [] || (Legal(w, run[..|run| - 1]) && Possible(After(w, run[..|run| - 1]), run[|run| - 1]))
  }

  ghost function After(w: Worker, run: seq<Event>): Worker
    requires Legal(w, run)
    decreases |run|, 1
  {
    if run == [] then w else Step(After(w, run[..|run| - 1]), run[|run| - 1])
  }

  // ------------------------------------------------------------ the invariant

  /** The keys claimed as fresh whose turn comes at `from` or later. */
  function FreshFrom(ids: seq<Key>, claims: seq<Claim>, from: nat): set<Key>
    requires |claims| == |ids|
    decreases |ids| - from
  {
    if from >= |ids| then {}
    else FreshFrom(ids, claims, from + 1) + if claims[from] == Fresh then {ids[from]} else {}
  }

  /** The keys whose handler the results report as run. */
  function HandledIds(ids: seq<Key>, results: seq<Reply>): set<Key>
    requires |results| <= |ids|
  {
    if results == [] then {}
    else
      var n := |results| - 1;
      HandledIds(ids, results[..n]) + if results[n].Handled? then {ids[n]} else {}
  }

  /** Only the first delivery of a key can be fresh. */
  ghost predicate FreshOnce(ids: seq<Key>, claims: seq<Claim>) {
    |claims| == |ids| && forall j :: 0 <= j < |ids| && claims[j] == Fresh ==> ids[j] !in ids[..j]
  }

  /** At every position, repeats included, an `Ok` is of a key that has not failed, an `Err` of one that has. */
  ghost predicate Aligned(ids: seq<Key>, results: seq<Reply>, failed: set<Key>) {
    && |results| <= |ids|
    && forall j :: 0 <= j < |results| ==> (Acked(results[j]) <==> ids[j] !in failed)
  }

  /** The transaction a batch driver works on. */
  ghost predicate Drives(x: Txn, ids: seq<Key>) {
    x.driver.Batch? && SentFor(x.batch, ids)
  }

  /** `Fresh` was the answer for exactly the rows inserted. */
  ghost predicate Told(answers: map<Key, Claim>, rows: set<Key>) {
    forall k :: k in answers ==> (answers[k] == Fresh <==> k in rows)
  }

  ghost predicate ClaimingInv(x: Txn, answers: map<Key, Claim>) {
    && x.next <= |x.batch| && answers.Keys == Answered(x) && x.running.None? && x.failed == {}
    && x.unhandled == x.rows.Keys
    && Told(answers, x.rows.Keys)
  }

  /** The delivery whose turn is next: the handler running now has had its turn. */
  function Turn(x: Txn, results: seq<Reply>): nat {
    |results| + if x.running.Some? then 1 else 0
  }

  function Running(x: Txn): set<Key> {
    if x.running.Some? then {x.running.value} else {}
  }

  ghost predicate LoopingInv(x: Txn, ids: seq<Key>, phase: Phase)
    requires phase.Looping?
  {
    var i := |phase.results|;
    && x.next == |x.batch| && FreshOnce(ids, phase.claims) && Aligned(ids, phase.results, phase.failed)
    && (x.running.Some? ==> i < |ids| && phase.claims[i] == Fresh && x.running.value == ids[i])
    && x.unhandled == FreshFrom(ids, phase.claims, Turn(x, phase.results))
    && phase.pending == |x.unhandled| && x.failed == phase.failed
    && x.rows.Keys == HandledIds(ids, phase.results) + x.unhandled + Running(x)
  }

  ghost predicate DriverInv(x: Txn, ids: seq<Key>, phase: Phase) {
    && Drives(x, ids)
    && (phase.Claiming? ==> ClaimingInv(x, phase.answers))
    && (phase.Looping? ==> LoopingInv(x, ids, phase))
  }

  /** Every `Ok` in the results is of a key that has been applied. */
  ghost predicate AcksApplied(s: Sys, ids: seq<Key>, results: seq<Reply>) {
    |results| == |ids| && forall j :: 0 <= j < |ids| && Acked(results[j]) ==> ids[j] in s.applied.Keys
  }

  ghost predicate WorkerInv(w: Worker) {
    && Inv(w.sys) && w.t < w.sys.nextTxn
    && (w.phase.Claiming? || w.phase.Looping? ==>
          w.t in w.sys.txns && DriverInv(w.sys.txns[w.t], w.ids, w.phase))
    && (w.phase.Returned? ==> AcksApplied(w.sys, w.ids, w.phase.results))
  }

  // ------------------------------------------------------------ claiming

  lemma ToldMore(answers: map<Key, Claim>, rows: set<Key>, key: Key, inserted: bool)
    requires Told(answers, rows) && key !in answers && key !in rows
    ensures Told(answers[key := if inserted then Fresh else Claim.Duplicate],
                 rows + if inserted then {key} else {})
  {
  }

  /** One more answer, `Fresh` exactly if the claim inserted the row. */
  lemma AnswerKeepsClaiming(x: Txn, y: Txn, answers: map<Key, Claim>, inserted: bool)
    requires ClaimingInv(x, answers) && x.rows.Keys <= Answered(x)
    requires x.next < |x.batch| && NextKey(x) !in Answered(x)
    requires y.batch == x.batch && y.next == x.next + 1 && y.running.None? && y.failed == {}
    requires y.rows.Keys == x.rows.Keys + (if inserted then {NextKey(x)} else {}) && y.unhandled == y.rows.Keys
    ensures ClaimingInv(y, answers[NextKey(x) := if inserted then Fresh else Claim.Duplicate])
  {
    assert NextKey(x) !in answers.Keys;
    ToldMore(answers, x.rows.Keys, NextKey(x), inserted);
    AnsweredGrows(x);
    assert Answered(y) == Answered(x.(next := x.next + 1));
  }

  lemma ClaimKeepsClaiming(x: Txn, ids: seq<Key>, phase: Phase, m: Move, committed: map<Key, int>)
    requires Drives(x, ids) && phase.Claiming? && ClaimingInv(x, phase.answers) && x.rows.Keys <= Answered(x)
    requires x.next < |x.batch| && (m.ClaimFresh? || m.ClaimDuplicate?)
    ensures ClaimingInv(Inside(x, m, committed), Heard(ids, x, phase, m).answers)
  {
    BatchNeverRepeats(x);
    AnswerKeepsClaiming(x, Inside(x, m, committed), phase.answers, m.ClaimFresh?);
  }

  lemma {:induction false} FirstOccurrence(ids: seq<Key>, key: Key) returns (j: nat)
    requires key in ids
    ensures j < |ids| && ids[j] == key && key !in ids[..j]
  {
    var n := |ids| - 1;
    if key in ids[..n] {
      j := FirstOccurrence(ids[..n], key);
      assert ids[..n][..j] == ids[..j];
    } else {
      j := n;
    }
  }

  lemma {:induction false} FreshFromMeaning(ids: seq<Key>, claims: seq<Claim>, from: nat, key: Key)
    requires |claims| == |ids|
    ensures key in FreshFrom(ids, claims, from) <==>
            exists j :: from <= j < |ids| && claims[j] == Fresh && ids[j] == key
    decreases |ids| - from
  {
    if from < |ids| { FreshFromMeaning(ids, claims, from + 1, key); }
  }

  /** A key whose turn has come is not ahead again. */
  lemma TurnComesOnce(ids: seq<Key>, claims: seq<Claim>, i: nat)
    requires FreshOnce(ids, claims) && i < |ids|
    ensures ids[i] !in FreshFrom(ids, claims, i + 1)
  {
    FreshFromMeaning(ids, claims, i + 1, ids[i]);
    forall j | i < j < |ids| && claims[j] == Fresh
      ensures ids[j] != ids[i]
    {
      assert ids[..j][i] == ids[i];
    }
  }

  /** Counting the fresh claims counts the fresh keys. */
  lemma {:induction false} FreshCount(ids: seq<Key>, claims: seq<Claim>, i: nat)
    requires FreshOnce(ids, claims) && i <= |ids|
    ensures |FreshFrom(ids, claims, i)| == Consumers.CountFresh(claims[i..])
    decreases |ids| - i
  {
    if i < |ids| {
      FreshCount(ids, claims, i + 1);
      TurnComesOnce(ids, claims, i);
      Consumers.CountFreshStep(claims, i);
    }
  }

  /** Re-expanded, the answers mark each inserted row fresh once, at its first delivery. */
  lemma ExpansionMarksRows(x: Txn, ids: seq<Key>, answers: map<Key, Claim>)
    requires Drives(x, ids) && ClaimingInv(x, answers) && x.next == |x.batch|
    requires x.rows.Keys <= Answered(x) && forall id :: id in ids ==> id in answers
    ensures var claims := Expanded(ids, answers);
            FreshOnce(ids, claims) && FreshFrom(ids, claims, 0) == x.rows.Keys
  {
    var claims := Expanded(ids, answers);
    assert x.batch[..x.next] == x.batch;
    forall k
      ensures k in FreshFrom(ids, claims, 0) <==> k in x.rows.Keys
    {
      ExpansionMarks(ids, answers, x.rows.Keys, k);
    }
  }

  /** An id delivered and inserted is fresh at its first delivery; no other is fresh anywhere. */
  lemma ExpansionMarks(ids: seq<Key>, answers: map<Key, Claim>, rows: set<Key>, key: Key)
    requires (forall id :: id in ids ==> id in answers) && Told(answers, rows) && (key in rows ==> key in ids)
    ensures key in FreshFrom(ids, Expanded(ids, answers), 0) <==> key in rows
  {
    FreshFromMeaning(ids, Expanded(ids, answers), 0, key);
    if key in rows {
      var j := FirstOccurrence(ids, key);
      assert Expanded(ids, answers)[j] == Fresh;
    }
  }

  lemma LoopStarts(x: Txn, ids: seq<Key>, claims: seq<Claim>)
    requires x.next == |x.batch| && x.running.None? && x.failed == {} && FreshOnce(ids, claims)
    requires FreshFrom(ids, claims, 0) == x.rows.Keys == x.unhandled
    ensures LoopingInv(x, ids, Looping(claims, |x.unhandled|, {}, []))
  {
  }

  lemma ExpandKeepsInv(x: Txn, ids: seq<Key>, answers: map<Key, Claim>)
    requires Drives(x, ids) && ClaimingInv(x, answers) && x.next == |x.batch|
    requires x.rows.Keys <= Answered(x) && forall id :: id in ids ==> id in answers
    ensures var claims := Expanded(ids, answers);
            LoopingInv(x, ids, Looping(claims, Consumers.CountFresh(claims), {}, []))
  {
    var claims := Expanded(ids, answers);
    ExpansionMarksRows(x, ids, answers);
    FreshCount(ids, claims, 0);
    assert claims[0..] == claims;
    LoopStarts(x, ids, claims);
  }

  // ------------------------------------------------------------ the loop

  lemma {:induction false} HandledGrows(ids: seq<Key>, results: seq<Reply>, reply: Reply)
    requires |results| < |ids|
    ensures HandledIds(ids, results + [reply])
         == HandledIds(ids, results) + (if reply.Handled? then {ids[|results|]} else {})
  {
    assert (results + [reply])[..|results|] == results;
  }

  lemma StaysAligned(ids: seq<Key>, results: seq<Reply>, failed: set<Key>, reply: Reply)
    requires Aligned(ids, results, failed) && |results| < |ids|
    requires Acked(reply) <==> ids[|results|] !in failed
    ensures Aligned(ids, results + [reply], failed)
  {
  }

  lemma SkipKeepsInv(x: Txn, ids: seq<Key>, phase: Phase, reply: Reply)
    requires phase.Looping? && LoopingInv(x, ids, phase) && |phase.results| < |ids|
    requires phase.claims[|phase.results|] == Claim.Duplicate && x.running.None?
    requires reply == if ids[|phase.results|] in phase.failed then FailedEarlier else Skipped
    ensures LoopingInv(x, ids, phase.(results := phase.results + [reply]))
  {
    var i := |phase.results|;
    StaysAligned(ids, phase.results, phase.failed, reply);
    HandledGrows(ids, phase.results, reply);
    assert HandledIds(ids, phase.results + [reply]) == HandledIds(ids, phase.results);
    assert FreshFrom(ids, phase.claims, i) == FreshFrom(ids, phase.claims, i + 1);
  }

  lemma StartKeepsInv(x: Txn, ids: seq<Key>, phase: Phase, committed: map<Key, int>)
    requires phase.Looping? && LoopingInv(x, ids, phase) && |phase.results| < |ids| && x.running.None?
    requires phase.claims[|phase.results|] == Fresh
    ensures var m := StartHandler(ids[|phase.results|]);
            LoopingInv(Inside(x, m, committed), ids, Heard(ids, x, phase, m))
  {
    var i := |phase.results|;
    TurnComesOnce(ids, phase.claims, i);
    assert x.unhandled - {ids[i]} == FreshFrom(ids, phase.claims, i + 1);
  }

  /** A handler that has run leaves the loop at the next delivery. */
  lemma HandlerEnds(x: Txn, y: Txn, ids: seq<Key>, phase: Phase, failed: set<Key>, reply: Reply)
    requires phase.Looping? && LoopingInv(x, ids, phase) && x.running.Some? && y.running.None?
    requires y.batch == x.batch && y.next == x.next && y.unhandled == x.unhandled && y.failed == failed
    requires Aligned(ids, phase.results + [reply], failed)
    requires y.rows.Keys == HandledIds(ids, phase.results + [reply]) + x.unhandled
    ensures LoopingInv(y, ids, phase.(failed := failed, results := phase.results + [reply]))
  {
  }

  lemma HandlerOkKeepsInv(x: Txn, ids: seq<Key>, phase: Phase, committed: map<Key, int>)
    requires phase.Looping? && LoopingInv(x, ids, phase) && x.running.Some? && x.running.value !in x.failed
    ensures LoopingInv(Inside(x, HandlerOk, committed), ids, Heard(ids, x, phase, HandlerOk))
  {
    StaysAligned(ids, phase.results, phase.failed, Handled);
    HandledGrows(ids, phase.results, Handled);
    HandlerEnds(x, Inside(x, HandlerOk, committed), ids, phase, phase.failed, Handled);
  }

  lemma {:induction false} HandledHadATurn(ids: seq<Key>, results: seq<Reply>, key: Key)
    requires |results| <= |ids| && key !in ids[..|results|]
    ensures key !in HandledIds(ids, results)
  {
    if results != [] {
      var n := |results| - 1;
      assert ids[..n + 1] == ids[..n] + [ids[n]];
      HandledHadATurn(ids, results[..n], key);
    }
  }

  lemma FailureStaysAligned(ids: seq<Key>, claims: seq<Claim>, results: seq<Reply>, failed: set<Key>)
    requires FreshOnce(ids, claims) && Aligned(ids, results, failed) && |results| < |ids|
    requires claims[|results|] == Fresh
    ensures Aligned(ids, results + [Failed], failed + {ids[|results|]})
    ensures ids[|results|] !in HandledIds(ids, results)
  {
    var i := |results|;
    HandledHadATurn(ids, results, ids[i]);
    forall j | 0 <= j < i
      ensures ids[j] != ids[i]
    {
      assert ids[..i][j] == ids[j];
    }
  }

  lemma WithoutTheFailed<K>(rows: set<K>, handled: set<K>, unhandled: set<K>, key: K)
    requires rows == handled + unhandled + {key} && key !in handled && key !in unhandled
    ensures rows - {key} == handled + unhandled
  {
  }

  lemma HandlerErrKeepsInv(x: Txn, ids: seq<Key>, phase: Phase, committed: map<Key, int>)
    requires phase.Looping? && LoopingInv(x, ids, phase) && x.running.Some? && x.driver.Batch?
    requires x.running.value in x.rows && x.running.value !in x.unhandled
    ensures LoopingInv(Inside(x, HandlerErr, committed), ids, Heard(ids, x, phase, HandlerErr))
  {
    var y := Inside(x, HandlerErr, committed);
    HandledGrows(ids, phase.results, Failed);
    FailureStaysAligned(ids, phase.claims, phase.results, phase.failed);
    WithoutTheFailed(x.rows.Keys, HandledIds(ids, phase.results), x.unhandled, x.running.value);
    assert y.rows.Keys == x.rows.Keys - {x.running.value};
    HandlerEnds(x, y, ids, phase, phase.failed + {x.running.value}, Failed);
  }

  // ------------------------------------------------------------ every step

  /** Moves that only change the transaction's mode. */
  lemma ModeKeepsInv(x: Txn, ids: seq<Key>, phase: Phase, mode: Mode)
    requires DriverInv(x, ids, phase)
    ensures DriverInv(x.(mode := mode), ids, phase)
  {
    if phase.Claiming? { assert Answered(x.(mode := mode)) == Answered(x); }
  }

  /** A statement of the driver's own that leaves its transaction open. */
  lemma MoveKeepsDriverInv(w: Worker, m: Move)
    requires w.t in w.sys.txns && CanMove(w.sys, w.t, m) && Issues(w, m) && !m.Commit? && !m.End?
    requires var x := w.sys.txns[w.t];
             BatchInv(x) && EffectInv(x) && x.failed !! x.rows.Keys && DriverInv(x, w.ids, w.phase)
    ensures var x := w.sys.txns[w.t];
            DriverInv(Inside(x, m, w.sys.committed), w.ids, Heard(w.ids, x, w.phase, m))
  {
    var x, committed := w.sys.txns[w.t], w.sys.committed;
    InsideAddsOnlyClaims(x, m, committed);
    match m
    case ClaimFresh(_) | ClaimDuplicate(_) => ClaimKeepsClaiming(x, w.ids, w.phase, m, committed);
    case StartHandler(_) => StartKeepsInv(x, w.ids, w.phase, committed);
    case HandlerOk => HandlerOkKeepsInv(x, w.ids, w.phase, committed);
    case HandlerErr => HandlerErrKeepsInv(x, w.ids, w.phase, committed);
    case Block | Wake | Break => ModeKeepsInv(x, w.ids, w.phase, Inside(x, m, committed).mode);
  }

  /** Committing settles every position: an `Ok` is applied, an `Err` has its row nowhere. */
  lemma CommitSettles(w: Worker, replied: bool)
    requires WorkerInv(w) && Possible(w, Own(Commit(replied)))
    ensures var s', results := Apply(w.sys, Do(w.t, Commit(replied))), w.phase.results;
            && AcksApplied(s', w.ids, results)
            && forall j :: 0 <= j < |w.ids| && !Acked(results[j]) ==> w.ids[j] !in s'.committed
  {
    var s', results := Apply(w.sys, Do(w.t, Commit(replied))), w.phase.results;
    forall j | 0 <= j < |w.ids|
      ensures if Acked(results[j]) then w.ids[j] in s'.applied.Keys else w.ids[j] !in s'.committed
    {
      assert w.ids[j] in w.sys.txns[w.t].batch;
      CommitSettlesTheBatch(w.sys, w.t, replied, w.ids[j]);
    }
  }

  lemma OwnKeepsWorkerInv(w: Worker, m: Move)
    requires WorkerInv(w) && Possible(w, Own(m))
    ensures WorkerInv(Step(w, Own(m)))
  {
    StepKeepsInv(w.sys, Do(w.t, m));
    if m.Commit? {
      CommitSettles(w, m.replied);
    } else if !m.End? && (w.phase.Claiming? || w.phase.Looping?) {
      assert TxnInv(w.sys.txns[w.t]) && AnswersInv(w.sys, w.sys.txns[w.t]);
      MoveKeepsDriverInv(w, m);
    } else {
      AppliedOnlyGrows(w.sys, Do(w.t, m));
    }
  }

  lemma UntouchedByOthers(s: Sys, a: Action, t: nat)
    requires Enabled(s, a) && t < s.nextTxn && !(a.Do? && a.t == t)
    ensures t < Apply(s, a).nextTxn && (t in Apply(s, a).txns <==> t in s.txns)
    ensures t in s.txns ==> Apply(s, a).txns[t] == s.txns[t]
  {
  }

  /** No other transaction touches this one. */
  lemma OthersKeepWorkerInv(w: Worker, a: Action)
    requires WorkerInv(w) && Possible(w, Other(a))
    ensures WorkerInv(Step(w, Other(a)))
  {
    UntouchedByOthers(w.sys, a, w.t);
    StepKeepsInv(w.sys, a);
    AppliedOnlyGrows(w.sys, a);
  }

  lemma StepKeepsWorkerInv(w: Worker, e: Event)
    requires WorkerInv(w) && Possible(w, e)
    ensures WorkerInv(Step(w, e))
  {
    match e
    case Other(a) => OthersKeepWorkerInv(w, a);
    case Own(m) => OwnKeepsWorkerInv(w, m);
    case Expand =>
      var x := w.sys.txns[w.t];
      assert TxnInv(x);
      ExpandKeepsInv(x, w.ids, w.phase.answers);
    case Skip =>
      SkipKeepsInv(w.sys.txns[w.t], w.ids, w.phase,
                   if w.ids[|w.phase.results|] in w.phase.failed then FailedEarlier else Skipped);
  }

  lemma StartIsFine(s: Sys, ids: seq<Key>, batch: seq<Key>)
    requires Inv(s) && SentFor(batch, ids)
    ensures WorkerInv(Start(s, ids, batch))
  {
    StepKeepsInv(s, Begin(Batch, batch));
    assert Answered(Opened(s, Batch, batch)) == {};
  }

  lemma {:induction false} EveryRunKeepsWorkerInv(s: Sys, ids: seq<Key>, batch: seq<Key>, run: seq<Event>)
    requires Inv(s) && SentFor(batch, ids) && Legal(Start(s, ids, batch), run)
    ensures WorkerInv(After(Start(s, ids, batch), run))
  {
    if run == [] {
      StartIsFine(s, ids, batch);
    } else {
      EveryRunKeepsWorkerInv(s, ids, batch, run[..|run| - 1]);
      StepKeepsWorkerInv(After(Start(s, ids, batch), run[..|run| - 1]), run[|run| - 1]);
    }
  }

  lemma RowsAreHandled(x: Txn, ids: seq<Key>, phase: Phase)
    requires phase.Looping? && LoopingInv(x, ids, phase) && x.running.None? && x.unhandled == {}
    ensures x.rows.Keys == HandledIds(ids, phase.results)
  {
  }

  /** The commit adds exactly the rows the results report as handled, and one effect for each. */
  lemma CommitAddsWhatItReports(w: Worker, replied: bool)
    requires WorkerInv(w) && Possible(w, Own(Commit(replied)))
    ensures AddsRows(w.sys, Apply(w.sys, Do(w.t, Commit(replied))), HandledIds(w.ids, w.phase.results))
  {
    assert TxnInv(w.sys.txns[w.t]);
    CommitAddsRows(w.sys, w.t);
    RowsAreHandled(w.sys.txns[w.t], w.ids, w.phase);
  }

  lemma {:induction false} EveryCommitAddsWhatItReports(
    s: Sys, ids: seq<Key>, batch: seq<Key>, run: seq<Event>, replied: bool)
    requires Inv(s) && SentFor(batch, ids) && Legal(Start(s, ids, batch), run)
    requires Possible(After(Start(s, ids, batch), run), Own(Commit(replied)))
    ensures var w := After(Start(s, ids, batch), run);
            AddsRows(w.sys, Apply(w.sys, Do(w.t, Commit(replied))), HandledIds(w.ids, w.phase.results))
  {
    EveryRunKeepsWorkerInv(s, ids, batch, run);
    CommitAddsWhatItReports(After(Start(s, ids, batch), run), replied);
  }

  /** A handler is running for the current delivery, or its claim is still due, or nothing is left to do. */
  ghost predicate InTurn(x: Txn, ids: seq<Key>, phase: Phase)
    requires phase.Looping?
  {
    var i := |phase.results|;
    && x.next == |x.batch| && i <= |ids| == |phase.claims|
    && (x.running.Some? ==> i < |ids|)
    && (x.running.None? && i == |ids| ==> phase.pending == 0 && x.unhandled == {})
    && (x.running.None? && i < |ids| && phase.claims[i] == Fresh ==> phase.pending > 0 && ids[i] in x.unhandled)
  }

  lemma LoopIsInTurn(x: Txn, ids: seq<Key>, phase: Phase)
    requires phase.Looping? && LoopingInv(x, ids, phase)
    ensures InTurn(x, ids, phase)
  {
  }

  /** Every delivered id has been answered once every key of the batch has: the lookup never misses. */
  lemma AnswersComplete(x: Txn, ids: seq<Key>, answers: map<Key, Claim>)
    requires Drives(x, ids) && ClaimingInv(x, answers) && x.next == |x.batch|
    ensures forall id :: id in ids ==> id in answers
  {
    assert x.batch[..x.next] == x.batch;
    forall id | id in ids
      ensures id in answers
    {
      assert id in x.batch && id in Answered(x) && id in answers.Keys;
    }
  }

  /** What the loop does next, if its handlers succeed and its transaction lives. */
  function NextEvent(w: Worker): Event
    requires w.phase.Looping? && |w.phase.results| <= |w.ids| == |w.phase.claims| && w.t in w.sys.txns
  {
    var i := |w.phase.results|;
    if w.sys.txns[w.t].running.Some? then Own(HandlerOk)
    else if i == |w.ids| then Own(Commit(true))
    else if w.phase.claims[i] == Fresh then Own(StartHandler(w.ids[i]))
    else Skip
  }

  lemma LoopGoesOn(w: Worker)
    requires w.phase.Looping? && w.t in w.sys.txns && w.sys.txns[w.t].mode.Open?
    requires InTurn(w.sys.txns[w.t], w.ids, w.phase)
    ensures Possible(w, NextEvent(w))
  {
  }

  /** How the next claim can go: it waits, finds the row, or inserts it. */
  ghost function NextClaim(s: Sys, t: nat): Move
    requires t in s.txns && s.txns[t].next < |s.txns[t].batch|
  {
    var key := NextKey(s.txns[t]);
    if LockedByAnother(s, t, key) then Block
    else if key in s.committed then ClaimDuplicate(false)
    else ClaimFresh(s.now)
  }

  /**
   The protocol's guards are the driver's own: in an open transaction every statement the driver comes to
   is one the protocol lets it make, and each answer it looks up is there.
   */
  lemma DriverNeverStuck(w: Worker)
    requires WorkerInv(w) && (w.phase.Claiming? || w.phase.Looping?) && w.sys.txns[w.t].mode.Open?
    ensures w.phase.Claiming? ==>
              var x := w.sys.txns[w.t];
              if x.next < |x.batch| then Possible(w, Own(NextClaim(w.sys, w.t))) else Possible(w, Expand)
    ensures w.phase.Looping? ==> InTurn(w.sys.txns[w.t], w.ids, w.phase) && Possible(w, NextEvent(w))
  {
    if w.phase.Looping? {
      LoopIsInTurn(w.sys.txns[w.t], w.ids, w.phase);
      LoopGoesOn(w);
    } else if w.sys.txns[w.t].next == |w.sys.txns[w.t].batch| {
      AnswersComplete(w.sys.txns[w.t], w.ids, w.phase.answers);
    }
  }

  // ------------------------------------------------------------ every run

  /** What one event does to the database: a step of the protocol, or nothing. */
  function ActionOf(t: nat, e: Event): seq<Action> {
    match e
    case Other(a) => [a]
    case Own(m) => [Do(t, m)]
    case _ => []
  }

  function ActionsOf(t: nat, run: seq<Event>): seq<Action> {
    if run == [] then [] else ActionsOf(t, run[..|run| - 1]) + ActionOf(t, run[|run| - 1])
  }

  lemma {:induction false} EventIsAStep(s: Sys, sofar: seq<Action>, w: Worker, e: Event)
    requires Valid(s, sofar) && Exec(s, sofar) == w.sys && Possible(w, e)
    ensures Valid(s, sofar + ActionOf(w.t, e)) && Exec(s, sofar + ActionOf(w.t, e)) == Step(w, e).sys
    ensures Step(w, e).t == w.t && Step(w, e).ids == w.ids
  {
    match e
    case Other(a) => OneMore(s, sofar, a);
    case Own(m) => OneMore(s, sofar, Do(w.t, m));
    case _ => assert sofar + [] == sofar;
  }

  /** Every run of the driver is a run of the protocol, going on from where `before` led. */
  lemma {:induction false} DriverRunIsAProtocolRun(
    s: Sys, before: seq<Action>, ids: seq<Key>, batch: seq<Key>, run: seq<Event>)
    requires Valid(s, before) && SentFor(batch, ids) && Legal(Start(Exec(s, before), ids, batch), run)
    ensures var w := After(Start(Exec(s, before), ids, batch), run);
            var all := before + [Begin(Batch, batch)] + ActionsOf(Exec(s, before).nextTxn, run);
            Valid(s, all) && Exec(s, all) == w.sys && w.t == Exec(s, before).nextTxn && w.ids == ids
  {
    var begun, w := before + [Begin(Batch, batch)], Start(Exec(s, before), ids, batch);
    if run == [] {
      OneMore(s, before, Begin(Batch, batch));
      assert begun + [] == begun;
    } else {
      var prefix, last := run[..|run| - 1], run[|run| - 1];
      DriverRunIsAProtocolRun(s, before, ids, batch, prefix);
      EventIsAStep(s, begun + ActionsOf(w.t, prefix), After(w, prefix), last);
      assert begun + ActionsOf(w.t, run) == begun + ActionsOf(w.t, prefix) + ActionOf(w.t, last);
    }
  }

  /** No position acked twice over: each `Ok` is of a key with exactly one durable effect. */
  ghost predicate AckedOnce(s: Sys, ids: seq<Key>, results: seq<Reply>) {
    |results| == |ids| && forall j :: 0 <= j < |ids| && Acked(results[j]) ==> s.log[ids[j]] == 1
  }

  /**
   Ack safety over every interleaving: whatever other transactions, purges, failures and cancellations come
   between, when `process_many` has returned, its results align with its ids, and each position, repeats
   included, that says `Ok` is of a message that was applied: once, as long as claims keep to the window.
   */
  lemma {:induction false} AckSafetyInEveryRun(
    now: int, maxAge: nat, before: seq<Action>, ids: seq<Key>, batch: seq<Key>, run: seq<Event>)
    requires Valid(Init(now, maxAge), before) && SentFor(batch, ids)
    requires Legal(Start(Exec(Init(now, maxAge), before), ids, batch), run)
    ensures var w := After(Start(Exec(Init(now, maxAge), before), ids, batch), run);
            var all := before + [Begin(Batch, batch)] + ActionsOf(w.t, run);
            && Valid(Init(now, maxAge), all) && Exec(Init(now, maxAge), all) == w.sys
            && (w.phase.Returned? ==> AcksApplied(w.sys, ids, w.phase.results))
            && (w.phase.Returned? && Timely(Init(now, maxAge), all, maxAge) ==>
                  AckedOnce(w.sys, ids, w.phase.results))
  {
    var s := Init(now, maxAge);
    var w := After(Start(Exec(s, before), ids, batch), run);
    var all := before + [Begin(Batch, batch)] + ActionsOf(w.t, run);
    RunKeepsInv(s, before);
    EveryRunKeepsWorkerInv(Exec(s, before), ids, batch, run);
    DriverRunIsAProtocolRun(s, before, ids, batch, run);
    if w.phase.Returned? && Timely(s, all, maxAge) {
      ExactlyOnceWithinWindow(now, maxAge, all);
    }
  }

  /**
   At the commit itself, over every run without purge: each position, repeats included, is `Ok` exactly when
   its row is committed.
   */
  lemma {:induction false} CommitAnswersEveryPosition(
    now: int, maxAge: nat, before: seq<Action>, ids: seq<Key>, batch: seq<Key>, run: seq<Event>, replied: bool)
    requires Valid(Init(now, maxAge), before) && SentFor(batch, ids)
    requires Legal(Start(Exec(Init(now, maxAge), before), ids, batch), run)
    requires var w := After(Start(Exec(Init(now, maxAge), before), ids, batch), run);
             && Possible(w, Own(Commit(replied)))
             && NoPurge(before + [Begin(Batch, batch)] + ActionsOf(w.t, run))
    ensures var w := After(Start(Exec(Init(now, maxAge), before), ids, batch), run);
            var s' := Apply(w.sys, Do(w.t, Commit(replied)));
            && w.ids == ids
            && forall j :: 0 <= j < |w.ids| ==> (Acked(w.phase.results[j]) <==> w.ids[j] in s'.committed)
  {
    var s := Init(now, maxAge);
    var w := After(Start(Exec(s, before), ids, batch), run);
    var s' := Apply(w.sys, Do(w.t, Commit(replied)));
    RunKeepsInv(s, before);
    EveryRunKeepsWorkerInv(Exec(s, before), ids, batch, run);
    DriverRunIsAProtocolRun(s, before, ids, batch, run);
    CommitSettles(w, replied);
    WithoutPurgeOnce(now, maxAge, before + [Begin(Batch, batch)] + ActionsOf(w.t, run));
    OnlyPurgeRemovesRows(w.sys, Do(w.t, Commit(replied)));
    assert s'.applied.Keys == s'.committed.Keys;
  }

  /** Between any two of its steps others may do whatever the protocol lets them, and it may be lost or dropped. */
  lemma AnythingMayInterfere(w: Worker, a: Action)
    requires Enabled(w.sys, a)
    ensures !(a.Do? && a.t == w.t) ==> Possible(w, Other(a))
    ensures a == Do(w.t, Break) || a == Do(w.t, End) ==> Possible(w, Own(a.move))
  {
  }

  // ------------------------------------------------------------ what is returned

  /** The call is over, and so is its transaction. */
  ghost predicate Over(w: Worker) {
    w.t < w.sys.nextTxn && (w.phase.Returned? || w.phase.GaveUp? ==> w.t !in w.sys.txns)
  }

  lemma StepKeepsOver(w: Worker, e: Event)
    requires Over(w) && Possible(w, e)
    ensures Over(Step(w, e))
    ensures Step(w, e).phase.Returned? <==> w.phase.Returned? || e == Own(Commit(true))
    ensures Step(w, e).phase.GaveUp? <==> w.phase.GaveUp? || e == Own(Commit(false)) || e == Own(End)
    ensures e == Own(Commit(true)) ==> w.phase.Looping? && Step(w, e).phase.results == w.phase.results
    ensures w.phase.Returned? ==> Step(w, e).phase == w.phase
  {
    if e.Other? { UntouchedByOthers(w.sys, e.action, w.t); }
  }

  /**
   `process_many` returns `Ok` exactly when its commit is acknowledged, with the results it then held; it ends
   in the outer `Err` exactly when the reply is lost or the transaction is given up.
   */
  lemma {:induction false} ReturnsWhenAcknowledged(s: Sys, ids: seq<Key>, batch: seq<Key>, run: seq<Event>)
    requires SentFor(batch, ids) && Legal(Start(s, ids, batch), run)
    ensures var w := After(Start(s, ids, batch), run);
            && Over(w)
            && (w.phase.Returned? <==> Own(Commit(true)) in run)
            && (w.phase.GaveUp? <==> Own(Commit(false)) in run || Own(End) in run)
  {
    if run != [] {
      var before, last := run[..|run| - 1], run[|run| - 1];
      ReturnsWhenAcknowledged(s, ids, batch, before);
      StepKeepsOver(After(Start(s, ids, batch), before), last);
      assert run == before + [last];
    }
  }

  /** The results returned are those held when the commit went out. */
  lemma {:induction false} ReturnsWhatItHeld(s: Sys, ids: seq<Key>, batch: seq<Key>, run: seq<Event>, i: nat)
    requires SentFor(batch, ids) && Legal(Start(s, ids, batch), run) && i < |run| && run[i] == Own(Commit(true))
    ensures Legal(Start(s, ids, batch), run[..i])
    ensures var held := After(Start(s, ids, batch), run[..i]).phase;
            held.Looping? && After(Start(s, ids, batch), run).phase == Returned(held.results)
  {
    var w, before, last := Start(s, ids, batch), run[..|run| - 1], run[|run| - 1];
    ReturnsWhenAcknowledged(s, ids, batch, before);
    StepKeepsOver(After(w, before), last);
    if i < |run| - 1 {
      ReturnsWhatItHeld(s, ids, batch, before, i);
      assert before[..i] == run[..i];
    }
  }
}
