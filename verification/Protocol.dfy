/**
 The inbox protocol as a transition system: any number of transactions driven by `process` or
 `process_many`, over one database, with contention, failures, drops, crashes, lost commit replies,
 redelivery, the passage of time and purges.

 The durable state is the committed rows with their `processed_at` stamps and the log of handler effects.
 `applied` is history the database does not keep: the stamp of the last committed row of each key.
 */
module Protocol {
  import opened Results
  import opened Ids

  datatype Driver = Single | Batch

  /** `Closing`: nothing is left to do but to roll back or drop. */
  datatype Mode = Open | Waiting | Closing

  datatype Txn = Txn(
    driver: Driver,
    began: int,
    batch: seq<Key>,           // the ids to claim, in lock order
    next: nat,                 // how many of them have been answered
    rows: map<Key, int>,       // rows inserted here, not committed
    deleted: set<Key>,         // committed rows deleted here
    locks: set<Key>,           // row locks, held to the end
    unhandled: set<Key>,       // fresh claims whose handler has not run
    failed: set<Key>,          // fresh claims whose handler failed, withdrawn
    running: Option<Key>,
    effects: multiset<Key>,    // handler effects written here
    savepoint: multiset<Key>,  // the effects when the savepoint was opened
    mode: Mode)

  datatype Sys = Sys(
    now: int,
    maxAge: nat,
    committed: map<Key, int>,
    log: multiset<Key>,
    applied: map<Key, int>,
    txns: map<nat, Txn>,
    nextTxn: nat)

  /** What a driver's transaction can do or suffer. */
  datatype Move =
    | ClaimFresh(stamp: int)
    | ClaimDuplicate(locking: bool)
    | Block
    | Wake
    | Break
    | StartHandler(key: Key)
    | HandlerOk
    | HandlerErr
    | Commit(replied: bool)
    | End

  datatype Action =
    | Tick(delta: nat)
    | Begin(driver: Driver, batch: seq<Key>)
    | Purge(keys: set<Key>, cutoff: int)
    | Do(t: nat, move: Move)

  function Init(now: int, maxAge: nat): Sys {
    Sys(now, maxAge, map[], multiset{}, map[], map[], 0)
  }

  /** What `claim_many` sends: one consumer's ids, strictly increasing in byte order. */
  ghost predicate InLockOrder(batch: seq<Key>) {
    forall i, j :: 0 <= i < j < |batch| ==>
                     batch[i].consumer == batch[j].consumer && IdLess(batch[i].id, batch[j].id)
  }

  ghost predicate LockedByAnother(s: Sys, t: nat, key: Key) {
    exists u :: u in s.txns && u != t && key in s.txns[u].locks
  }

  /** Open, with every claim answered and no handler running. */
  predicate Idle(x: Txn) {
    x.mode.Open? && x.next == |x.batch| && x.running.None?
  }

  /** The key whose claim comes next. */
  function NextKey(x: Txn): Key
    requires x.next < |x.batch|
  {
    x.batch[x.next]
  }

  ghost predicate CanMove(s: Sys, t: nat, m: Move)
    requires t in s.txns
  {
    var x := s.txns[t];
    match m
    case ClaimFresh(stamp) =>
      // The stamp is the transaction's start (PostgreSQL) or the statement's clock (MySQL, SQLite).
      && x.mode.Open? && x.next < |x.batch| && x.began <= stamp <= s.now
      && NextKey(x) !in s.committed && !LockedByAnother(s, t, NextKey(x))
    case ClaimDuplicate(_) =>
      x.mode.Open? && x.next < |x.batch| && NextKey(x) in s.committed && !LockedByAnother(s, t, NextKey(x))
    case Block => x.mode.Open? && x.next < |x.batch| && LockedByAnother(s, t, NextKey(x))
    case Wake => x.mode.Waiting? && x.next < |x.batch| && !LockedByAnother(s, t, NextKey(x))
    case Break => true
    case StartHandler(key) => Idle(x) && key in x.unhandled
    case HandlerOk => x.mode.Open? && x.running.Some?
    case HandlerErr => x.mode.Open? && x.running.Some?
    case Commit(_) => Idle(x) && x.unhandled == {}
    case End => true
  }

  ghost predicate Enabled(s: Sys, a: Action) {
    match a
    case Tick(_) => true
    case Begin(driver, batch) => batch != [] && InLockOrder(batch) && (driver.Single? ==> |batch| == 1)
    case Purge(keys, cutoff) =>
      && keys <= s.committed.Keys && cutoff <= s.now - s.maxAge
      && forall k :: k in keys ==> s.committed[k] < cutoff
    case Do(t, m) => t in s.txns && CanMove(s, t, m)
  }

  /** Withdraws a claim as the SQL does: the row goes, whoever inserted it. */
  function Unclaimed(x: Txn, committed: map<Key, int>, key: Key): Txn {
    if key in x.rows then x.(rows := x.rows - {key})
    else if key in committed then x.(deleted := x.deleted + {key})
    else x
  }

  /** A single delivery is rolled back whole; in a batch only the failed message is undone. */
  function AfterHandlerErr(x: Txn, committed: map<Key, int>): Txn
    requires x.running.Some?
  {
    if x.driver.Single? then x.(mode := Closing)
    else Unclaimed(x, committed, x.running.value).(
         effects := x.savepoint, running := None, failed := x.failed + {x.running.value})
  }

  function AfterFresh(x: Txn, stamp: int): Txn
    requires x.next < |x.batch|
  {
    var key := NextKey(x);
    x.(next := x.next + 1, rows := x.rows[key := stamp], locks := x.locks + {key}, unhandled := x.unhandled + {key})
  }

  /** A duplicate may leave its row locked (MySQL) or not (PostgreSQL); a single delivery then rolls back. */
  function AfterDuplicate(x: Txn, locking: bool): Txn
    requires x.next < |x.batch|
  {
    x.(next := x.next + 1,
       locks := if locking then x.locks + {NextKey(x)} else x.locks,
       mode := if x.driver.Single? then Closing else Open)
  }

  /** The transaction after a move that stays inside it. */
  function Inside(x: Txn, m: Move, committed: map<Key, int>): Txn
    requires m.ClaimFresh? || m.ClaimDuplicate? ==> x.next < |x.batch|
    requires m.HandlerErr? ==> x.running.Some?
  {
    match m
    case ClaimFresh(stamp) => AfterFresh(x, stamp)
    case ClaimDuplicate(locking) => AfterDuplicate(x, locking)
    case Block => x.(mode := Waiting)
    case Wake => x.(mode := Open)
    case Break => x.(mode := Closing)
    case StartHandler(key) =>
      x.(unhandled := x.unhandled - {key}, running := Some(key), savepoint := x.effects,
         effects := x.effects + multiset{key})
    case HandlerOk => x.(running := None)
    case HandlerErr => AfterHandlerErr(x, committed)
    case Commit(_) => x
    case End => x
  }

  function Opened(s: Sys, driver: Driver, batch: seq<Key>): Txn {
    Txn(driver, s.now, batch, 0, map[], {}, {}, {}, {}, None, multiset{}, multiset{}, Open)
  }

  function Committed(s: Sys, t: nat): Sys
    requires t in s.txns
  {
    var x := s.txns[t];
    s.(committed := (s.committed - x.deleted) + x.rows, log := s.log + x.effects,
       applied := s.applied + x.rows, txns := s.txns - {t})
  }

  function Apply(s: Sys, a: Action): Sys
    requires Enabled(s, a)
  {
    match a
    case Tick(delta) => s.(now := s.now + delta)
    case Begin(driver, batch) =>
      s.(txns := s.txns[s.nextTxn := Opened(s, driver, batch)], nextTxn := s.nextTxn + 1)
    case Purge(keys, _) => s.(committed := s.committed - keys)
    case Do(t, m) =>
      if m.Commit? then Committed(s, t)
      else if m.End? then s.(txns := s.txns - {t})
      else s.(txns := s.txns[t := Inside(s.txns[t], m, s.committed)])
  }

  // ------------------------------------------------------------ runs

  ghost predicate Valid(s: Sys, run: seq<Action>)
    decreases |run|, 0
  {
    run == [] || (Valid(s, run[..|run| - 1]) && Enabled(Exec(s, run[..|run| - 1]), run[|run| - 1]))
  }

  ghost function Exec(s: Sys, run: seq<Action>): Sys
    requires Valid(s, run)
    decreases |run|, 1
  {
    if run == [] then s else Apply(Exec(s, run[..|run| - 1]), run[|run| - 1])
  }

  lemma {:induction false} OneMore(s: Sys, run: seq<Action>, a: Action)
    requires Valid(s, run) && Enabled(Exec(s, run), a)
    ensures Valid(s, run + [a]) && Exec(s, run + [a]) == Apply(Exec(s, run), a)
  {
    assert (run + [a])[..|run + [a]| - 1] == run;
  }

  ghost predicate NoPurge(run: seq<Action>) {
    forall a :: a in run ==> !a.Purge?
  }

  /** A claim of a key applied before happens no later than `window` after that row's stamp. */
  ghost predicate InWindow(s: Sys, a: Action, window: int)
    requires Enabled(s, a)
  {
    a.Do? && (a.move.ClaimFresh? || a.move.ClaimDuplicate?) ==>
      var key := NextKey(s.txns[a.t]);
      key in s.applied ==> s.now <= s.applied[key] + window
  }

  ghost predicate Timely(s: Sys, run: seq<Action>, window: int)
    requires Valid(s, run)
  {
    run == [] ||
    (Timely(s, run[..|run| - 1], window) && InWindow(Exec(s, run[..|run| - 1]), run[|run| - 1], window))
  }

  // ------------------------------------------------------------ the invariant

  function Answered(x: Txn): set<Key>
    requires x.next <= |x.batch|
  {
    set k | k in x.batch[..x.next]
  }

  /** A batch in lock order, locked no further than it has been answered. */
  ghost predicate BatchInv(x: Txn) {
    && x.batch != [] && InLockOrder(x.batch) && (x.driver.Single? ==> |x.batch| == 1)
    && x.next <= |x.batch| && (x.mode.Waiting? ==> x.next < |x.batch|)
    && x.locks <= Answered(x)
  }

  /** Rows under locks, one effect for exactly each handled row, nothing foreign deleted. */
  ghost predicate EffectInv(x: Txn) {
    && x.rows.Keys <= x.locks && x.deleted == {} && x.unhandled <= x.rows.Keys
    && (forall k :: x.effects[k] == if k in x.rows && k !in x.unhandled then 1 else 0)
    && (x.running.Some? ==>
          && x.running.value in x.rows && x.running.value !in x.unhandled
          && x.savepoint == x.effects - multiset{x.running.value})
  }

  ghost predicate TxnInv(x: Txn) {
    && BatchInv(x) && EffectInv(x)
    && (x.driver.Single? && !x.mode.Closing? && x.next == 1 ==> x.batch[0] in x.rows)
  }

  /** Every answered key is recorded, failed or was applied before; a failed key is locked and nobody's. */
  ghost predicate Accounted<K>(
    answered: set<K>, rows: set<K>, failed: set<K>, locks: set<K>, applied: set<K>, committed: set<K>)
  {
    answered <= rows + failed + applied && failed <= locks && failed !! rows && failed !! committed
  }

  ghost predicate AnswersInv(s: Sys, x: Txn)
    requires x.next <= |x.batch|
  {
    Accounted(Answered(x), x.rows.Keys, x.failed, x.locks, s.applied.Keys, s.committed.Keys)
  }

  ghost predicate LocksApart(s: Sys) {
    forall t, u :: t in s.txns && u in s.txns && t != u ==> s.txns[t].locks !! s.txns[u].locks
  }

  ghost predicate Inv(s: Sys) {
    && (forall t :: t in s.txns ==>
                      && t < s.nextTxn && TxnInv(s.txns[t]) && s.txns[t].began <= s.now
                      && s.txns[t].rows.Keys !! s.committed.Keys && AnswersInv(s, s.txns[t]))
    && LocksApart(s)
    && (forall k :: k in s.committed ==> k in s.applied && s.applied[k] == s.committed[k])
  }

  /** No key is applied twice: its log count says whether it was ever committed, and nobody is redoing it. */
  ghost predicate Once(s: Sys) {
    && (forall k :: s.log[k] == if k in s.applied then 1 else 0)
    && (forall t :: t in s.txns ==> s.txns[t].rows.Keys !! s.applied.Keys)
  }

  /** A batch in lock order names no key twice. */
  lemma BatchNeverRepeats(x: Txn)
    requires InLockOrder(x.batch) && x.next < |x.batch|
    ensures NextKey(x) !in Answered(x)
  {
    if NextKey(x) in Answered(x) {
      var i :| 0 <= i < x.next && x.batch[..x.next][i] == NextKey(x);
      IdLessStrict(x.batch[i].id, x.batch[x.next].id, x.batch[i].id);
    }
  }

  lemma AnsweredGrows(x: Txn)
    requires x.next < |x.batch|
    ensures Answered(x.(next := x.next + 1)) == Answered(x) + {NextKey(x)}
  {
    assert x.batch[..x.next + 1] == x.batch[..x.next] + [NextKey(x)];
  }

  /** A claim answers the next key and locks at most that. */
  lemma ClaimKeepsBatchInv(x: Txn, y: Txn)
    requires BatchInv(x) && x.next < |x.batch| && !y.mode.Waiting?
    requires y.batch == x.batch && y.driver == x.driver && y.next == x.next + 1 && y.locks <= x.locks + {NextKey(x)}
    ensures BatchInv(y)
  {
    AnsweredGrows(x);
    assert Answered(y) == Answered(x.(next := x.next + 1));
  }

  lemma FreshKeepsEffectInv(x: Txn, stamp: int)
    requires EffectInv(x) && x.next < |x.batch| && NextKey(x) !in x.locks
    ensures EffectInv(AfterFresh(x, stamp))
  {
    assert NextKey(x) !in x.rows;
  }

  lemma ClaimKeepsTxnInv(x: Txn, m: Move, committed: map<Key, int>)
    requires TxnInv(x) && x.mode.Open? && x.next < |x.batch| && (m.ClaimFresh? || m.ClaimDuplicate?)
    ensures TxnInv(Inside(x, m, committed))
  {
    BatchNeverRepeats(x);
    ClaimKeepsBatchInv(x, Inside(x, m, committed));
    if m.ClaimFresh? { FreshKeepsEffectInv(x, m.stamp); }
  }

  lemma StartKeepsEffectInv(x: Txn, key: Key, committed: map<Key, int>)
    requires EffectInv(x) && x.running.None? && key in x.unhandled
    ensures EffectInv(Inside(x, StartHandler(key), committed))
  {
    var y := Inside(x, StartHandler(key), committed);
    assert y.savepoint == y.effects - multiset{key};
  }

  lemma FailureKeepsEffectInv(x: Txn, committed: map<Key, int>)
    requires EffectInv(x) && x.running.Some?
    ensures EffectInv(AfterHandlerErr(x, committed))
  {
    var y := AfterHandlerErr(x, committed);
    if x.driver.Batch? {
      assert y.rows == x.rows - {x.running.value};
      assert y.effects == x.effects - multiset{x.running.value};
    }
  }

  /** Moves that leave batch, driver and locks alone, and do not make a transaction wait. */
  lemma SameBatch(x: Txn, y: Txn)
    requires BatchInv(x) && y.batch == x.batch && y.driver == x.driver && y.next == x.next && y.locks == x.locks
    requires y.mode.Waiting? ==> x.next < |x.batch|
    ensures BatchInv(y)
  {
    assert Answered(y) == Answered(x);
  }

  lemma MoveKeepsTxnInv(s: Sys, t: nat, m: Move)
    requires t in s.txns && TxnInv(s.txns[t]) && CanMove(s, t, m)
    ensures TxnInv(Inside(s.txns[t], m, s.committed))
  {
    var x, y := s.txns[t], Inside(s.txns[t], m, s.committed);
    if m.ClaimFresh? || m.ClaimDuplicate? {
      ClaimKeepsTxnInv(x, m, s.committed);
    } else {
      SameBatch(x, y);
      if m.StartHandler? {
        StartKeepsEffectInv(x, m.key, s.committed);
      } else if m.HandlerErr? {
        FailureKeepsEffectInv(x, s.committed);
      }
    }
  }

  /** Only a fresh claim adds a row, and only claims add locks. */
  lemma InsideAddsOnlyClaims(x: Txn, m: Move, committed: map<Key, int>)
    requires m.ClaimFresh? || m.ClaimDuplicate? ==> x.next < |x.batch|
    requires m.HandlerErr? ==> x.running.Some?
    ensures var y := Inside(x, m, committed);
            && y.began == x.began && y.batch == x.batch && y.driver == x.driver
            && y.locks <= x.locks + (if m.ClaimFresh? || m.ClaimDuplicate? then {NextKey(x)} else {})
            && y.rows.Keys <= x.rows.Keys + (if m.ClaimFresh? then {NextKey(x)} else {})
  {
  }

  lemma ReplaceKeepsLocksApart(s: Sys, t: nat, y: Txn)
    requires LocksApart(s) && forall u :: u in s.txns && u != t ==> s.txns[u].locks !! y.locks
    ensures LocksApart(s.(txns := s.txns[t := y]))
  {
  }

  /** Replacing one transaction by another that locks nothing taken and repeats nothing committed. */
  lemma ReplaceKeepsInv(s: Sys, t: nat, y: Txn)
    requires Inv(s) && t < s.nextTxn && TxnInv(y) && y.began <= s.now && y.rows.Keys !! s.committed.Keys
    requires AnswersInv(s, y)
    requires forall u :: u in s.txns && u != t ==> s.txns[u].locks !! y.locks
    ensures Inv(s.(txns := s.txns[t := y]))
  {
    ReplaceKeepsLocksApart(s, t, y);
  }

  lemma ClaimKeepsAnswers(s: Sys, x: Txn, y: Txn)
    requires x.next < |x.batch| && y.batch == x.batch && y.next == x.next + 1
    requires AnswersInv(s, x) && x.locks <= y.locks && y.failed == x.failed && NextKey(x) !in x.failed
    requires y.rows.Keys == x.rows.Keys + {NextKey(x)} || (y.rows == x.rows && NextKey(x) in s.applied.Keys)
    ensures AnswersInv(s, y)
  {
    AnsweredGrows(x);
    assert Answered(y) == Answered(x.(next := x.next + 1));
  }

  lemma FailureIsAccounted<K>(
    answered: set<K>, rows: set<K>, failed: set<K>, locks: set<K>, applied: set<K>, committed: set<K>, k: K)
    requires Accounted(answered, rows, failed, locks, applied, committed)
    requires k in rows && rows <= locks && rows !! committed
    ensures Accounted(answered, rows - {k}, failed + {k}, locks, applied, committed)
  {
  }

  lemma FailureKeepsAnswers(s: Sys, x: Txn)
    requires x.next <= |x.batch| && AnswersInv(s, x) && x.running.Some? && x.running.value in x.rows
    requires x.rows.Keys <= x.locks && x.rows.Keys !! s.committed.Keys
    ensures AnswersInv(s, AfterHandlerErr(x, s.committed))
  {
    var y := AfterHandlerErr(x, s.committed);
    assert Answered(y) == Answered(x);
    if x.driver.Batch? {
      assert y.rows.Keys == x.rows.Keys - {x.running.value};
      FailureIsAccounted(
        Answered(x), x.rows.Keys, x.failed, x.locks, s.applied.Keys, s.committed.Keys, x.running.value);
    }
  }

  /** Other moves answer nothing. */
  lemma OtherMovesAnswerNothing(x: Txn, m: Move, committed: map<Key, int>)
    requires !m.ClaimFresh? && !m.ClaimDuplicate? && !m.HandlerErr?
    ensures var y := Inside(x, m, committed);
            && y.batch == x.batch && y.next == x.next
            && y.rows == x.rows && y.failed == x.failed && y.locks == x.locks
  {
  }

  lemma MoveKeepsAnswers(s: Sys, t: nat, m: Move)
    requires Inv(s) && t in s.txns && CanMove(s, t, m)
    ensures var y := Inside(s.txns[t], m, s.committed); y.next <= |y.batch| && AnswersInv(s, y)
  {
    var x, y := s.txns[t], Inside(s.txns[t], m, s.committed);
    assert TxnInv(x) && AnswersInv(s, x);
    if m.ClaimFresh? || m.ClaimDuplicate? {
      BatchNeverRepeats(x);
      ClaimKeepsAnswers(s, x, y);
    } else if m.HandlerErr? {
      FailureKeepsAnswers(s, x);
    } else {
      OtherMovesAnswerNothing(x, m, s.committed);
      assert Answered(y) == Answered(x);
    }
  }

  /** A move inside one transaction disturbs no other. */
  lemma InsideKeepsInv(s: Sys, t: nat, m: Move)
    requires Inv(s) && t in s.txns && CanMove(s, t, m)
    ensures Inv(s.(txns := s.txns[t := Inside(s.txns[t], m, s.committed)]))
  {
    MoveKeepsTxnInv(s, t, m);
    MoveKeepsAnswers(s, t, m);
    var x, y := s.txns[t], Inside(s.txns[t], m, s.committed);
    InsideAddsOnlyClaims(x, m, s.committed);
    forall u | u in s.txns && u != t
      ensures s.txns[u].locks !! y.locks
    {
      assert s.txns[u].locks !! x.locks;
    }
    ReplaceKeepsInv(s, t, y);
  }

  lemma CommitKeepsInv(s: Sys, t: nat)
    requires Inv(s) && t in s.txns
    ensures Inv(Committed(s, t))
  {
    var s', x := Committed(s, t), s.txns[t];
    assert s.committed - x.deleted == s.committed;
    forall u | u in s'.txns
      ensures s'.txns[u].rows.Keys !! s'.committed.Keys && AnswersInv(s', s'.txns[u])
    {
      assert s.txns[u].locks !! x.locks;
      assert AnswersInv(s, s.txns[u]);
    }
  }

  lemma BeginKeepsInv(s: Sys, driver: Driver, batch: seq<Key>)
    requires Inv(s) && Enabled(s, Begin(driver, batch))
    ensures Inv(Apply(s, Begin(driver, batch)))
  {
    assert batch[..0] == [];
    ReplaceKeepsInv(s.(nextTxn := s.nextTxn + 1), s.nextTxn, Opened(s, driver, batch));
  }

  /** Every step keeps the invariant. */
  lemma StepKeepsInv(s: Sys, a: Action)
    requires Inv(s) && Enabled(s, a)
    ensures Inv(Apply(s, a))
  {
    match a
    case Tick(_) =>
    case Begin(driver, batch) => BeginKeepsInv(s, driver, batch);
    case Purge(_, _) =>
    case Do(t, m) =>
      if m.Commit? {
        CommitKeepsInv(s, t);
      } else if m.End? {
      } else {
        InsideKeepsInv(s, t, m);
      }
  }

  lemma CommitKeepsOnce(s: Sys, t: nat)
    requires Inv(s) && Once(s) && t in s.txns && s.txns[t].unhandled == {}
    ensures Once(Committed(s, t))
  {
    var s', x := Committed(s, t), s.txns[t];
    forall u | u in s'.txns
      ensures s'.txns[u].rows.Keys !! s'.applied.Keys
    {
      assert s.txns[u].locks !! x.locks;
    }
  }

  lemma CommitFindsAllHandled(s: Sys, t: nat, replied: bool)
    requires Enabled(s, Do(t, Commit(replied)))
    ensures t in s.txns && s.txns[t].unhandled == {} && Apply(s, Do(t, Commit(replied))) == Committed(s, t)
  {
  }

  lemma {:induction false} CommitStepKeepsOnce(s: Sys, t: nat, replied: bool)
    requires Inv(s) && Once(s) && Enabled(s, Do(t, Commit(replied)))
    ensures Once(Apply(s, Do(t, Commit(replied))))
  {
    CommitFindsAllHandled(s, t, replied);
    CommitKeepsOnce(s, t);
  }

  lemma ReplaceKeepsOnce(s: Sys, t: nat, y: Txn)
    requires Once(s) && y.rows.Keys !! s.applied.Keys
    ensures Once(s.(txns := s.txns[t := y]))
  {
  }

  lemma EndKeepsOnce(s: Sys, t: nat)
    requires Once(s)
    ensures Once(s.(txns := s.txns - {t}))
  {
  }

  /** The step does not claim, as fresh, a key that was applied before. */
  ghost predicate ClaimsNothingApplied(s: Sys, a: Action)
    requires Enabled(s, a)
  {
    a.Do? && a.move.ClaimFresh? ==> NextKey(s.txns[a.t]) !in s.applied
  }

  lemma MoveKeepsOnce(s: Sys, t: nat, m: Move)
    requires Once(s) && Enabled(s, Do(t, m)) && ClaimsNothingApplied(s, Do(t, m))
    ensures Once(s.(txns := s.txns[t := Inside(s.txns[t], m, s.committed)]))
  {
    var x, y := s.txns[t], Inside(s.txns[t], m, s.committed);
    InsideAddsOnlyClaims(x, m, s.committed);
    assert x.rows.Keys !! s.applied.Keys;
    ReplaceKeepsOnce(s, t, y);
  }

  /** Every move but a commit. */
  lemma {:induction false} OtherMovesKeepOnce(s: Sys, t: nat, m: Move)
    requires Once(s) && Enabled(s, Do(t, m)) && ClaimsNothingApplied(s, Do(t, m)) && !m.Commit?
    ensures Once(Apply(s, Do(t, m)))
  {
    if m.End? {
      EndKeepsOnce(s, t);
    } else {
      MoveKeepsOnce(s, t, m);
    }
  }

  /** Steps outside every transaction. */
  lemma OuterStepsKeepOnce(s: Sys, a: Action)
    requires Once(s) && Enabled(s, a) && !a.Do?
    ensures Once(Apply(s, a))
  {
    if a.Begin? { ReplaceKeepsOnce(s, s.nextTxn, Opened(s, a.driver, a.batch)); }
  }

  /** A step keeps `Once` unless it claims, as fresh, a key that was applied before. */
  lemma StepKeepsOnce(s: Sys, a: Action)
    requires Inv(s) && Once(s) && Enabled(s, a) && ClaimsNothingApplied(s, a)
    ensures Once(Apply(s, a))
  {
    if !a.Do? {
      OuterStepsKeepOnce(s, a);
    } else if a.move.Commit? {
      CommitStepKeepsOnce(s, a.t, a.move.replied);
    } else {
      OtherMovesKeepOnce(s, a.t, a.move);
    }
  }

  lemma {:induction false} RunKeepsInv(s: Sys, run: seq<Action>)
    requires Inv(s) && Valid(s, run)
    ensures Inv(Exec(s, run))
  {
    if run != [] {
      RunKeepsInv(s, run[..|run| - 1]);
      StepKeepsInv(Exec(s, run[..|run| - 1]), run[|run| - 1]);
    }
  }

  /**
   Ack safety under concurrency: when a transaction commits, each key of its batch has been applied, by it
   or before, unless its handler failed here, and then its row is nowhere.
   */
  lemma CommitSettlesTheBatch(s: Sys, t: nat, replied: bool, key: Key)
    requires Inv(s) && Enabled(s, Do(t, Commit(replied))) && key in s.txns[t].batch
    ensures var s' := Apply(s, Do(t, Commit(replied)));
            && (key !in s.txns[t].failed ==> key in s'.applied)
            && (key in s.txns[t].failed ==> key !in s'.committed)
  {
    AnsweredIsSettled(s, t, key);
  }

  lemma AnsweredIsSettled(s: Sys, t: nat, key: Key)
    requires t in s.txns && s.txns[t].next == |s.txns[t].batch| && AnswersInv(s, s.txns[t]) && key in s.txns[t].batch
    ensures key !in s.txns[t].failed ==> key in Committed(s, t).applied
    ensures key in s.txns[t].failed ==> key !in Committed(s, t).committed
  {
    var x, s' := s.txns[t], Committed(s, t);
    assert x.batch[..x.next] == x.batch;
    assert key in Answered(x);
    assert s'.applied.Keys == s.applied.Keys + x.rows.Keys;
    assert s'.committed.Keys <= s.committed.Keys + x.rows.Keys;
  }

  ghost predicate AddsRows(s: Sys, s': Sys, rows: set<Key>) {
    && s'.committed.Keys == s.committed.Keys + rows
    && forall k: Key :: s'.log[k] == s.log[k] + if k in rows then 1 else 0
  }

  /** A commit with nothing unhandled adds the transaction's rows, and one effect for each. */
  lemma CommitAddsRows(s: Sys, t: nat)
    requires t in s.txns && EffectInv(s.txns[t]) && s.txns[t].unhandled == {}
    ensures AddsRows(s, Committed(s, t), s.txns[t].rows.Keys)
  {
    assert s.committed - s.txns[t].deleted == s.committed;
  }

  /** Nothing ever makes an applied key unapplied, not even a purge of its row. */
  lemma AppliedOnlyGrows(s: Sys, a: Action)
    requires Enabled(s, a)
    ensures s.applied.Keys <= Apply(s, a).applied.Keys
  {
  }

  // ------------------------------------------------------------ without purge

  /** Committed rows leave only through purge, although `unclaim` carries no ownership guard. */
  lemma OnlyPurgeRemovesRows(s: Sys, a: Action)
    requires Inv(s) && Enabled(s, a) && !a.Purge?
    ensures s.committed.Keys <= Apply(s, a).committed.Keys
    ensures s.applied.Keys == s.committed.Keys ==> Apply(s, a).applied.Keys == Apply(s, a).committed.Keys
  {
    if a.Do? && a.move.Commit? {
      assert s.committed - s.txns[a.t].deleted == s.committed;
    }
  }

  /** A key once seen committed answers `true` to every later `is_known_duplicate`, until a purge. */
  lemma {:induction false} KnownDuplicateStays(s: Sys, run: seq<Action>, key: Key)
    requires Inv(s) && Valid(s, run) && NoPurge(run) && key in s.committed
    ensures key in Exec(s, run).committed
  {
    if run != [] {
      var prefix, last := run[..|run| - 1], run[|run| - 1];
      assert last in run;
      KnownDuplicateStays(s, prefix, key);
      RunKeepsInv(s, prefix);
      OnlyPurgeRemovesRows(Exec(s, prefix), last);
    }
  }

  /** Without purge a key is applied exactly when its row is there, so nothing applied is claimed as fresh. */
  lemma StepWithoutPurge(s: Sys, a: Action)
    requires Inv(s) && Once(s) && s.applied.Keys == s.committed.Keys && Enabled(s, a) && !a.Purge?
    ensures var s' := Apply(s, a); Inv(s') && Once(s') && s'.applied.Keys == s'.committed.Keys
  {
    StepKeepsInv(s, a);
    assert forall k :: k in s.applied <==> k in s.committed by {
      assert forall k :: k in s.applied.Keys <==> k in s.committed.Keys;
    }
    StepKeepsOnce(s, a);
    OnlyPurgeRemovesRows(s, a);
  }

  lemma {:induction false} WithoutPurgeOnce(now: int, maxAge: nat, run: seq<Action>)
    requires Valid(Init(now, maxAge), run) && NoPurge(run)
    ensures var s := Exec(Init(now, maxAge), run);
            Inv(s) && Once(s) && s.applied.Keys == s.committed.Keys
  {
    if run != [] {
      var prefix, last := run[..|run| - 1], run[|run| - 1];
      assert last in run;
      WithoutPurgeOnce(now, maxAge, prefix);
      StepWithoutPurge(Exec(Init(now, maxAge), prefix), last);
    }
  }

  /**
   Exactly once: over every interleaving without purge, a key has one durable handler effect if its row
   is committed and none otherwise.
   */
  lemma ExactlyOnce(now: int, maxAge: nat, run: seq<Action>)
    requires Valid(Init(now, maxAge), run) && NoPurge(run)
    ensures forall k :: Exec(Init(now, maxAge), run).log[k] ==
                        if k in Exec(Init(now, maxAge), run).committed then 1 else 0
  {
    WithoutPurgeOnce(now, maxAge, run);
    var s := Exec(Init(now, maxAge), run);
    assert forall k :: k in s.applied <==> k in s.applied.Keys;
  }

  // ------------------------------------------------------------ with purge

  /** Within `maxAge` of its stamp, an applied row is still there. */
  ghost predicate Retained(s: Sys) {
    forall k :: k in s.applied && s.now <= s.applied[k] + s.maxAge ==> k in s.committed
  }

  lemma StepKeepsRetained(s: Sys, a: Action)
    requires Inv(s) && Retained(s) && Enabled(s, a)
    ensures Retained(Apply(s, a))
  {
    if a.Do? && a.move.Commit? {
      assert s.committed - s.txns[a.t].deleted == s.committed;
    }
  }

  lemma {:induction false} WithinWindowOnce(now: int, maxAge: nat, run: seq<Action>)
    requires Valid(Init(now, maxAge), run) && Timely(Init(now, maxAge), run, maxAge)
    ensures var s := Exec(Init(now, maxAge), run);
            Inv(s) && Once(s) && Retained(s) && s.maxAge == maxAge
  {
    if run != [] {
      var prefix, last := run[..|run| - 1], run[|run| - 1];
      WithinWindowOnce(now, maxAge, prefix);
      var s := Exec(Init(now, maxAge), prefix);
      StepKeepsInv(s, last);
      StepKeepsRetained(s, last);
      StepKeepsOnce(s, last);
    }
  }

  /** Exactly once survives purge: claims no later than `processed_at + max_age` never repeat an effect. */
  lemma ExactlyOnceWithinWindow(now: int, maxAge: nat, run: seq<Action>)
    requires Valid(Init(now, maxAge), run) && Timely(Init(now, maxAge), run, maxAge)
    ensures forall k :: Exec(Init(now, maxAge), run).log[k] ==
                        if k in Exec(Init(now, maxAge), run).applied then 1 else 0
  {
    WithinWindowOnce(now, maxAge, run);
  }

  // ------------------------------------------------------------ the window is exact

  lemma {:induction false} Extend(s: Sys, run: seq<Action>, a: Action, window: int)
    requires Valid(s, run) && Timely(s, run, window)
    requires Enabled(Exec(s, run), a) && InWindow(Exec(s, run), a, window)
    ensures Valid(s, run + [a]) && Timely(s, run + [a], window)
    ensures Exec(s, run + [a]) == Apply(Exec(s, run), a)
  {
    assert (run + [a])[..|run + [a]| - 1] == run;
  }

  ghost predicate Leads(s: Sys, a: Action, s': Sys, window: int) {
    Enabled(s, a) && InWindow(s, a, window) && Apply(s, a) == s'
  }

  lemma {:induction false} ExtendTo(s: Sys, run: seq<Action>, a: Action, s': Sys, window: int)
    requires Valid(s, run) && Timely(s, run, window) && Leads(Exec(s, run), a, s', window)
    ensures Valid(s, run + [a]) && Timely(s, run + [a], window) && Exec(s, run + [a]) == s'
  {
    Extend(s, run, a, window);
  }

  lemma {:induction false} ExtendTwice(
    s: Sys, run: seq<Action>, a: Action, s1: Sys, b: Action, s2: Sys, window: int)
    requires Valid(s, run) && Timely(s, run, window)
    requires Leads(Exec(s, run), a, s1, window) && Leads(s1, b, s2, window)
    ensures var run' := run + [a] + [b]; Valid(s, run') && Timely(s, run', window) && Exec(s, run') == s2
  {
    ExtendTo(s, run, a, s1, window);
    ExtendTo(s, run + [a], b, s2, window);
  }

  /** The four steps in which transaction `t`, alone and just opened for `key`, processes it. */
  function Processing(t: nat, key: Key, now: int): seq<Action> {
    [Do(t, ClaimFresh(now)), Do(t, StartHandler(key)), Do(t, HandlerOk), Do(t, Commit(true))]
  }

  /** The state right after those steps. */
  function Processed(s: Sys, key: Key): Sys {
    s.(committed := s.committed[key := s.now], applied := s.applied[key := s.now],
       log := s.log + multiset{key}, txns := map[])
  }

  ghost predicate OpenedAlone(s: Sys, t: nat, key: Key) {
    && s.txns.Keys == {t} && s.txns[t] == Opened(s.(now := s.txns[t].began), Single, [key])
    && s.txns[t].began <= s.now && key !in s.committed
  }

  /** The states those steps pass through. */
  function Stage(s: Sys, t: nat, key: Key, n: nat): Sys
    requires t in s.txns && s.txns[t].next < |s.txns[t].batch|
  {
    var x1 := AfterFresh(s.txns[t], s.now);
    var x2 := Inside(x1, StartHandler(key), s.committed);
    if n == 0 then s
    else if n == 1 then s.(txns := s.txns[t := x1])
    else if n == 2 then s.(txns := s.txns[t := x2])
    else if n == 3 then s.(txns := s.txns[t := x2.(running := None)])
    else Processed(s, key)
  }

  lemma {:induction false} ClaimStage(s: Sys, t: nat, key: Key, window: int)
    requires OpenedAlone(s, t, key) && (key in s.applied ==> s.now <= s.applied[key] + window)
    ensures Leads(s, Do(t, ClaimFresh(s.now)), Stage(s, t, key, 1), window)
  {
    assert NextKey(s.txns[t]) == key;
    assert !LockedByAnother(s, t, key);
  }

  lemma {:induction false} HandlerStages(s: Sys, t: nat, key: Key, window: int)
    requires OpenedAlone(s, t, key)
    ensures Leads(Stage(s, t, key, 1), Do(t, StartHandler(key)), Stage(s, t, key, 2), window)
    ensures Leads(Stage(s, t, key, 2), Do(t, HandlerOk), Stage(s, t, key, 3), window)
  {
    var x1 := AfterFresh(s.txns[t], s.now);
    var x2 := Inside(x1, StartHandler(key), s.committed);
    assert x1.unhandled == {key};
    assert Stage(s, t, key, 1).txns[t := x2] == s.txns[t := x2];
    assert Stage(s, t, key, 2).txns[t := x2.(running := None)] == s.txns[t := x2.(running := None)];
  }

  lemma {:induction false} CommitStage(s: Sys, t: nat, key: Key, window: int)
    requires OpenedAlone(s, t, key)
    ensures Leads(Stage(s, t, key, 3), Do(t, Commit(true)), Stage(s, t, key, 4), window)
  {
    var x := Stage(s, t, key, 3).txns[t];
    assert x.unhandled == {};
    CommitOf(s, Stage(s, t, key, 3), t, key, x);
  }

  lemma {:induction false} StageStep(s: Sys, t: nat, key: Key, n: nat, window: int)
    requires OpenedAlone(s, t, key) && n < 4
    requires key in s.applied ==> s.now <= s.applied[key] + window
    ensures Leads(Stage(s, t, key, n), Processing(t, key, s.now)[n], Stage(s, t, key, n + 1), window)
  {
    if n == 0 {
      ClaimStage(s, t, key, window);
    } else if n < 3 {
      HandlerStages(s, t, key, window);
    } else {
      CommitStage(s, t, key, window);
    }
  }

  /** Two of those steps, from the stage reached so far. */
  lemma {:induction false} TwoStages(s: Sys, run: seq<Action>, e: Sys, t: nat, key: Key, n: nat, window: int)
    requires Valid(s, run) && Timely(s, run, window) && n <= 2
    requires OpenedAlone(e, t, key) && Exec(s, run) == Stage(e, t, key, n)
    requires key in e.applied ==> e.now <= e.applied[key] + window
    ensures var p := Processing(t, key, e.now);
            var run' := run + [p[n]] + [p[n + 1]];
            Valid(s, run') && Timely(s, run', window) && Exec(s, run') == Stage(e, t, key, n + 2)
  {
    var p := Processing(t, key, e.now);
    StageStep(e, t, key, n, window);
    StageStep(e, t, key, n + 1, window);
    ExtendTwice(s, run, p[n], Stage(e, t, key, n + 1), p[n + 1], Stage(e, t, key, n + 2), window);
  }

  lemma {:induction false} ProcessIt(s: Sys, run: seq<Action>, t: nat, key: Key, window: int)
    requires Valid(s, run) && Timely(s, run, window)
    requires OpenedAlone(Exec(s, run), t, key)
    requires key in Exec(s, run).applied ==> Exec(s, run).now <= Exec(s, run).applied[key] + window
    ensures var run' := run + Processing(t, key, Exec(s, run).now);
            Valid(s, run') && Timely(s, run', window) && Exec(s, run') == Processed(Exec(s, run), key)
  {
    var e := Exec(s, run);
    var p := Processing(t, key, e.now);
    TwoStages(s, run, e, t, key, 0, window);
    TwoStages(s, run + [p[0]] + [p[1]], e, t, key, 2, window);
    assert run + p == run + [p[0]] + [p[1]] + [p[2]] + [p[3]];
  }

  lemma {:induction false} CommitOf(e: Sys, e3: Sys, t: nat, key: Key, x: Txn)
    requires e.txns.Keys == {t} && e3 == e.(txns := e.txns[t := x])
    requires x.rows == map[key := e.now] && x.deleted == {} && x.effects == multiset{key}
    ensures Committed(e3, t) == Processed(e, key)
  {
    assert e.committed - {} == e.committed;
    assert e.committed + map[key := e.now] == e.committed[key := e.now];
    assert e.applied + map[key := e.now] == e.applied[key := e.now];
    assert (e3.txns - {t}).Keys == {};
  }

  /** Every transaction began no later than `window` after the stamps of the keys it was opened for. */
  ghost predicate ArrivalsInTime(s: Sys, run: seq<Action>, window: int)
    requires Valid(s, run)
  {
    run == [] ||
    (ArrivalsInTime(s, run[..|run| - 1], window) &&
     var e, a := Exec(s, run[..|run| - 1]), run[|run| - 1];
     a.Begin? ==> forall k :: k in a.batch && k in e.applied ==> e.now <= e.applied[k] + window)
  }

  lemma {:induction false} NoArrivals(s: Sys, run: seq<Action>, more: seq<Action>, window: int)
    requires Valid(s, run) && ArrivalsInTime(s, run, window) && Valid(s, run + more)
    requires forall a :: a in more ==> !a.Begin?
    ensures ArrivalsInTime(s, run + more, window)
  {
    if more == [] {
      assert run + more == run;
    } else {
      var n := |more| - 1;
      assert (run + more)[..|run + more| - 1] == run + more[..n];
      assert more[n] in more;
      NoArrivals(s, run, more[..n], window);
    }
  }

  /** The same message delivered twice; the second claim waits until a purge has passed. */
  function LateRun(key: Key, maxAge: nat): seq<Action> {
    [Begin(Single, [key])] + Processing(0, key, 0)
    + [Begin(Single, [key])] + [Tick(maxAge + 1), Purge({key}, 1)] + Processing(1, key, maxAge + 1)
  }

  lemma {:induction false} FirstDelivery(key: Key, maxAge: nat)
    ensures var run := [Begin(Single, [key])] + Processing(0, key, 0);
            && Valid(Init(0, maxAge), run) && Timely(Init(0, maxAge), run, maxAge + 1)
            && ArrivalsInTime(Init(0, maxAge), run, 0)
            && Exec(Init(0, maxAge), run) ==
               Sys(0, maxAge, map[key := 0], multiset{key}, map[key := 0], map[], 1)
  {
    var s, begin := Init(0, maxAge), Begin(Single, [key]);
    var started := s.(txns := map[0 := Opened(s, Single, [key])], nextTxn := 1);
    assert Leads(s, begin, started, maxAge + 1);
    ExtendTo(s, [], begin, started, maxAge + 1);
    assert [] + [begin] == [begin];
    ArrivesInTime(s, [], begin, 0);
    ProcessIt(s, [begin], 0, key, maxAge + 1);
    NoArrivals(s, [begin], Processing(0, key, 0), 0);
  }

  lemma {:induction false} ArrivesInTime(s: Sys, run: seq<Action>, a: Action, window: int)
    requires Valid(s, run) && ArrivalsInTime(s, run, window) && Valid(s, run + [a]) && a.Begin?
    requires var e := Exec(s, run); forall k :: k in a.batch && k in e.applied ==> e.now <= e.applied[k] + window
    ensures ArrivalsInTime(s, run + [a], window)
  {
    assert (run + [a])[..|run + [a]| - 1] == run;
  }

  /** The second delivery begins at once. */
  lemma {:induction false} SecondDelivery(key: Key, maxAge: nat)
    ensures var s := Init(0, maxAge);
            var begun := [Begin(Single, [key])] + Processing(0, key, 0) + [Begin(Single, [key])];
            && Valid(s, begun) && Timely(s, begun, maxAge + 1) && ArrivalsInTime(s, begun, 0)
            && Exec(s, begun) == Sys(0, maxAge, map[key := 0], multiset{key}, map[key := 0],
                                     map[1 := Opened(s, Single, [key])], 2)
  {
    var s, begin := Init(0, maxAge), Begin(Single, [key]);
    var first := [begin] + Processing(0, key, 0);
    FirstDelivery(key, maxAge);
    Extend(s, first, begin, maxAge + 1);
    ArrivesInTime(s, first, begin, 0);
  }

  lemma WaitingLeadsToPurge(e: Sys, key: Key, window: int)
    requires e.now == 0 && e.committed == map[key := 0]
    ensures var later := e.(now := e.maxAge + 1);
            && Leads(e, Tick(e.maxAge + 1), later, window)
            && Leads(later, Purge({key}, 1), later.(committed := map[]), window)
  {
    assert map[key := 0] - {key} == map[];
  }

  lemma {:induction false} WaitAndPurge(s: Sys, run: seq<Action>, key: Key, window: int)
    requires Valid(s, run) && Timely(s, run, window)
    requires var e := Exec(s, run); e.now == 0 && e.committed == map[key := 0]
    ensures var e := Exec(s, run);
            var run' := run + [Tick(e.maxAge + 1), Purge({key}, 1)];
            Valid(s, run') && Timely(s, run', window) && Exec(s, run') == e.(now := e.maxAge + 1, committed := map[])
  {
    var e := Exec(s, run);
    var later := e.(now := e.maxAge + 1);
    WaitingLeadsToPurge(e, key, window);
    ExtendTwice(s, run, Tick(e.maxAge + 1), later, Purge({key}, 1), later.(committed := map[]), window);
    assert run + [Tick(e.maxAge + 1)] + [Purge({key}, 1)] == run + [Tick(e.maxAge + 1), Purge({key}, 1)];
  }

  /** The purged message, waiting in transaction 1, is processed again. */
  lemma {:induction false} ProcessAgain(s: Sys, run: seq<Action>, key: Key, maxAge: nat)
    requires Valid(s, run) && Timely(s, run, maxAge + 1)
    requires Exec(s, run) == Sys(maxAge + 1, maxAge, map[], multiset{key}, map[key := 0],
                                 map[1 := Opened(Init(0, maxAge), Single, [key])], 2)
    ensures var run' := run + Processing(1, key, maxAge + 1);
            Valid(s, run') && Timely(s, run', maxAge + 1) && Exec(s, run').log[key] == 2
  {
    assert OpenedAlone(Exec(s, run), 1, key);
    ProcessIt(s, run, 1, key, maxAge + 1);
  }

  /** One tick past the retention window, a purge lets a delivery that arrived at once be applied again. */
  lemma {:induction false} LateClaimAppliesTwice(key: Key, maxAge: nat)
    ensures var s, run := Init(0, maxAge), LateRun(key, maxAge);
            && Valid(s, run) && Timely(s, run, maxAge + 1) && ArrivalsInTime(s, run, 0)
            && Exec(s, run).log[key] == 2
  {
    var s := Init(0, maxAge);
    var begun := [Begin(Single, [key])] + Processing(0, key, 0) + [Begin(Single, [key])];
    var waited := [Tick(maxAge + 1), Purge({key}, 1)];
    SecondDelivery(key, maxAge);
    WaitAndPurge(s, begun, key, maxAge + 1);
    ProcessAgain(s, begun + waited, key, maxAge);
    LateRunSplits(key, maxAge);
    NoArrivals(s, begun, waited + Processing(1, key, maxAge + 1), 0);
  }

  lemma LateRunSplits(key: Key, maxAge: nat)
    ensures var begun := [Begin(Single, [key])] + Processing(0, key, 0) + [Begin(Single, [key])];
            var waited := [Tick(maxAge + 1), Purge({key}, 1)];
            && LateRun(key, maxAge) == begun + waited + Processing(1, key, maxAge + 1)
            && LateRun(key, maxAge) == begun + (waited + Processing(1, key, maxAge + 1))
            && forall a :: a in waited + Processing(1, key, maxAge + 1) ==> !a.Begin?
  {
  }

  /** Runs whose claims stay within `window` apply no key twice. */
  ghost predicate OnceWithin(maxAge: nat, window: int) {
    forall run, key :: Valid(Init(0, maxAge), run) && Timely(Init(0, maxAge), run, window) ==>
                         Exec(Init(0, maxAge), run).log[key] <= 1
  }

  lemma {:induction false} TimelyIsMonotone(s: Sys, run: seq<Action>, window: int, wider: int)
    requires Valid(s, run) && Timely(s, run, window) && window <= wider
    ensures Timely(s, run, wider)
  {
    if run != [] { TimelyIsMonotone(s, run[..|run| - 1], window, wider); }
  }

  /** `max_age` is the exact bound: redelivery windows up to it, and no longer one, are safe under purge. */
  lemma {:induction false} RetentionWindowIsExact(maxAge: nat, window: int)
    ensures OnceWithin(maxAge, window) <==> window <= maxAge
  {
    if window <= maxAge {
      forall run, key | Valid(Init(0, maxAge), run) && Timely(Init(0, maxAge), run, window)
        ensures Exec(Init(0, maxAge), run).log[key] <= 1
      {
        TimelyIsMonotone(Init(0, maxAge), run, window, maxAge);
        ExactlyOnceWithinWindow(0, maxAge, run);
      }
    } else {
      var key := Key("orders", "m");
      LateClaimAppliesTwice(key, maxAge);
      TimelyIsMonotone(Init(0, maxAge), LateRun(key, maxAge), maxAge + 1, window);
    }
  }
}
