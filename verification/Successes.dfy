/**
 Whose effects last: read off the moves of a run alone, which handlers succeeded and were committed, and
 that the durable log holds these and no other.
 */
module Successes {
  import opened Results
  import opened Ids
  import opened Protocol

  /** The handler a transaction has started and not ended, by its moves. */
  function Started(run: seq<Action>, t: nat): Option<Key> {
    if run == [] then None
    else
      match run[|run| - 1]
      case Do(u, StartHandler(key)) => if u == t then Some(key) else Started(run[..|run| - 1], t)
      case Do(u, HandlerOk) => if u == t then None else Started(run[..|run| - 1], t)
      case Do(u, HandlerErr) => if u == t then None else Started(run[..|run| - 1], t)
      case _ => Started(run[..|run| - 1], t)
  }

  function Only(key: Option<Key>): set<Key> {
    if key.Some? then {key.value} else {}
  }

  /** The keys whose handler, started in this transaction, returned `Ok`. */
  function Succeeded(run: seq<Action>, t: nat): set<Key> {
    if run == [] then {}
    else
      var before := run[..|run| - 1];
      Succeeded(before, t) + if run[|run| - 1] == Do(t, HandlerOk) then Only(Started(before, t)) else {}
  }

  /** Every commit contributes the handlers that had succeeded in its transaction. */
  function Successes(run: seq<Action>): multiset<Key> {
    if run == [] then multiset{}
    else
      var before, last := run[..|run| - 1], run[|run| - 1];
      Successes(before) + if last.Do? && last.move.Commit? then multiset(Succeeded(before, last.t)) else multiset{}
  }

  /** The transaction is where its moves have brought it: its handled rows are the handlers that succeeded. */
  ghost predicate Traced(x: Txn, started: Option<Key>, succeeded: set<Key>) {
    x.mode.Closing? ||
    (x.running == started && succeeded == x.rows.Keys - x.unhandled - Only(x.running))
  }

  ghost predicate TraceInv(s: Sys, run: seq<Action>) {
    && (forall t :: t in s.txns ==> Traced(s.txns[t], Started(run, t), Succeeded(run, t)))
    && (forall t: nat :: t >= s.nextTxn ==> Started(run, t) == None && Succeeded(run, t) == {})
  }

  /** What a move does to its transaction's trace. */
  function StartedAfter(started: Option<Key>, m: Move): Option<Key> {
    match m
    case StartHandler(key) => Some(key)
    case HandlerOk => None
    case HandlerErr => None
    case _ => started
  }

  lemma {:induction false} TraceOfMove(run: seq<Action>, t: nat, m: Move)
    ensures Started(run + [Do(t, m)], t) == StartedAfter(Started(run, t), m)
    ensures Succeeded(run + [Do(t, m)], t) ==
            Succeeded(run, t) + if m.HandlerOk? then Only(Started(run, t)) else {}
  {
    assert (run + [Do(t, m)])[..|run|] == run;
  }

  lemma {:induction false} TraceOfOthers(run: seq<Action>, a: Action, t: nat)
    requires !(a.Do? && a.t == t)
    ensures Started(run + [a], t) == Started(run, t) && Succeeded(run + [a], t) == Succeeded(run, t)
  {
    assert (run + [a])[..|run|] == run;
  }

  lemma ClaimKeepsTraced(x: Txn, m: Move, committed: map<Key, int>, started: Option<Key>, succeeded: set<Key>)
    requires Traced(x, started, succeeded) && x.mode.Open? && x.next < |x.batch| && x.unhandled <= x.rows.Keys
    requires m.ClaimDuplicate? || (m.ClaimFresh? && NextKey(x) !in x.rows)
    ensures Traced(Inside(x, m, committed), started, succeeded)
  {
    var y := Inside(x, m, committed);
    assert y.rows.Keys - y.unhandled == x.rows.Keys - x.unhandled;
  }

  lemma HandlerKeepsTraced(x: Txn, m: Move, committed: map<Key, int>, started: Option<Key>, succeeded: set<Key>)
    requires Traced(x, started, succeeded) && x.mode.Open? && EffectInv(x)
    requires if x.running.Some? then m.HandlerOk? || m.HandlerErr? else m.StartHandler? && m.key in x.unhandled
    ensures Traced(Inside(x, m, committed), StartedAfter(started, m),
                   succeeded + if m.HandlerOk? then Only(started) else {})
  {
    var y := Inside(x, m, committed);
    if m.HandlerErr? && x.driver.Batch? {
      assert y.rows.Keys == x.rows.Keys - {x.running.value};
    } else if m.StartHandler? {
      assert x.rows.Keys - y.unhandled - {m.key} == x.rows.Keys - x.unhandled;
    } else if m.HandlerOk? {
      assert succeeded + {x.running.value} == x.rows.Keys - x.unhandled;
    }
  }

  lemma FreshIsNew(x: Txn)
    requires TxnInv(x) && x.next < |x.batch|
    ensures NextKey(x) !in x.rows
  {
    BatchNeverRepeats(x);
    assert x.rows.Keys <= Answered(x);
  }

  lemma InsideKeepsTraced(s: Sys, run: seq<Action>, t: nat, m: Move)
    requires t in s.txns && TxnInv(s.txns[t]) && CanMove(s, t, m) && !m.Commit? && !m.End?
    requires Traced(s.txns[t], Started(run, t), Succeeded(run, t))
    ensures Traced(Inside(s.txns[t], m, s.committed), Started(run + [Do(t, m)], t), Succeeded(run + [Do(t, m)], t))
  {
    TraceOfMove(run, t, m);
    if m.ClaimFresh? || m.ClaimDuplicate? {
      FreshIsNew(s.txns[t]);
      ClaimKeepsTraced(s.txns[t], m, s.committed, Started(run, t), Succeeded(run, t));
    } else if m.StartHandler? || m.HandlerOk? || m.HandlerErr? {
      HandlerKeepsTraced(s.txns[t], m, s.committed, Started(run, t), Succeeded(run, t));
    }
  }

  /** No move of one transaction shows in the trace of another. */
  lemma OthersKeepTraced(s: Sys, run: seq<Action>, a: Action, t: nat)
    requires Enabled(s, a) && TraceInv(s, run) && !(a.Do? && a.t == t)
    ensures t in Apply(s, a).txns ==> Traced(Apply(s, a).txns[t], Started(run + [a], t), Succeeded(run + [a], t))
    ensures t >= Apply(s, a).nextTxn ==> Started(run + [a], t) == None && Succeeded(run + [a], t) == {}
  {
    TraceOfOthers(run, a, t);
    if a.Begin? && t == s.nextTxn {
      assert Traced(Opened(s, a.driver, a.batch), None, {});
    }
  }

  lemma {:induction false} StepKeepsTraceInv(s: Sys, run: seq<Action>, a: Action)
    requires Inv(s) && Enabled(s, a) && TraceInv(s, run)
    ensures TraceInv(Apply(s, a), run + [a])
  {
    forall t: nat
      ensures t in Apply(s, a).txns ==>
                Traced(Apply(s, a).txns[t], Started(run + [a], t), Succeeded(run + [a], t))
      ensures t >= Apply(s, a).nextTxn ==> Started(run + [a], t) == None && Succeeded(run + [a], t) == {}
    {
      if a.Do? && a.t == t {
        if !a.move.Commit? && !a.move.End? { InsideKeepsTraced(s, run, t, a.move); }
      } else {
        OthersKeepTraced(s, run, a, t);
      }
    }
  }

  lemma {:induction false} EveryRunIsTraced(now: int, maxAge: nat, run: seq<Action>)
    requires Valid(Init(now, maxAge), run)
    ensures TraceInv(Exec(Init(now, maxAge), run), run)
  {
    if run != [] {
      var before, last := run[..|run| - 1], run[|run| - 1];
      EveryRunIsTraced(now, maxAge, before);
      RunKeepsInv(Init(now, maxAge), before);
      StepKeepsTraceInv(Exec(Init(now, maxAge), before), before, last);
      assert before + [last] == run;
    }
  }

  /** A commit adds exactly the rows, and one effect for each, of the handlers that succeeded in it. */
  lemma {:induction false} CommitAddsSuccesses(now: int, maxAge: nat, run: seq<Action>, t: nat, replied: bool)
    requires Valid(Init(now, maxAge), run) && Enabled(Exec(Init(now, maxAge), run), Do(t, Commit(replied)))
    ensures var s := Exec(Init(now, maxAge), run);
            && s.txns[t].rows.Keys == Succeeded(run, t)
            && AddsRows(s, Apply(s, Do(t, Commit(replied))), s.txns[t].rows.Keys)
  {
    var s := Exec(Init(now, maxAge), run);
    EveryRunIsTraced(now, maxAge, run);
    RunKeepsInv(Init(now, maxAge), run);
    CommitFindsAllHandled(s, t, replied);
    HandledSucceeded(s.txns[t], Started(run, t), Succeeded(run, t));
    assert TxnInv(s.txns[t]);
    CommitAddsRows(s, t);
  }

  lemma HandledSucceeded(x: Txn, started: Option<Key>, succeeded: set<Key>)
    requires Traced(x, started, succeeded) && Idle(x) && x.unhandled == {}
    ensures x.rows.Keys == succeeded
  {
  }

  /** Nothing but a commit adds a row, an effect or a mark of application. */
  lemma OnlyCommitsAdd(s: Sys, a: Action)
    requires Enabled(s, a) && !(a.Do? && a.move.Commit?)
    ensures var s' := Apply(s, a);
            s'.log == s.log && s'.applied == s.applied && s'.committed.Keys <= s.committed.Keys
  {
  }

  lemma AddedEffects(s: Sys, s': Sys, rows: set<Key>)
    requires AddsRows(s, s', rows)
    ensures s'.log == s.log + multiset(rows)
  {
  }

  /**
   Over every run the durable effects are exactly the handlers that succeeded in a transaction that
   committed: a handler that failed, or whose transaction did not commit, leaves none.
   */
  lemma {:induction false} LogIsSuccesses(now: int, maxAge: nat, run: seq<Action>)
    requires Valid(Init(now, maxAge), run)
    ensures Exec(Init(now, maxAge), run).log == Successes(run)
  {
    if run != [] {
      var before, last := run[..|run| - 1], run[|run| - 1];
      var s := Exec(Init(now, maxAge), before);
      LogIsSuccesses(now, maxAge, before);
      if last.Do? && last.move.Commit? {
        CommitAddsSuccesses(now, maxAge, before, last.t, last.move.replied);
        AddedEffects(s, Apply(s, last), Succeeded(before, last.t));
      } else {
        OnlyCommitsAdd(s, last);
      }
    }
  }

  // ------------------------------------------------------------ transactions that cannot commit

  /** A transaction that was lost, or whose only handler failed, can do nothing but end. */
  lemma ClosingOnlyEnds(s: Sys, t: nat, m: Move)
    requires t in s.txns && s.txns[t].mode.Closing? && CanMove(s, t, m)
    ensures m == Break || m == End
    ensures var s' := Apply(s, Do(t, m));
            && s'.committed == s.committed && s'.log == s.log && s'.applied == s.applied
            && (t in s'.txns ==> s'.txns[t].mode.Closing?)
  {
  }

  /** The transaction is over, or can only end. */
  ghost predicate Lost(s: Sys, t: nat) {
    t < s.nextTxn && (t in s.txns ==> s.txns[t].mode.Closing?)
  }

  lemma StepKeepsLost(s: Sys, a: Action, t: nat)
    requires Lost(s, t) && Enabled(s, a)
    ensures Lost(Apply(s, a), t) && forall replied :: a != Do(t, Commit(replied))
  {
    if a.Do? && a.t == t { ClosingOnlyEnds(s, t, a.move); }
  }

  /** Once closing, a transaction never commits, whatever follows. */
  lemma {:induction false} ClosingNeverCommits(s: Sys, run: seq<Action>, t: nat)
    requires Lost(s, t) && Valid(s, run)
    ensures Lost(Exec(s, run), t) && forall replied :: Do(t, Commit(replied)) !in run
  {
    if run != [] {
      var before, last := run[..|run| - 1], run[|run| - 1];
      ClosingNeverCommits(s, before, t);
      StepKeepsLost(Exec(s, before), last, t);
      assert run == before + [last];
    }
  }

  /** A single delivery whose handler failed, and any transaction that broke, is closing. */
  lemma FailureCloses(s: Sys, t: nat, m: Move)
    requires t in s.txns && CanMove(s, t, m)
    requires m.Break? || (m.HandlerErr? && s.txns[t].driver.Single?)
    ensures t in Apply(s, Do(t, m)).txns && Apply(s, Do(t, m)).txns[t].mode.Closing?
  {
  }

  /** So after a failed handler, `process` never commits: over every run that follows, its key gains nothing. */
  lemma {:induction false} FailedProcessNeverCommits(s: Sys, t: nat, run: seq<Action>)
    requires Inv(s) && t in s.txns && s.txns[t].driver.Single? && Enabled(s, Do(t, HandlerErr))
    requires Valid(Apply(s, Do(t, HandlerErr)), run)
    ensures forall replied :: Do(t, Commit(replied)) !in run
  {
    StepKeepsInv(s, Do(t, HandlerErr));
    FailureCloses(s, t, HandlerErr);
    ClosingNeverCommits(Apply(s, Do(t, HandlerErr)), run, t);
  }

  // ------------------------------------------------------------ what may come between, locks and waiting

  /** Any transaction may be lost or dropped at any time; handlers may fail, replies get lost, duplicates lock. */
  lemma AnythingMayCome(s: Sys, t: nat)
    requires t in s.txns
    ensures Enabled(s, Do(t, Break)) && Enabled(s, Do(t, End))
    ensures Enabled(s, Do(t, HandlerErr)) <==> Enabled(s, Do(t, HandlerOk))
    ensures Enabled(s, Do(t, Commit(false))) <==> Enabled(s, Do(t, Commit(true)))
    ensures Enabled(s, Do(t, ClaimDuplicate(true))) <==> Enabled(s, Do(t, ClaimDuplicate(false)))
  {
  }

  /** A row is stamped with any time from its transaction's start to the claim, as backends differ there. */
  lemma AnyStampMayCome(s: Sys, t: nat, stamp: int)
    requires t in s.txns && s.txns[t].mode.Open? && s.txns[t].next < |s.txns[t].batch|
    requires NextKey(s.txns[t]) !in s.committed && !LockedByAnother(s, t, NextKey(s.txns[t]))
    ensures Enabled(s, Do(t, ClaimFresh(stamp))) <==> s.txns[t].began <= stamp <= s.now
  {
  }

  /** Any set of rows stamped more than `max_age` ago may be purged, at any moment, and no other. */
  lemma AnyExpiredRowsMayGo(s: Sys, keys: set<Key>, cutoff: int)
    requires keys <= s.committed.Keys
    ensures Enabled(s, Purge(keys, cutoff)) <==>
            cutoff <= s.now - s.maxAge && forall k :: k in keys ==> s.committed[k] < cutoff
  {
  }

  /** A claim locks its key against the others if it inserted the row, or found it on a backend that locks. */
  lemma ClaimLocksOthersOut(s: Sys, t: nat, m: Move, u: nat)
    requires t in s.txns && CanMove(s, t, m) && (m.ClaimFresh? || m.ClaimDuplicate?) && u != t
    ensures var s', key := Apply(s, Do(t, m)), NextKey(s.txns[t]);
            LockedByAnother(s', u, key) <==> m.ClaimFresh? || m.locking || key in s.txns[t].locks
  {
    var s', key := Apply(s, Do(t, m)), NextKey(s.txns[t]);
    assert t in s'.txns;
    if LockedByAnother(s', u, key) {
      var v :| v in s'.txns && v != u && key in s'.txns[v].locks;
      assert v == t || LockedByAnother(s, t, key);
    }
  }

  /** A claim that finds its key locked waits: until the key is free it can only be given up. */
  lemma BlockedWaits(s: Sys, t: nat)
    requires t in s.txns && CanMove(s, t, Block)
    ensures var s' := Apply(s, Do(t, Block));
            && t in s'.txns && s'.txns[t].mode.Waiting?
            && forall m :: CanMove(s', t, m) ==> m == Break || m == End
  {
    var s' := Apply(s, Do(t, Block));
    var u :| u in s.txns && u != t && NextKey(s.txns[t]) in s.txns[u].locks;
    assert u in s'.txns && NextKey(s'.txns[t]) in s'.txns[u].locks;
  }

  /** Once the key is free, the waiting claim goes on as if it had just come. */
  lemma WakingClaims(s: Sys, t: nat)
    requires Inv(s) && t in s.txns && s.txns[t].mode.Waiting? && !LockedByAnother(s, t, NextKey(s.txns[t]))
    ensures Enabled(s, Do(t, Wake))
    ensures var s' := Apply(s, Do(t, Wake));
            && t in s'.txns
            && if NextKey(s.txns[t]) in s.committed then CanMove(s', t, ClaimDuplicate(false))
               else CanMove(s', t, ClaimFresh(s.now))
  {
    var s' := Apply(s, Do(t, Wake));
    forall u | u in s'.txns && u != t
      ensures NextKey(s'.txns[t]) !in s'.txns[u].locks
    {
      assert u in s.txns && s'.txns[u] == s.txns[u];
    }
  }
}
