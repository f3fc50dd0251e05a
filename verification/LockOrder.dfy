/**
 Batches lock rows in byte order, so waiting never forms a cycle: each transaction waits only for a key
 greater than every key it holds.
 */
module LockOrder {
  import opened Ids
  import opened Protocol

  /** `t` still has claims to make and its next key is locked by `u`. */
  ghost predicate WaitsFor(s: Sys, t: nat, u: nat) {
    && t in s.txns && u in s.txns && t != u
    && !s.txns[t].mode.Closing? && s.txns[t].next < |s.txns[t].batch|
    && NextKey(s.txns[t]) in s.txns[u].locks
  }

  /** A nonempty chain of waits from `path[0]` to the last element. */
  ghost predicate WaitPath(s: Sys, path: seq<nat>) {
    |path| >= 2 && forall i :: 0 <= i < |path| - 1 ==> WaitsFor(s, path[i], path[i + 1])
  }

  /** Whatever a transaction holds comes before what it claims next. */
  lemma HoldsOnlySmallerKeys(x: Txn, held: Key)
    requires TxnInv(x) && x.next < |x.batch| && held in x.locks
    ensures IdLess(held.id, NextKey(x).id)
  {
    assert held in x.batch[..x.next];
    var i :| 0 <= i < x.next && x.batch[..x.next][i] == held;
    assert x.batch[i] == held;
  }

  /** A transaction that is waited for, and waits itself, wants a greater key. */
  lemma WaitingLooksUp(s: Sys, t: nat, u: nat, v: nat)
    requires Inv(s) && WaitsFor(s, t, u) && WaitsFor(s, u, v)
    ensures IdLess(NextKey(s.txns[t]).id, NextKey(s.txns[u]).id)
  {
    HoldsOnlySmallerKeys(s.txns[u], NextKey(s.txns[t]));
  }

  /** Along a chain of waits the wanted keys strictly increase. */
  lemma {:induction false} WantedKeysIncrease(s: Sys, path: seq<nat>, i: nat)
    requires Inv(s) && WaitPath(s, path) && 0 < i < |path| - 1
    ensures WaitsFor(s, path[0], path[1]) && WaitsFor(s, path[i], path[i + 1])
    ensures IdLess(NextKey(s.txns[path[0]]).id, NextKey(s.txns[path[i]]).id)
  {
    assert WaitsFor(s, path[0], path[0 + 1]);
    assert WaitsFor(s, path[i - 1], path[i - 1 + 1]);
    WaitingLooksUp(s, path[i - 1], path[i], path[i + 1]);
    if i > 1 {
      WantedKeysIncrease(s, path, i - 1);
      IdLessStrict(NextKey(s.txns[path[0]]).id, NextKey(s.txns[path[i - 1]]).id, NextKey(s.txns[path[i]]).id);
    }
  }

  /** The wait-for relation has no cycle. */
  lemma NoDeadlock(s: Sys, path: seq<nat>)
    requires Inv(s) && WaitPath(s, path)
    ensures path[0] != path[|path| - 1]
  {
    var n := |path|;
    assert WaitsFor(s, path[0], path[1]);
    if path[0] == path[n - 1] && n >= 3 {
      WantedKeysIncrease(s, path, n - 2);
      var first, last := s.txns[path[0]], s.txns[path[n - 2]];
      HoldsOnlySmallerKeys(first, NextKey(last));
      IdLessStrict(NextKey(first).id, NextKey(last).id, NextKey(first).id);
    }
  }

  // ------------------------------------------------------------ progress

  ghost predicate Stuck(s: Sys, t: nat) {
    exists u :: WaitsFor(s, t, u)
  }

  /** A move that takes its transaction forward: not a wait, and not giving up on an open transaction. */
  ghost predicate Forward(s: Sys, t: nat, m: Move)
    requires t in s.txns
  {
    match m
    case Block => false
    case Break => false
    case HandlerErr => false
    case End => s.txns[t].mode.Closing?
    case _ => true
  }

  lemma UnstuckCanMove(s: Sys, t: nat) returns (m: Move)
    requires Inv(s) && t in s.txns && !Stuck(s, t)
    ensures CanMove(s, t, m) && Forward(s, t, m)
  {
    var x := s.txns[t];
    if x.mode.Closing? {
      return End;
    }
    if x.next < |x.batch| {
      if LockedByAnother(s, t, NextKey(x)) {
        var u :| u in s.txns && u != t && NextKey(x) in s.txns[u].locks;
        assert WaitsFor(s, t, u);
        assert false;
      }
      return if x.mode.Waiting? then Wake
        else if NextKey(x) in s.committed then ClaimDuplicate(false)
        else ClaimFresh(s.now);
    }
    if x.running.Some? {
      return HandlerOk;
    }
    if x.unhandled == {} {
      return Commit(true);
    }
    var key :| key in x.unhandled;
    return StartHandler(key);
  }

  /** Among stuck transactions, one wants a key no other stuck transaction exceeds. */
  lemma {:induction false} GreatestWanted(s: Sys, stuck: set<nat>) returns (t: nat)
    requires stuck != {} && forall u :: u in stuck ==> u in s.txns && s.txns[u].next < |s.txns[u].batch|
    ensures t in stuck
    ensures forall u :: u in stuck ==> !IdLess(NextKey(s.txns[t]).id, NextKey(s.txns[u]).id)
    decreases stuck
  {
    var c :| c in stuck;
    var rest := stuck - {c};
    IdLessStrict(NextKey(s.txns[c]).id, "", "");
    if rest == {} {
      assert stuck == {c};
      return c;
    }
    var m := GreatestWanted(s, rest);
    if IdLess(NextKey(s.txns[m]).id, NextKey(s.txns[c]).id) {
      t := c;
      forall u | u in stuck
        ensures !IdLess(NextKey(s.txns[c]).id, NextKey(s.txns[u]).id)
      {
        IdLessStrict(NextKey(s.txns[m]).id, NextKey(s.txns[c]).id, NextKey(s.txns[u]).id);
        assert u == c || u in rest;
      }
    } else {
      t := m;
      assert forall u :: u in stuck ==> u == c || u in rest;
    }
  }

  /** Whoever holds the greatest wanted key waits for nobody: it would want a greater one. */
  lemma HolderIsFree(s: Sys, stuck: set<nat>, t: nat, u: nat)
    requires Inv(s) && WaitsFor(s, t, u) && forall v :: v in stuck <==> v in s.txns && Stuck(s, v)
    requires forall v :: v in stuck ==> v in s.txns && s.txns[v].next < |s.txns[v].batch|
    requires forall v :: v in stuck ==> !IdLess(NextKey(s.txns[t]).id, NextKey(s.txns[v]).id)
    ensures !Stuck(s, u)
  {
    if Stuck(s, u) {
      assert false;
    }
  }

  /** Some transaction can always step forward, whatever the others wait for. */
  lemma SomeoneCanStep(s: Sys) returns (t: nat, m: Move)
    requires Inv(s) && s.txns != map[]
    ensures t in s.txns && CanMove(s, t, m) && Forward(s, t, m)
  {
    var stuck := set t | t in s.txns && Stuck(s, t);
    if stuck == {} {
      t :| t in s.txns;
      assert t !in stuck;
    } else {
      var greatest := GreatestWanted(s, stuck);
      t :| WaitsFor(s, greatest, t);
      HolderIsFree(s, stuck, greatest, t);
    }
    m := UnstuckCanMove(s, t);
  }

  // ------------------------------------------------------------ completion

  /** How many forward moves a transaction has left, at most. */
  function Left(x: Txn): nat
    requires x.next <= |x.batch|
  {
    if x.mode.Closing? then 1
    else
      1 + (if x.mode.Waiting? then 1 else 0) + 3 * (|x.batch| - x.next) + 2 * |x.unhandled|
      + (if x.running.Some? then 1 else 0)
  }

  ghost predicate Bounded(txns: map<nat, Txn>) {
    forall t :: t in txns ==> txns[t].next <= |txns[t].batch|
  }

  ghost function WorkBelow(txns: map<nat, Txn>, n: nat): nat
    requires Bounded(txns)
  {
    if n == 0 then 0 else WorkBelow(txns, n - 1) + if n - 1 in txns then Left(txns[n - 1]) else 0
  }

  /** How many forward moves all open transactions have left, at most. */
  ghost function Work(s: Sys): nat
    requires Bounded(s.txns)
  {
    WorkBelow(s.txns, s.nextTxn)
  }

  /** What one transaction has left counts once in the whole. */
  lemma {:induction false} WorkElsewhere(txns: map<nat, Txn>, txns': map<nat, Txn>, t: nat, n: nat)
    requires Bounded(txns) && Bounded(txns') && t in txns && txns - {t} == txns' - {t}
    ensures WorkBelow(txns', n) + (if t < n then Left(txns[t]) else 0)
         == WorkBelow(txns, n) + (if t < n && t in txns' then Left(txns'[t]) else 0)
  {
    if n > 0 {
      WorkElsewhere(txns, txns', t, n - 1);
      if n - 1 != t {
        assert n - 1 in txns <==> n - 1 in txns - {t};
        assert n - 1 in txns' <==> n - 1 in txns' - {t};
        assert n - 1 in txns ==> txns[n - 1] == (txns - {t})[n - 1] == (txns' - {t})[n - 1] == txns'[n - 1];
      }
    }
  }

  /** A forward move inside a transaction leaves it less to do. */
  lemma InsideTakesWork(s: Sys, t: nat, m: Move)
    requires t in s.txns && s.txns[t].next <= |s.txns[t].batch|
    requires CanMove(s, t, m) && Forward(s, t, m) && !m.Commit? && !m.End?
    ensures var y := Inside(s.txns[t], m, s.committed); y.next <= |y.batch| && Left(y) < Left(s.txns[t])
  {
    var x := s.txns[t];
    match m
    case StartHandler(key) =>
      assert x.unhandled == (x.unhandled - {key}) + {key};
    case _ =>
  }

  lemma LessLeftIsLessWork(s: Sys, t: nat, y: Txn)
    requires Bounded(s.txns) && t in s.txns && t < s.nextTxn && y.next <= |y.batch| && Left(y) < Left(s.txns[t])
    ensures var s' := s.(txns := s.txns[t := y]); Bounded(s'.txns) && Work(s') < Work(s)
  {
    assert s.txns[t := y] - {t} == s.txns - {t};
    WorkElsewhere(s.txns, s.txns[t := y], t, s.nextTxn);
  }

  lemma OneFewerIsLessWork(txns: map<nat, Txn>, t: nat, n: nat)
    requires Bounded(txns) && t in txns && t < n
    ensures Bounded(txns - {t}) && WorkBelow(txns - {t}, n) < WorkBelow(txns, n)
  {
    assert txns - {t} - {t} == txns - {t};
    WorkElsewhere(txns, txns - {t}, t, n);
  }

  lemma {:induction false} MoveTakesWork(s: Sys, t: nat, m: Move)
    requires Bounded(s.txns) && t in s.txns && t < s.nextTxn
    requires CanMove(s, t, m) && Forward(s, t, m) && !m.Commit? && !m.End?
    ensures var s' := Apply(s, Do(t, m)); Bounded(s'.txns) && Work(s') < Work(s)
  {
    var y := Inside(s.txns[t], m, s.committed);
    InsideTakesWork(s, t, m);
    LessLeftIsLessWork(s, t, y);
    assert Apply(s, Do(t, m)) == s.(txns := s.txns[t := y]);
  }

  lemma InvIsBounded(s: Sys)
    requires Inv(s)
    ensures Bounded(s.txns) && forall t :: t in s.txns ==> t < s.nextTxn
  {
  }

  /** Every forward move takes work away: transactions cannot keep moving forward without ending. */
  lemma {:induction false} ForwardTakesWork(s: Sys, t: nat, m: Move)
    requires Bounded(s.txns) && t in s.txns && t < s.nextTxn && CanMove(s, t, m) && Forward(s, t, m)
    ensures var s' := Apply(s, Do(t, m)); Bounded(s'.txns) && Work(s') < Work(s)
  {
    if m.Commit? || m.End? {
      OneFewerIsLessWork(s.txns, t, s.nextTxn);
    } else {
      MoveTakesWork(s, t, m);
    }
  }

  /** A run of forward moves alone: nobody waits longer, fails or gives up. */
  ghost predicate ForwardRun(s: Sys, run: seq<Action>)
    requires Valid(s, run)
  {
    run == [] ||
    (var last, e := run[|run| - 1], Exec(s, run[..|run| - 1]);
     ForwardRun(s, run[..|run| - 1]) && last.Do? && Forward(e, last.t, last.move))
  }

  /** No run of forward moves is longer than the work there was at its start. */
  lemma {:induction false} ForwardRunsEnd(s: Sys, run: seq<Action>)
    requires Inv(s) && Valid(s, run) && ForwardRun(s, run)
    ensures Inv(Exec(s, run)) && |run| + Work(Exec(s, run)) <= Work(s)
  {
    if run != [] {
      var prefix, last := run[..|run| - 1], run[|run| - 1];
      ForwardRunsEnd(s, prefix);
      InvIsBounded(Exec(s, prefix));
      ForwardTakesWork(Exec(s, prefix), last.t, last.move);
      StepKeepsInv(Exec(s, prefix), last);
    }
  }

  lemma {:induction false} MoveForward(s: Sys, run: seq<Action>, a: Action)
    requires Valid(s, run) && ForwardRun(s, run)
    requires a.Do? && Enabled(Exec(s, run), a) && Forward(Exec(s, run), a.t, a.move)
    ensures Valid(s, run + [a]) && ForwardRun(s, run + [a])
  {
    assert (run + [a])[..|run + [a]| - 1] == run;
  }

  /** From wherever a run has got to, moving forward ends every transaction that is open. */
  lemma {:induction false} EveryoneFinishes(s: Sys, run: seq<Action>) returns (run': seq<Action>)
    requires Inv(s) && Valid(s, run) && ForwardRun(s, run)
    ensures Valid(s, run') && ForwardRun(s, run') && Exec(s, run').txns == map[]
    decreases Work(s) - |run|
  {
    ForwardRunsEnd(s, run);
    if Exec(s, run).txns == map[] {
      return run;
    }
    var t, m := SomeoneCanStep(Exec(s, run));
    MoveForward(s, run, Do(t, m));
    ForwardRunsEnd(s, run + [Do(t, m)]);
    run' := EveryoneFinishes(s, run + [Do(t, m)]);
  }

  ghost predicate CanFinish(s: Sys) {
    exists run :: Valid(s, run) && ForwardRun(s, run) && Exec(s, run).txns == map[]
  }

  /**
   Every reachable state is free of wait cycles and, while anything is open, someone can step; and all
   that is open can run to its end, moving only forward.
   */
  lemma ReachableStatesNeverDeadlock(now: int, maxAge: nat, run: seq<Action>)
    requires Valid(Init(now, maxAge), run)
    ensures forall path :: WaitPath(Exec(Init(now, maxAge), run), path) ==> path[0] != path[|path| - 1]
    ensures var s := Exec(Init(now, maxAge), run);
            s.txns != map[] ==> exists t, m :: t in s.txns && CanMove(s, t, m) && Forward(s, t, m)
    ensures CanFinish(Exec(Init(now, maxAge), run))
  {
    RunKeepsInv(Init(now, maxAge), run);
    var s := Exec(Init(now, maxAge), run);
    forall path | WaitPath(s, path)
      ensures path[0] != path[|path| - 1]
    {
      NoDeadlock(s, path);
    }
    if s.txns != map[] {
      var t, m := SomeoneCanStep(s);
    }
    var finish := EveryoneFinishes(s, []);
  }
}
