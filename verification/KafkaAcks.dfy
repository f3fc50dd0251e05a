/**
 When the worker of `KafkaLoop` acks, read off its run: only a reply of `process` that was `Ok` gets there,
 never a handler that failed.
 */
module KafkaAcks {
  import opened Results
  import opened Ids
  import opened Protocol
  import opened Successes
  import opened KafkaLoop

  /** The records produced, in order. */
  function Produced(run: seq<Event>): seq<Message> {
    if run == [] then []
    else Produced(run[..|run| - 1]) + if run[|run| - 1].Produce? then [run[|run| - 1].message] else []
  }

  lemma {:induction false} MessagesAreProduced(now: int, maxAge: nat, run: seq<Event>)
    requires Legal(Start(now, maxAge), run)
    ensures After(Start(now, maxAge), run).messages == Produced(run)
  {
    if run != [] { MessagesAreProduced(now, maxAge, run[..|run| - 1]); }
  }

  /** What an event does to the database. */
  ghost function ActionOf(w: Loop, e: Event): seq<Action>
    requires Possible(w, e)
  {
    match e
    case Process => [Begin(Single, [KeyOf(w.messages[w.phase.at]).value])]
    case Database(a) => [a]
    case _ => []
  }

  ghost function ActionsOf(w: Loop, run: seq<Event>): seq<Action>
    requires Legal(w, run)
  {
    if run == [] then []
    else ActionsOf(w, run[..|run| - 1]) + ActionOf(After(w, run[..|run| - 1]), run[|run| - 1])
  }

  lemma {:induction false} LoopRunIsAProtocolRun(w: Loop, run: seq<Event>)
    requires Legal(w, run)
    ensures Valid(w.sys, ActionsOf(w, run)) && Exec(w.sys, ActionsOf(w, run)) == After(w, run).sys
  {
    if run != [] {
      var before, last := run[..|run| - 1], run[|run| - 1];
      LoopRunIsAProtocolRun(w, before);
      var step := ActionOf(After(w, before), last);
      if step == [] {
        assert ActionsOf(w, run) == ActionsOf(w, before);
      } else {
        OneMore(w.sys, ActionsOf(w, before), step[0]);
        assert ActionsOf(w, run) == ActionsOf(w, before) + [step[0]];
      }
    }
  }

  // ------------------------------------------------------------ replies

  ghost predicate AnsweredDuplicate(acts: seq<Action>, t: nat) {
    exists locking :: Do(t, ClaimDuplicate(locking)) in acts
  }

  /** `process` on this transaction has returned `Ok`: its commit was acknowledged, or its duplicate rolled back. */
  ghost predicate RepliedOk(acts: seq<Action>, t: nat) {
    Do(t, Commit(true)) in acts || (AnsweredDuplicate(acts, t) && Do(t, End) in acts)
  }

  /** What the worker's phase says about its transaction's moves. */
  ghost predicate PhaseTrace(s: Sys, phase: Phase, acts: seq<Action>) {
    match phase
    case Working(_, t) =>
      && t < s.nextTxn && Do(t, Commit(true)) !in acts && !AnsweredDuplicate(acts, t)
      && (t in s.txns ==> s.txns[t].driver.Single?)
      && (Do(t, HandlerErr) in acts || Do(t, End) in acts ==> Lost(s, t))
    case Duplicate(_, t) =>
      && Lost(s, t) && Do(t, Commit(true)) !in acts && Do(t, HandlerErr) !in acts
      && AnsweredDuplicate(acts, t) && Do(t, End) !in acts
    case Acking(_, t) => Lost(s, t) && RepliedOk(acts, t) && Do(t, HandlerErr) !in acts
    case _ => true
  }

  ghost predicate Untouched(s: Sys, acts: seq<Action>) {
    forall a :: a in acts && a.Do? ==> a.t < s.nextTxn
  }

  lemma ActsOnly(s: Sys, acts: seq<Action>, a: Action)
    requires Untouched(s, acts) && Enabled(s, a) && forall t :: t in s.txns ==> t < s.nextTxn
    ensures Untouched(Apply(s, a), acts + [a])
  {
  }

  lemma MoreActs(acts: seq<Action>, a: Action, t: nat)
    ensures AnsweredDuplicate(acts + [a], t) <==>
            AnsweredDuplicate(acts, t) || (a.Do? && a.t == t && a.move.ClaimDuplicate?)
  {
    if AnsweredDuplicate(acts, t) {
      var locking :| Do(t, ClaimDuplicate(locking)) in acts;
      assert Do(t, ClaimDuplicate(locking)) in acts + [a];
    }
    if a.Do? && a.t == t && a.move.ClaimDuplicate? {
      assert Do(t, ClaimDuplicate(a.move.locking)) in acts + [a];
    }
  }

  lemma WorkingKeepsTrace(s: Sys, at: nat, t: nat, acts: seq<Action>, a: Action)
    requires Enabled(s, a) && PhaseTrace(s, Working(at, t), acts)
    ensures PhaseTrace(Apply(s, a), Heard(Working(at, t), a), acts + [a])
  {
    MoreActs(acts, a, t);
    StaysSingle(s, t, a);
    if Lost(s, t) { StepKeepsLost(s, a, t); }
    if a.Do? && a.t == t {
      if Lost(s, t) { ClosingOnlyEnds(s, t, a.move); } else { OwnMoveCloses(s, t, a.move); }
    }
  }

  lemma StaysSingle(s: Sys, t: nat, a: Action)
    requires Enabled(s, a) && t < s.nextTxn && (t in s.txns ==> s.txns[t].driver.Single?)
    ensures t < Apply(s, a).nextTxn && (t in Apply(s, a).txns ==> Apply(s, a).txns[t].driver.Single?)
  {
    OwnTxnStays(s, a, t);
  }

  /** A single delivery is over once it commits, ends, fails or turns out a duplicate. */
  lemma OwnMoveCloses(s: Sys, t: nat, m: Move)
    requires Enabled(s, Do(t, m)) && t < s.nextTxn && s.txns[t].driver.Single?
    ensures m.Commit? || m.End? || m.HandlerErr? || m.ClaimDuplicate? ==> Lost(Apply(s, Do(t, m)), t)
  {
  }

  lemma LostKeepsTrace(s: Sys, phase: Phase, acts: seq<Action>, a: Action)
    requires Enabled(s, a) && PhaseTrace(s, phase, acts) && (phase.Duplicate? || phase.Acking?)
    ensures PhaseTrace(Apply(s, a), Heard(phase, a), acts + [a])
  {
    MoreActs(acts, a, phase.txn);
    StepKeepsLost(s, a, phase.txn);
    if a.Do? && a.t == phase.txn { ClosingOnlyEnds(s, a.t, a.move); }
  }

  lemma BeginKeepsTrace(s: Sys, phase: Phase, acts: seq<Action>, at: nat, key: Key)
    requires Untouched(s, acts)
    ensures var begin := Begin(Single, [key]);
            Enabled(s, begin) && PhaseTrace(Apply(s, begin), Working(at, s.nextTxn), acts + [begin])
  {
  }

  /** Every event leaves the worker's phase and its transaction's moves in step. */
  lemma {:induction false} StepKeepsTrace(w: Loop, acts: seq<Action>, e: Event)
    requires Inv(w.sys) && Possible(w, e) && PhaseTrace(w.sys, w.phase, acts) && Untouched(w.sys, acts)
    ensures var w' := Step(w, e);
            PhaseTrace(w'.sys, w'.phase, acts + ActionOf(w, e)) && Untouched(w'.sys, acts + ActionOf(w, e))
  {
    match e
    case Process =>
      BeginKeepsTrace(w.sys, w.phase, acts, w.phase.at, KeyOf(w.messages[w.phase.at]).value);
      ActsOnly(w.sys, acts, Begin(Single, [KeyOf(w.messages[w.phase.at]).value]));
    case Database(a) =>
      ActsOnly(w.sys, acts, a);
      if w.phase.Working? {
        WorkingKeepsTrace(w.sys, w.phase.at, w.phase.txn, acts, a);
      } else if w.phase.Duplicate? || w.phase.Acking? {
        LostKeepsTrace(w.sys, w.phase, acts, a);
      }
    case _ => assert acts + [] == acts;
  }

  lemma {:induction false} EveryRunIsHeard(now: int, maxAge: nat, run: seq<Event>)
    requires Legal(Start(now, maxAge), run)
    ensures var w, acts := After(Start(now, maxAge), run), ActionsOf(Start(now, maxAge), run);
            PhaseTrace(w.sys, w.phase, acts) && Untouched(w.sys, acts)
  {
    if run != [] {
      var before := run[..|run| - 1];
      EveryRunIsHeard(now, maxAge, before);
      EveryRunKeepsLoopInv(now, maxAge, before);
      StepKeepsTrace(After(Start(now, maxAge), before), ActionsOf(Start(now, maxAge), before), run[|run| - 1]);
    }
  }

  /**
   Over every run: the worker is about to ack exactly when `process` has returned `Ok`, by an acknowledged
   commit or a duplicate rolled back; while it is still working no such reply has come, and a handler that
   failed never leads to an ack.
   */
  lemma {:induction false} AcksOnlyOk(now: int, maxAge: nat, run: seq<Event>)
    requires Legal(Start(now, maxAge), run)
    ensures var w, acts := After(Start(now, maxAge), run), ActionsOf(Start(now, maxAge), run);
            && (w.phase.Acking? ==> RepliedOk(acts, w.phase.txn) && Do(w.phase.txn, HandlerErr) !in acts)
            && (w.phase.Working? || w.phase.Duplicate? ==> !RepliedOk(acts, w.phase.txn))
  {
    EveryRunIsHeard(now, maxAge, run);
  }

  /** And when its commit is acknowledged, it is the handler of that very message that succeeded. */
  lemma {:induction false} AckedCommitSucceeded(now: int, maxAge: nat, run: seq<Event>)
    requires Legal(Start(now, maxAge), run) && After(Start(now, maxAge), run).phase.Working?
    requires var w := After(Start(now, maxAge), run); Possible(w, Database(Do(w.phase.txn, Commit(true))))
    ensures var w := After(Start(now, maxAge), run);
            && w.phase.at < |w.messages| && !Unprocessable(w.messages[w.phase.at])
            && Succeeded(ActionsOf(Start(now, maxAge), run), w.phase.txn)
               == {Key(CONSUMER, w.messages[w.phase.at].value)}
            && Step(w, Database(Do(w.phase.txn, Commit(true)))).phase == Acking(w.phase.at, w.phase.txn)
  {
    var w, acts := After(Start(now, maxAge), run), ActionsOf(Start(now, maxAge), run);
    EveryRunKeepsLoopInv(now, maxAge, run);
    LoopRunIsAProtocolRun(Start(now, maxAge), run);
    WorkingRows(w);
    CommitAddsSuccesses(now, maxAge, acts, w.phase.txn, true);
  }

  lemma WorkingRows(w: Loop)
    requires LoopInv(w) && w.phase.Working? && w.phase.txn in w.sys.txns && Idle(w.sys.txns[w.phase.txn])
    ensures w.phase.at < |w.messages| && !Unprocessable(w.messages[w.phase.at])
    ensures w.sys.txns[w.phase.txn].rows.Keys == {Key(CONSUMER, w.messages[w.phase.at].value)}
  {
    KeyOfMeaning(w.messages[w.phase.at]);
    SingleRows(w.sys.txns[w.phase.txn], KeyOf(w.messages[w.phase.at]).value);
  }

  lemma SingleRows(x: Txn, key: Key)
    requires TxnInv(x) && x.driver.Single? && x.batch == [key] && Idle(x)
    ensures x.rows.Keys == {key}
  {
    assert x.batch[..1] == [key];
    assert Answered(x) == {key};
    assert key in x.rows;
  }
}
