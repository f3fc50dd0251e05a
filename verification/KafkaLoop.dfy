/**
 The receive, process, commit-offset loop of examples/kafka_consumer.rs over the inbox protocol: one
 worker on one partition, which may crash between any two steps, beside any other database activity.
 */
module KafkaLoop {
  import opened Results
  import opened Ids
  import opened Protocol

  /** A record's key as received: `None` when missing or not UTF-8. */
  type Message = Option<string>

  const CONSUMER := "orders-billing"

  /** The inbox key of a message, or `None` when it is unprocessable. */
  function KeyOf(m: Message): Option<Key> {
    if m.Some? && TryFrom(m.value, MESSAGE_MAX_LEN).Ok? then Some(Key(CONSUMER, m.value)) else None
  }

  /** What the documentation calls unprocessable: no UTF-8 key, or one that is no message id. */
  ghost predicate Unprocessable(m: Message) {
    m.None? || !Clean(m.value) || ByteLen(m.value) > 512
  }

  /** Validation decides exactly that, and otherwise keeps the key as it came. */
  lemma KeyOfMeaning(m: Message)
    ensures KeyOf(m).None? <==> Unprocessable(m)
    ensures KeyOf(m).Some? ==> KeyOf(m).value == Key(CONSUMER, m.value) == Key("orders-billing", m.value)
  {
    if m.Some? {
      TryFromExact(m.value, MESSAGE_MAX_LEN);
      TrimMeaning(m.value);
    }
  }

  datatype Phase =
    | Polling
    | Received(at: nat)
    | Working(at: nat, txn: nat)
    | Duplicate(at: nat, txn: nat)  // answered `Duplicate`, still to roll back
    | Acking(at: nat, txn: nat)

  datatype Loop = Loop(
    sys: Sys,
    messages: seq<Message>,
    position: nat,         // the next record to receive
    phase: Phase,
    inflight: set<nat>,    // offset commits sent, perhaps never to arrive
    offset: nat)           // the offset the broker has

  datatype Event =
    | Produce(message: Message)
    | Receive
    | Skip
    | Process
    | Database(action: Action)
    | Ack
    | BrokerCommits(upTo: nat)
    | Crash

  function Start(now: int, maxAge: nat): Loop {
    Loop(Init(now, maxAge), [], 0, Polling, {}, 0)
  }

  ghost predicate Possible(w: Loop, e: Event) {
    match e
    case Produce(_) => true
    case Receive => w.phase.Polling? && w.position < |w.messages|
    case Skip => w.phase.Received? && w.phase.at < |w.messages| && KeyOf(w.messages[w.phase.at]).None?
    case Process => w.phase.Received? && w.phase.at < |w.messages| && KeyOf(w.messages[w.phase.at]).Some?
    case Database(a) => Enabled(w.sys, a)
    case Ack => w.phase.Acking?
    case BrokerCommits(upTo) => upTo in w.inflight
    case Crash => true
  }

  /** What the worker learns from a database step: `process` returned `Ok`, or it is rolling a duplicate back. */
  function Heard(phase: Phase, a: Action): Phase {
    match phase
    case Working(at, t) =>
      if a == Do(t, Commit(true)) then Acking(at, t)
      else if a.Do? && a.t == t && a.move.ClaimDuplicate? then Duplicate(at, t)
      else phase
    case Duplicate(at, t) => if a == Do(t, End) then Acking(at, t) else phase
    case _ => phase
  }

  /** A crash forgets the worker's transaction: it ends later, or a commit already sent still lands. */
  function Step(w: Loop, e: Event): Loop
    requires Possible(w, e)
  {
    match e
    case Produce(m) => w.(messages := w.messages + [m])
    case Receive => w.(phase := Received(w.position), position := w.position + 1)
    case Skip => w.(inflight := w.inflight + {w.phase.at + 1}, phase := Polling)
    case Process =>
      var begin := Begin(Single, [KeyOf(w.messages[w.phase.at]).value]);
      w.(sys := Apply(w.sys, begin), phase := Working(w.phase.at, w.sys.nextTxn))
    case Database(a) => w.(sys := Apply(w.sys, a), phase := Heard(w.phase, a))
    case Ack => w.(inflight := w.inflight + {w.phase.at + 1}, phase := Polling)
    case BrokerCommits(upTo) => w.(offset := upTo, inflight := w.inflight - {upTo})
    case Crash => w.(phase := Polling, position := w.offset)
  }

  /** At any point records may arrive, the worker crash, an offset commit land or the database move. */
  lemma AnythingMayHappen(w: Loop, m: Message, a: Action, upTo: nat)
    ensures Possible(w, Produce(m)) && Possible(w, Crash)
    ensures upTo in w.inflight ==> Possible(w, BrokerCommits(upTo))
    ensures Enabled(w.sys, a) ==> Possible(w, Database(a))
  {
  }

  ghost predicate Legal(w: Loop, run: seq<Event>)
    decreases |run|, 0
  {
    run == [] || (Legal(w, run[..|run| - 1]) && Possible(After(w, run[..|run| - 1]), run[|run| - 1]))
  }

  ghost function After(w: Loop, run: seq<Event>): Loop
    requires Legal(w, run)
    decreases |run|, 1
  {
    if run == [] then w else Step(After(w, run[..|run| - 1]), run[|run| - 1])
  }

  /** The message at `o` needs nothing more: applied, or unprocessable. */
  ghost predicate Settled(w: Loop, o: nat)
    requires o < |w.messages|
  {
    Unprocessable(w.messages[o]) || Key(CONSUMER, w.messages[o].value) in w.sys.applied
  }

  ghost predicate SettledBelow(w: Loop, n: nat) {
    n <= |w.messages| && forall o :: 0 <= o < n ==> Settled(w, o)
  }

  ghost predicate PhaseInv(w: Loop) {
    match w.phase
    case Polling => SettledBelow(w, w.position)
    case Received(at) => at < |w.messages| && w.position == at + 1 && SettledBelow(w, at)
    case Working(at, t) =>
      && at < |w.messages| && w.position == at + 1 && SettledBelow(w, at)
      && KeyOf(w.messages[at]).Some? && t < w.sys.nextTxn
      && (t in w.sys.txns ==>
            w.sys.txns[t].driver.Single? && w.sys.txns[t].batch == [KeyOf(w.messages[at]).value])
    case Duplicate(at, _) => w.position == at + 1 && SettledBelow(w, at + 1)
    case Acking(at, _) => w.position == at + 1 && SettledBelow(w, at + 1)
  }

  ghost predicate LoopInv(w: Loop) {
    && Inv(w.sys) && PhaseInv(w)
    && SettledBelow(w, w.offset)
    && forall o :: o in w.inflight ==> SettledBelow(w, o)
  }

  lemma SettledStays(w: Loop, w': Loop, n: nat)
    requires SettledBelow(w, n) && w.messages <= w'.messages && w.sys.applied.Keys <= w'.sys.applied.Keys
    ensures SettledBelow(w', n)
  {
    forall o | 0 <= o < n
      ensures Settled(w', o)
    {
      assert Settled(w, o);
      assert w.messages[o] == w'.messages[o];
    }
  }

  lemma {:induction false} AllSettledStays(w: Loop, w': Loop)
    requires LoopInv(w) && w.messages <= w'.messages && w.sys.applied.Keys <= w'.sys.applied.Keys
    ensures SettledBelow(w', w.offset)
    ensures forall o :: o in w.inflight ==> SettledBelow(w', o)
    ensures forall n :: SettledBelow(w, n) ==> SettledBelow(w', n)
  {
    SettledStays(w, w', w.offset);
    forall n | SettledBelow(w, n)
      ensures SettledBelow(w', n)
    {
      SettledStays(w, w', n);
    }
  }

  /** The worker's own transaction keeps its driver and batch until it ends. */
  lemma OwnTxnStays(s: Sys, a: Action, t: nat)
    requires Enabled(s, a) && t < s.nextTxn
    ensures t < Apply(s, a).nextTxn
    ensures t in Apply(s, a).txns ==>
              && t in s.txns && Apply(s, a).txns[t].driver == s.txns[t].driver
              && Apply(s, a).txns[t].batch == s.txns[t].batch
  {
    if a.Do? {
      InsideAddsOnlyClaims(s.txns[a.t], a.move, s.committed);
    }
  }

  /** When `process` reports success, its key has been applied. */
  lemma CommitApplies(s: Sys, t: nat, key: Key)
    requires Inv(s) && Enabled(s, Do(t, Commit(true))) && s.txns[t].driver.Single? && s.txns[t].batch == [key]
    ensures key in Apply(s, Do(t, Commit(true))).applied
  {
  }

  lemma DuplicateWasApplied(s: Sys, a: Action, key: Key)
    requires Inv(s) && Enabled(s, a) && a.Do? && a.move.ClaimDuplicate? && s.txns[a.t].batch == [key]
    ensures key in s.applied
  {
    assert NextKey(s.txns[a.t]) == key;
  }

  /** Either reply that ends the work means the message is settled. */
  lemma ReplyMeansApplied(s: Sys, a: Action, t: nat, key: Key)
    requires Inv(s) && Enabled(s, a)
    requires t in s.txns ==> s.txns[t].driver.Single? && s.txns[t].batch == [key]
    requires a == Do(t, Commit(true)) || (a.Do? && a.t == t && a.move.ClaimDuplicate?)
    ensures key in Apply(s, a).applied.Keys
  {
    if a == Do(t, Commit(true)) {
      CommitApplies(s, t, key);
    } else {
      DuplicateWasApplied(s, a, key);
      AppliedOnlyGrows(s, a);
      assert key in s.applied.Keys;
    }
  }

  lemma ReplySettles(w: Loop, s': Sys, at: nat)
    requires at < |w.messages| && KeyOf(w.messages[at]).Some? && KeyOf(w.messages[at]).value in s'.applied.Keys
    requires SettledBelow(w.(sys := s'), at)
    ensures SettledBelow(w.(sys := s'), at + 1)
  {
    KeyOfMeaning(w.messages[at]);
    assert Settled(w.(sys := s'), at);
  }

  /** Settled records do not depend on the worker's phase. */
  lemma PhaseIsImmaterial(w: Loop, phase: Phase, n: nat)
    ensures SettledBelow(w.(phase := phase), n) <==> SettledBelow(w, n)
  {
    if n <= |w.messages| {
      assert forall o :: 0 <= o < n ==> (Settled(w.(phase := phase), o) <==> Settled(w, o));
    }
  }

  lemma HearingSettles(w: Loop, a: Action, at: nat, t: nat)
    requires Inv(w.sys) && PhaseInv(w) && Enabled(w.sys, a) && w.phase == Working(at, t)
    requires SettledBelow(w.(sys := Apply(w.sys, a)), at)
    ensures PhaseInv(Step(w, Database(a)))
  {
    var s', phase' := Apply(w.sys, a), Heard(w.phase, a);
    assert Step(w, Database(a)) == w.(sys := s').(phase := phase');
    if phase' == w.phase {
      OwnTxnStays(w.sys, a, t);
      PhaseIsImmaterial(w.(sys := s'), phase', at);
    } else {
      ReplyMeansApplied(w.sys, a, t, KeyOf(w.messages[at]).value);
      ReplySettles(w, s', at);
      PhaseIsImmaterial(w.(sys := s'), phase', at + 1);
    }
  }

  lemma DatabaseKeepsLoopInv(w: Loop, a: Action)
    requires LoopInv(w) && Enabled(w.sys, a)
    ensures LoopInv(Step(w, Database(a)))
  {
    var w' := Step(w, Database(a));
    StepKeepsInv(w.sys, a);
    AppliedOnlyGrows(w.sys, a);
    AllSettledStays(w, w');
    if w.phase.Working? {
      PhaseIsImmaterial(w.(sys := w'.sys), w'.phase, w.phase.at);
      HearingSettles(w, a, w.phase.at, w.phase.txn);
    }
  }

  lemma StepKeepsLoopInv(w: Loop, e: Event)
    requires LoopInv(w) && Possible(w, e)
    ensures LoopInv(Step(w, e))
  {
    var w' := Step(w, e);
    match e
    case Database(a) => DatabaseKeepsLoopInv(w, a);
    case Process =>
      var begin := Begin(Single, [KeyOf(w.messages[w.phase.at]).value]);
      StepKeepsInv(w.sys, begin);
      AllSettledStays(w, w');
    case Skip =>
      AllSettledStays(w, w');
      KeyOfMeaning(w.messages[w.phase.at]);
      assert SettledBelow(w', w.phase.at + 1);
    case _ => AllSettledStays(w, w');
  }

  lemma {:induction false} EveryRunKeepsLoopInv(now: int, maxAge: nat, run: seq<Event>)
    requires Legal(Start(now, maxAge), run)
    ensures LoopInv(After(Start(now, maxAge), run))
  {
    if run != [] {
      EveryRunKeepsLoopInv(now, maxAge, run[..|run| - 1]);
      StepKeepsLoopInv(After(Start(now, maxAge), run[..|run| - 1]), run[|run| - 1]);
    }
  }

  /** Nothing valid is lost: every offset committed past is of a message applied or unprocessable. */
  lemma CommittedOffsetsAreSettled(now: int, maxAge: nat, run: seq<Event>)
    requires Legal(Start(now, maxAge), run)
    ensures SettledBelow(After(Start(now, maxAge), run), After(Start(now, maxAge), run).offset)
  {
    EveryRunKeepsLoopInv(now, maxAge, run);
  }

  ghost predicate NeverPurges(run: seq<Event>) {
    forall e :: e in run && e.Database? ==> !e.action.Purge?
  }

  lemma {:induction false} LoopWithoutPurge(now: int, maxAge: nat, run: seq<Event>)
    requires Legal(Start(now, maxAge), run) && NeverPurges(run)
    ensures var s := After(Start(now, maxAge), run).sys;
            Inv(s) && Once(s) && s.applied.Keys == s.committed.Keys
  {
    if run != [] {
      var prefix, last := run[..|run| - 1], run[|run| - 1];
      assert last in run;
      LoopWithoutPurge(now, maxAge, prefix);
      var w := After(Start(now, maxAge), prefix);
      match last
      case Database(a) => StepWithoutPurge(w.sys, a);
      case Process => StepWithoutPurge(w.sys, Begin(Single, [KeyOf(w.messages[w.phase.at]).value]));
      case _ =>
    }
  }

  /** Every claim of a key applied before comes within `window` of its row's stamp. */
  ghost predicate ClaimsInTime(w: Loop, run: seq<Event>, window: int)
    requires Legal(w, run)
  {
    run == [] ||
    (ClaimsInTime(w, run[..|run| - 1], window) &&
     var last := run[|run| - 1];
     last.Database? ==> InWindow(After(w, run[..|run| - 1]).sys, last.action, window))
  }

  lemma StepWithinWindow(s: Sys, a: Action)
    requires Inv(s) && Once(s) && Retained(s) && Enabled(s, a) && InWindow(s, a, s.maxAge)
    ensures var s' := Apply(s, a); Inv(s') && Once(s') && Retained(s') && s'.maxAge == s.maxAge
  {
    StepKeepsInv(s, a);
    StepKeepsRetained(s, a);
    StepKeepsOnce(s, a);
  }

  lemma {:induction false} LoopWithinWindow(now: int, maxAge: nat, run: seq<Event>)
    requires Legal(Start(now, maxAge), run) && ClaimsInTime(Start(now, maxAge), run, maxAge)
    ensures var s := After(Start(now, maxAge), run).sys;
            Inv(s) && Once(s) && Retained(s) && s.maxAge == maxAge
  {
    if run != [] {
      var prefix, last := run[..|run| - 1], run[|run| - 1];
      LoopWithinWindow(now, maxAge, prefix);
      var w := After(Start(now, maxAge), prefix);
      match last
      case Database(a) => StepWithinWindow(w.sys, a);
      case Process => StepWithinWindow(w.sys, Begin(Single, [KeyOf(w.messages[w.phase.at]).value]));
      case _ =>
    }
  }

  /** No key is applied twice, and every valid message the broker was told to move past is applied once. */
  ghost predicate EachOnce(w: Loop) {
    && (forall k :: w.sys.log[k] <= 1)
    && w.offset <= |w.messages|
    && forall o :: 0 <= o < w.offset && !Unprocessable(w.messages[o]) ==>
                w.sys.log[Key(CONSUMER, w.messages[o].value)] == 1
  }

  lemma SettledOnce(w: Loop)
    requires Once(w.sys) && SettledBelow(w, w.offset)
    ensures EachOnce(w)
  {
    forall o | 0 <= o < w.offset && !Unprocessable(w.messages[o])
      ensures w.sys.log[Key(CONSUMER, w.messages[o].value)] == 1
    {
      assert Settled(w, o);
    }
  }

  /** Broker and inbox together, with crashes anywhere and no purge: each message once, its row committed. */
  lemma EachMessageOnce(now: int, maxAge: nat, run: seq<Event>)
    requires Legal(Start(now, maxAge), run) && NeverPurges(run)
    ensures var w := After(Start(now, maxAge), run);
            && EachOnce(w)
            && forall o :: 0 <= o < w.offset && !Unprocessable(w.messages[o]) ==>
                             Key(CONSUMER, w.messages[o].value) in w.sys.committed
  {
    CommittedOffsetsAreSettled(now, maxAge, run);
    LoopWithoutPurge(now, maxAge, run);
    var w := After(Start(now, maxAge), run);
    SettledOnce(w);
    forall o | 0 <= o < w.offset && !Unprocessable(w.messages[o])
      ensures Key(CONSUMER, w.messages[o].value) in w.sys.committed
    {
      assert Settled(w, o);
      assert Key(CONSUMER, w.messages[o].value) in w.sys.applied.Keys;
    }
  }

  /** The same beside the hourly purge task, while claims keep to the retention window. */
  lemma EachMessageOnceBesidePurge(now: int, maxAge: nat, run: seq<Event>)
    requires Legal(Start(now, maxAge), run) && ClaimsInTime(Start(now, maxAge), run, maxAge)
    ensures EachOnce(After(Start(now, maxAge), run))
  {
    CommittedOffsetsAreSettled(now, maxAge, run);
    LoopWithinWindow(now, maxAge, run);
    SettledOnce(After(Start(now, maxAge), run));
  }
}
