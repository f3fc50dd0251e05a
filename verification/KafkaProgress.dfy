/**
 The receive loop gets through: from every state it can come to, crashed or not and whoever holds locks, some
 continuation passes every record there is.
 */
module KafkaProgress {
  import opened Results
  import opened Ids
  import opened Protocol
  import opened LockOrder
  import opened KafkaLoop

  /** Between records, with no transaction open and everything received passed. */
  ghost predicate Resting(w: Loop) {
    w.phase.Polling? && w.position == w.offset <= |w.messages| && w.sys.txns == map[]
  }

  ghost predicate Brings(w: Loop, e: Event, w': Loop) {
    Possible(w, e) && Step(w, e) == w'
  }

  lemma {:induction false} OneMoreEvent(w: Loop, run: seq<Event>, e: Event, w': Loop)
    requires Legal(w, run) && Brings(After(w, run), e, w')
    ensures Legal(w, run + [e]) && After(w, run + [e]) == w'
  {
    assert (run + [e])[..|run + [e]| - 1] == run;
  }

  /** Database steps the worker does not hear leave the loop alone. */
  lemma {:induction false} RunDatabase(w: Loop, run: seq<Event>, acts: seq<Action>) returns (run': seq<Event>)
    requires Legal(w, run) && After(w, run).phase.Polling? && Valid(After(w, run).sys, acts)
    ensures Legal(w, run') && After(w, run') == After(w, run).(sys := Exec(After(w, run).sys, acts))
  {
    if acts == [] {
      return run;
    }
    var before, last := acts[..|acts| - 1], acts[|acts| - 1];
    run' := RunDatabase(w, run, before);
    var s := After(w, run).sys;
    OneMoreEvent(w, run', Database(last), After(w, run).(sys := Exec(s, acts)));
    run' := run' + [Database(last)];
  }

  /** After a crash, once everyone else has finished, the loop stands at the broker's offset. */
  lemma {:induction false} Recover(w: Loop, run: seq<Event>) returns (run': seq<Event>)
    requires Legal(w, run) && LoopInv(After(w, run))
    ensures Legal(w, run') && Resting(After(w, run'))
    ensures After(w, run').offset == After(w, run).offset && After(w, run').messages == After(w, run).messages
  {
    var e := After(w, run);
    OneMoreEvent(w, run, Crash, e.(phase := Polling, position := e.offset));
    var finish := EveryoneFinishes(e.sys, []);
    run' := RunDatabase(w, run + [Crash], finish);
  }

  /** The record at the position has been passed, and nothing else has changed but the database. */
  ghost predicate Passed(w: Loop, w': Loop) {
    Resting(w') && w'.offset == w.offset + 1 && w'.messages == w.messages
  }

  /** The offset commit that follows an ack, or a skipped record, takes the broker past it. */
  lemma {:induction false} BrokerPasses(w: Loop, run: seq<Event>, at: nat) returns (run': seq<Event>)
    requires Legal(w, run)
    requires var e := After(w, run);
             e.phase.Polling? && e.position == at + 1 <= |e.messages| && e.sys.txns == map[] && at + 1 in e.inflight
    ensures Legal(w, run') && Resting(After(w, run'))
    ensures After(w, run').offset == at + 1 && After(w, run').messages == After(w, run).messages
  {
    var e := After(w, run);
    OneMoreEvent(w, run, BrokerCommits(at + 1), e.(offset := at + 1, inflight := e.inflight - {at + 1}));
    run' := run + [BrokerCommits(at + 1)];
  }

  lemma {:induction false} AckPasses(w: Loop, run: seq<Event>, at: nat, t: nat) returns (run': seq<Event>)
    requires Legal(w, run)
    requires var e := After(w, run);
             e.phase == Acking(at, t) && e.position == at + 1 <= |e.messages| && e.sys.txns == map[]
    ensures Legal(w, run') && Resting(After(w, run'))
    ensures After(w, run').offset == at + 1 && After(w, run').messages == After(w, run).messages
  {
    var e := After(w, run);
    OneMoreEvent(w, run, Ack, e.(inflight := e.inflight + {at + 1}, phase := Polling));
    run' := BrokerPasses(w, run + [Ack], at);
  }

  /** Alone on the database, an unrecorded message is processed and acknowledged. */
  lemma {:induction false} FreshIsAcked(w: Loop, run: seq<Event>, at: nat, t: nat, key: Key)
    returns (run': seq<Event>)
    requires Legal(w, run) && After(w, run).phase == Working(at, t) && OpenedAlone(After(w, run).sys, t, key)
    ensures Legal(w, run')
    ensures After(w, run') ==
            After(w, run).(phase := Acking(at, t), sys := Processed(After(w, run).sys, key))
  {
    var e := After(w, run);
    var s := e.sys;
    var window := if key in s.applied then s.now - s.applied[key] else 0;
    run' := run;
    for n := 0 to 3
      invariant Legal(w, run') && After(w, run') == e.(sys := Stage(s, t, key, n))
    {
      StageStep(s, t, key, n, window);
      var a := Processing(t, key, s.now)[n];
      OneMoreEvent(w, run', Database(a), e.(sys := Stage(s, t, key, n + 1)));
      run' := run' + [Database(a)];
    }
    StageStep(s, t, key, 3, window);
    OneMoreEvent(w, run', Database(Do(t, Commit(true))), e.(phase := Acking(at, t), sys := Stage(s, t, key, 4)));
    run' := run' + [Database(Do(t, Commit(true)))];
  }

  /** Alone on the database, a recorded message is rolled back and acknowledged. */
  lemma {:induction false} DuplicateIsAcked(w: Loop, run: seq<Event>, at: nat, t: nat, key: Key)
    returns (run': seq<Event>)
    requires Legal(w, run) && After(w, run).phase == Working(at, t)
    requires var s := After(w, run).sys;
             s.txns == map[t := Opened(s, Single, [key])] && key in s.committed
    ensures Legal(w, run')
    ensures After(w, run') ==
            After(w, run).(phase := Acking(at, t), sys := After(w, run).sys.(txns := map[]))
  {
    var e := After(w, run);
    var s, claim := e.sys, Database(Do(t, ClaimDuplicate(false)));
    var x := AfterDuplicate(Opened(s, Single, [key]), false);
    assert !LockedByAnother(s, t, key);
    OneMoreEvent(w, run, claim, e.(phase := Phase.Duplicate(at, t), sys := s.(txns := s.txns[t := x])));
    assert s.txns[t := x] - {t} == map[];
    OneMoreEvent(w, run + [claim], Database(Do(t, End)), e.(phase := Acking(at, t), sys := s.(txns := map[])));
    run' := run + [claim] + [Database(Do(t, End))];
  }

  lemma {:induction false} WorkPasses(w: Loop, run: seq<Event>, at: nat, key: Key) returns (run': seq<Event>)
    requires Legal(w, run)
    requires var e := After(w, run);
             && e.phase == Received(at) && e.position == at + 1 <= |e.messages| && e.sys.txns == map[]
             && KeyOf(e.messages[at]) == Some(key)
    ensures Legal(w, run') && Resting(After(w, run'))
    ensures After(w, run').offset == at + 1 && After(w, run').messages == After(w, run).messages
  {
    var e := After(w, run);
    var s, t := e.sys, e.sys.nextTxn;
    var begun := s.(txns := map[t := Opened(s, Single, [key])], nextTxn := t + 1);
    assert s.txns[t := Opened(s, Single, [key])] == map[t := Opened(s, Single, [key])];
    OneMoreEvent(w, run, Process, e.(sys := begun, phase := Working(at, t)));
    if key in s.committed {
      run' := DuplicateIsAcked(w, run + [Process], at, t, key);
    } else {
      run' := FreshIsAcked(w, run + [Process], at, t, key);
    }
    run' := AckPasses(w, run', at, t);
  }

  /** The next record is received and passed, processed or skipped. */
  lemma {:induction false} PassNext(w: Loop, run: seq<Event>) returns (run': seq<Event>)
    requires Legal(w, run) && Resting(After(w, run)) && After(w, run).offset < |After(w, run).messages|
    ensures Legal(w, run') && Passed(After(w, run), After(w, run'))
  {
    var e := After(w, run);
    var at := e.position;
    OneMoreEvent(w, run, Receive, e.(phase := Received(at), position := at + 1));
    if KeyOf(e.messages[at]).Some? {
      run' := WorkPasses(w, run + [Receive], at, KeyOf(e.messages[at]).value);
    } else {
      OneMoreEvent(w, run + [Receive], Skip,
                   e.(phase := Polling, position := at + 1, inflight := e.inflight + {at + 1}));
      run' := BrokerPasses(w, run + [Receive] + [Skip], at);
    }
  }

  lemma {:induction false} PassAll(w: Loop, run: seq<Event>) returns (run': seq<Event>)
    requires Legal(w, run) && Resting(After(w, run))
    ensures Legal(w, run') && Resting(After(w, run'))
    ensures After(w, run').offset == |After(w, run).messages| && After(w, run').messages == After(w, run).messages
    decreases |After(w, run).messages| - After(w, run).offset
  {
    if After(w, run).offset == |After(w, run).messages| {
      return run;
    }
    run' := PassNext(w, run);
    run' := PassAll(w, run');
  }

  lemma {:induction false} GoOn(w: Loop, run: seq<Event>, more: seq<Event>)
    requires Legal(w, run) && Legal(After(w, run), more)
    ensures Legal(w, run + more) && After(w, run + more) == After(After(w, run), more)
  {
    if more == [] {
      assert run + more == run;
    } else {
      var before, last := more[..|more| - 1], more[|more| - 1];
      GoOn(w, run, before);
      OneMoreEvent(w, run + before, last, After(After(w, run), more));
      assert run + more == run + before + [last];
    }
  }

  /**
   No run leaves the partition stuck: whatever has happened, a restart and the end of what others had open let
   the loop receive from the broker's offset and pass every record, each one settled.
   */
  lemma {:induction false} EveryRecordCanBePassed(now: int, maxAge: nat, run: seq<Event>)
    returns (more: seq<Event>)
    requires Legal(Start(now, maxAge), run)
    ensures Legal(Start(now, maxAge), run + more)
    ensures var w, w' := After(Start(now, maxAge), run), After(Start(now, maxAge), run + more);
            && w'.messages == w.messages && w'.offset == |w'.messages|
            && SettledBelow(w', |w'.messages|)
  {
    var w := After(Start(now, maxAge), run);
    EveryRunKeepsLoopInv(now, maxAge, run);
    more := Recover(w, []);
    more := PassAll(w, more);
    GoOn(Start(now, maxAge), run, more);
    CommittedOffsetsAreSettled(now, maxAge, run + more);
  }
}
