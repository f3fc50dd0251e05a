/** The purge loop as steps of the protocol, so that what holds beside purges holds beside this one. */
module PurgeRuns {
  import opened Ids
  import opened Protocol
  import opened Purging

  /** The database clock once a purge has run: no statement used a cutoff ahead of it. */
  function Clock(rounds: seq<Round<Key>>, now: int, maxAge: nat): int {
    if rounds == [] then now
    else
      var before, needed := Clock(rounds[..|rounds| - 1], now, maxAge), rounds[|rounds| - 1].cutoff + maxAge;
      if before < needed then needed else before
  }

  /** Each statement as a purge step, once the clock has come far enough for its cutoff. */
  function Steps(rounds: seq<Round<Key>>, now: int, maxAge: nat): seq<Action> {
    if rounds == [] then []
    else
      var n := |rounds| - 1;
      Steps(rounds[..n], now, maxAge)
      + [Tick(Clock(rounds, now, maxAge) - Clock(rounds[..n], now, maxAge))]
      + [Purge(rounds[n].gone, rounds[n].cutoff)]
  }

  /** One round: the rows it takes are there, and were stamped more than `max_age` before the clock. */
  lemma RoundIsEnabled(s: Sys, stamps: map<Key, int>, removed: set<Key>, round: Round<Key>)
    requires s.committed == stamps - removed && round.gone !! removed && round.cutoff <= s.now - s.maxAge
    requires round.gone <= Expired(stamps, round.cutoff)
    ensures Enabled(s, Purge(round.gone, round.cutoff))
    ensures Apply(s, Purge(round.gone, round.cutoff)) == s.(committed := stamps - (removed + round.gone))
  {
    assert stamps - removed - round.gone == stamps - (removed + round.gone);
  }

  ghost predicate Brings(s: Sys, a: Action, s': Sys) {
    Enabled(s, a) && Apply(s, a) == s'
  }

  lemma {:induction false} TwoMore(s: Sys, run: seq<Action>, a: Action, s1: Sys, b: Action, s2: Sys)
    requires Valid(s, run) && Brings(Exec(s, run), a, s1) && Brings(s1, b, s2)
    ensures Valid(s, run + [a] + [b]) && Exec(s, run + [a] + [b]) == s2
  {
    OneMore(s, run, a);
    OneMore(s, run + [a], b);
  }

  lemma RoundLeads(e: Sys, stamps: map<Key, int>, removed: set<Key>, round: Round<Key>, now: int)
    requires e.committed == stamps - removed && e.now <= now && round.cutoff <= now - e.maxAge
    requires round.gone !! removed && round.gone <= Expired(stamps, round.cutoff)
    ensures Brings(e, Tick(now - e.now), e.(now := now))
    ensures Brings(e.(now := now), Purge(round.gone, round.cutoff),
                   e.(now := now, committed := stamps - (removed + round.gone)))
  {
    RoundIsEnabled(e.(now := now), stamps, removed, round);
  }

  lemma {:induction false} ClockBounds(rounds: seq<Round<Key>>, now: int, maxAge: nat, last: int)
    requires forall i :: 0 <= i < |rounds| ==> rounds[i].cutoff <= last
    ensures now <= Clock(rounds, now, maxAge) && (last <= now - maxAge ==> Clock(rounds, now, maxAge) == now)
    ensures rounds != [] ==> rounds[|rounds| - 1].cutoff <= Clock(rounds, now, maxAge) - maxAge
    ensures rounds != [] ==> Clock(rounds[..|rounds| - 1], now, maxAge) <= Clock(rounds, now, maxAge)
  {
    if rounds != [] { ClockBounds(rounds[..|rounds| - 1], now, maxAge, last); }
  }

  /** What the last round of a purge did. */
  lemma LastRound(stamps: map<Key, int>, rounds: seq<Round<Key>>, limit: nat, first: int, last: int)
    requires OldestFirst(stamps, rounds, limit, first, last) && rounds != []
    ensures var n := |rounds| - 1;
            && OldestFirst(stamps, rounds[..n], limit, first, rounds[n].cutoff)
            && rounds[n].gone !! Removed(rounds[..n]) && rounds[n].gone <= Expired(stamps, rounds[n].cutoff)
            && Removed(rounds) == Removed(rounds[..n]) + rounds[n].gone
    ensures forall i :: 0 <= i < |rounds| ==> rounds[i].cutoff <= last
  {
    forall i | 0 <= i < |rounds|
      ensures rounds[i].cutoff <= last
    {
      EachRowWasDue(stamps, rounds, limit, first, last, i, i);
    }
  }

  /** The rounds so far are a run that removes their rows and moves the clock. */
  ghost predicate Runs(s: Sys, rounds: seq<Round<Key>>) {
    var run := Steps(rounds, s.now, s.maxAge);
    && Valid(s, run)
    && Exec(s, run) == s.(now := Clock(rounds, s.now, s.maxAge), committed := s.committed - Removed(rounds))
  }

  lemma {:induction false} OneMoreRound(s: Sys, rounds: seq<Round<Key>>)
    requires rounds != [] && Runs(s, rounds[..|rounds| - 1])
    requires var n := |rounds| - 1;
             && Clock(rounds[..n], s.now, s.maxAge) <= Clock(rounds, s.now, s.maxAge)
             && rounds[n].cutoff <= Clock(rounds, s.now, s.maxAge) - s.maxAge
             && rounds[n].gone !! Removed(rounds[..n]) && rounds[n].gone <= Expired(s.committed, rounds[n].cutoff)
    ensures Runs(s, rounds)
  {
    var n := |rounds| - 1;
    var before, later := Steps(rounds[..n], s.now, s.maxAge), Clock(rounds, s.now, s.maxAge);
    var e := Exec(s, before);
    RoundLeads(e, s.committed, Removed(rounds[..n]), rounds[n], later);
    var tick, purge := Tick(later - e.now), Purge(rounds[n].gone, rounds[n].cutoff);
    assert Steps(rounds, s.now, s.maxAge) == before + [tick] + [purge];
    TwoMore(s, before, tick, e.(now := later), purge, s.(now := later, committed := s.committed - Removed(rounds)));
  }

  /**
   The statements of every purge are a run of the protocol, which removes the same rows and touches nothing
   else; it needs the clock no further than the last cutoff does.
   */
  lemma {:induction false} PurgeIsARun(s: Sys, rounds: seq<Round<Key>>, limit: nat, first: int, last: int)
    requires OldestFirst(s.committed, rounds, limit, first, last)
    ensures Runs(s, rounds)
    ensures last <= s.now - s.maxAge ==> Clock(rounds, s.now, s.maxAge) == s.now
  {
    if rounds == [] {
      assert s.committed - {} == s.committed;
    } else {
      var n := |rounds| - 1;
      LastRound(s.committed, rounds, limit, first, last);
      ClockBounds(rounds, s.now, s.maxAge, last);
      PurgeIsARun(s, rounds[..n], limit, first, rounds[n].cutoff);
      OneMoreRound(s, rounds);
    }
  }
}
