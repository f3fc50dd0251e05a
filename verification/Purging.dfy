/** Retention (src/retention.rs) and the batched purge loop of the three backends. */
module Purging {
  import opened Results

  datatype Policy = Policy(maxAge: nat, batchSize: nat)

  /** The fields are private and both constructors keep the batch size positive. */
  type RetentionPolicy = p: Policy | p.batchSize >= 1 witness Policy(0, 1000)

  function NewPolicy(maxAge: nat): RetentionPolicy {
    Policy(maxAge, 1000)
  }

  function WithBatchSize(p: RetentionPolicy, batchSize: nat): RetentionPolicy {
    p.(batchSize := if batchSize < 1 then 1 else batchSize)
  }

  /**
   The two constructors build every policy there is, and no other. The batch size is 1000 unless it is set,
   and then what was asked for, zero counting as one.
   */
  lemma PoliciesAreBuilt(p: Policy)
    ensures p.batchSize >= 1 <==> exists size: nat :: p == WithBatchSize(NewPolicy(p.maxAge), size)
    ensures NewPolicy(p.maxAge).batchSize == 1000 && NewPolicy(p.maxAge).maxAge == p.maxAge
    ensures WithBatchSize(NewPolicy(p.maxAge), 0).batchSize == 1
    ensures p.batchSize >= 1 ==> WithBatchSize(NewPolicy(p.maxAge), p.batchSize).batchSize == p.batchSize
  {
    if p.batchSize >= 1 {
      assert p == WithBatchSize(NewPolicy(p.maxAge), p.batchSize);
    }
  }

  /** The rows stamped before the cutoff. */
  function Expired<K(==)>(rows: map<K, int>, cutoff: int): set<K> {
    set k | k in rows && rows[k] < cutoff
  }

  ghost predicate NoneOlder<K(!new)>(rows: map<K, int>, among: set<K>, k: K)
    requires among <= rows.Keys
  {
    k in among && forall j :: j in among ==> rows[k] <= rows[j]
  }

  lemma {:induction false} OldestExists<K(!new)>(rows: map<K, int>, among: set<K>)
    requires among != {} && among <= rows.Keys
    ensures exists k :: NoneOlder(rows, among, k)
    decreases among
  {
    var c :| c in among;
    var rest := among - {c};
    if rest == {} {
      assert among == {c};
      assert NoneOlder(rows, among, c);
    } else {
      OldestExists(rows, rest);
      var m :| NoneOlder(rows, rest, m);
      assert NoneOlder(rows, among, if rows[c] <= rows[m] then c else m);
    }
  }

  /** One deletion statement of a purge: the cutoff it used and the keys it removed. */
  datatype Round<K> = Round(cutoff: int, gone: set<K>)

  function Removed<K>(rounds: seq<Round<K>>): set<K> {
    if rounds == [] then {} else Removed(rounds[..|rounds| - 1]) + rounds[|rounds| - 1].gone
  }

  ghost predicate NoYounger<K(!new)>(stamps: map<K, int>, a: set<K>, b: set<K>) {
    a <= stamps.Keys && b <= stamps.Keys && forall g, k :: g in a && k in b ==> stamps[g] <= stamps[k]
  }

  /**
   Every round keeps the limit, removes rows, still there, that had expired by its own cutoff, and follows only rows
   stamped no later than its own. The cutoffs follow the clock, from `first` to `last`.
   */
  ghost predicate OldestFirst<K(!new)>(
    stamps: map<K, int>, rounds: seq<Round<K>>, limit: nat, first: int, last: int)
  {
    && first <= last
    && (rounds != [] ==>
          var n := |rounds| - 1;
          && |rounds[n].gone| <= limit && rounds[n].cutoff <= last && rounds[n].gone !! Removed(rounds[..n])
          && rounds[n].gone <= Expired(stamps, rounds[n].cutoff)
          && NoYounger(stamps, Removed(rounds[..n]), rounds[n].gone)
          && OldestFirst(stamps, rounds[..n], limit, first, rounds[n].cutoff))
  }

  lemma {:induction false} AppendRound<K(!new)>(
    stamps: map<K, int>, rounds: seq<Round<K>>, limit: nat, first: int, last: int, round: Round<K>)
    requires OldestFirst(stamps, rounds, limit, first, last) && last <= round.cutoff && |round.gone| <= limit
    requires round.gone <= Expired(stamps, round.cutoff) && round.gone !! Removed(rounds)
    requires NoYounger(stamps, Removed(rounds), round.gone)
    ensures OldestFirst(stamps, rounds + [round], limit, first, round.cutoff)
    ensures Removed(rounds + [round]) == Removed(rounds) + round.gone
  {
    assert (rounds + [round])[..|rounds|] == rounds;
    LaterIsFine(stamps, rounds, limit, first, last, round.cutoff);
  }

  lemma {:induction false} LaterIsFine<K(!new)>(
    stamps: map<K, int>, rounds: seq<Round<K>>, limit: nat, first: int, last: int, later: int)
    requires OldestFirst(stamps, rounds, limit, first, last) && last <= later
    ensures OldestFirst(stamps, rounds, limit, first, later)
  {
  }

  /** Whatever the clock did, each row was stamped before the cutoff of the statement that removed it. */
  lemma {:induction false} EachRowWasDue<K(!new)>(
    stamps: map<K, int>, rounds: seq<Round<K>>, limit: nat, first: int, last: int, i: nat, j: nat)
    requires OldestFirst(stamps, rounds, limit, first, last) && i <= j < |rounds|
    ensures forall k :: k in rounds[i].gone ==> k in stamps && stamps[k] < rounds[i].cutoff
    ensures |rounds[i].gone| <= limit && first <= rounds[i].cutoff <= rounds[j].cutoff <= last
  {
    var n := |rounds| - 1;
    if i < n {
      EachRowWasDue(stamps, rounds[..n], limit, first, rounds[n].cutoff, i, if j < n then j else i);
    }
  }

  lemma {:induction false} RemovedMeaning<K(!new)>(rounds: seq<Round<K>>, k: K)
    ensures k in Removed(rounds) <==> exists i :: 0 <= i < |rounds| && k in rounds[i].gone
  {
    if rounds != [] { RemovedMeaning(rounds[..|rounds| - 1], k); }
  }

  /** Part way through a purge: what is gone had expired and is no younger than what is left. */
  ghost predicate Underway<K(!new)>(stamps: map<K, int>, rows: map<K, int>, removed: set<K>, cutoff: int) {
    removed <= Expired(stamps, cutoff) && rows == stamps - removed && NoYounger(stamps, removed, rows.Keys)
  }

  lemma BatchCounts<K(!new)>(rows: map<K, int>, removed: set<K>, gone: set<K>)
    requires gone <= rows.Keys && removed !! rows.Keys
    ensures |removed + gone| == |removed| + |gone|
    ensures |rows - gone| + |gone| == |rows|
  {
    assert removed !! gone;
    var left := rows - gone;
    assert left.Keys + gone == rows.Keys && left.Keys !! gone;
    assert |left.Keys| == |left| && |rows.Keys| == |rows|;
  }

  lemma BatchKeepsUnderway<K(!new)>(
    stamps: map<K, int>, rows: map<K, int>, removed: set<K>, earlier: int, cutoff: int, gone: set<K>)
    requires Underway(stamps, rows, removed, earlier) && earlier <= cutoff
    requires gone <= Expired(rows, cutoff) && NoYounger(rows, gone, (rows - gone).Keys)
    ensures Underway(stamps, rows - gone, removed + gone, cutoff)
    ensures NoYounger(stamps, removed, gone) && gone <= Expired(stamps, cutoff)
    ensures gone == Expired(rows, cutoff) ==> removed + gone == Expired(stamps, cutoff)
  {
    assert forall k :: k in rows <==> k in stamps && k !in removed;
    assert forall k :: k in rows ==> rows[k] == stamps[k];
    assert rows - gone == stamps - (removed + gone);
  }

  /** The loop's state between two statements. */
  ghost predicate Progress<K(!new)>(
    stamps: map<K, int>, rows: map<K, int>, rounds: seq<Round<K>>, limit: nat, first: int, cutoff: int, total: nat)
  {
    && Underway(stamps, rows, Removed(rounds), cutoff) && total == |Removed(rounds)|
    && OldestFirst(stamps, rounds, limit, first, cutoff)
  }

  lemma {:induction false} RoundKeepsProgress<K(!new)>(
    stamps: map<K, int>, rows: map<K, int>, rounds: seq<Round<K>>, limit: nat, first: int, earlier: int, total: nat,
    round: Round<K>)
    requires Progress(stamps, rows, rounds, limit, first, earlier, total) && earlier <= round.cutoff
    requires round.gone <= Expired(rows, round.cutoff) && |round.gone| <= limit
    requires NoYounger(rows, round.gone, (rows - round.gone).Keys)
    ensures Progress(
              stamps, rows - round.gone, rounds + [round], limit, first, round.cutoff, total + |round.gone|)
    ensures |rows - round.gone| + |round.gone| == |rows|
    ensures round.gone == Expired(rows, round.cutoff) ==> Removed(rounds + [round]) == Expired(stamps, round.cutoff)
  {
    BatchKeepsUnderway(stamps, rows, Removed(rounds), earlier, round.cutoff, round.gone);
    BatchCounts(rows, Removed(rounds), round.gone);
    AppendRound(stamps, rounds, limit, first, earlier, round);
  }

  lemma {:induction false} ByTheStamps<K(!new)>(
    stamps: map<K, int>, rows: map<K, int>, rounds: seq<Round<K>>, limit: nat, first: int, last: int)
    requires OldestFirst(stamps, rounds, limit, first, last) && rows == stamps - Removed(rounds)
    ensures Removed(rounds) <= stamps.Keys
    ensures forall i, k {:trigger k in rounds[i].gone} :: 0 <= i < |rounds| && k in rounds[i].gone ==>
              k in stamps && k !in rows && stamps[k] < rounds[i].cutoff <= last
    ensures forall k :: k in stamps && k !in rows ==> stamps[k] < last
    ensures Removed(rounds) == Expired(stamps, last) ==> forall k :: k in rows ==> rows[k] >= last
  {
    forall i, k {:trigger k in rounds[i].gone} | 0 <= i < |rounds| && k in rounds[i].gone
      ensures k in stamps && k !in rows && stamps[k] < rounds[i].cutoff <= last
    {
      EachRowWasDue(stamps, rounds, limit, first, last, i, i);
      RemovedMeaning(rounds, k);
    }
    forall k | k in Removed(rounds)
      ensures k in stamps && stamps[k] < last
    {
      RemovedMeaning(rounds, k);
    }
  }

  /** Whether a purge's statements all run, or which one fails, perhaps after it took effect. */
  datatype PurgeFate = AllRun | FailsAt(statement: nat, ran: bool)

  /** The statements sent when a purge fails: those before the failure, and the failed one if it ran. */
  function RoundsWhenFailed(fate: PurgeFate): nat
    requires fate.FailsAt?
  {
    fate.statement + if fate.ran then 1 else 0
  }

  class Inbox<K(!new, ==)> {
    var rows: map<K, int>   // processed_at by key
    var now: int

    constructor (rows: map<K, int>, now: int)
      ensures this.rows == rows && this.now == now
    {
      this.rows, this.now := rows, now;
    }

    /** PURGE_SQL: deletes the oldest rows before the cutoff, `limit` at most. */
    method DeleteExpired(cutoff: int, limit: nat) returns (gone: set<K>)
      modifies this`rows
      ensures rows == old(rows) - gone && gone <= Expired(old(rows), cutoff)
      ensures |gone| <= limit && (|gone| < limit ==> gone == Expired(old(rows), cutoff))
      ensures NoYounger(old(rows), gone, rows.Keys)
      ensures forall k :: k in gone ==> k in old(rows) && old(rows)[k] < cutoff
      ensures |gone| < limit ==> forall k :: k in rows ==> rows[k] >= cutoff
      ensures forall g, k :: g in gone && k in rows ==> old(rows)[g] <= rows[k]
    {
      var left := Expired(rows, cutoff);
      gone := {};
      while |gone| < limit && left != {}
        invariant rows == old(rows)
        invariant gone + left == Expired(rows, cutoff) && gone !! left && |gone| <= limit
        invariant forall g, k :: g in gone && k in rows && k !in gone ==> rows[g] <= rows[k]
        decreases left
      {
        ghost var before := left;
        OldestExists(rows, left);
        ghost var oldest :| NoneOlder(rows, left, oldest);
        assert forall j :: j in left ==> rows[oldest] <= rows[j];
        var k :| k in left && forall j :: j in left ==> rows[k] <= rows[j];
        gone, left := gone + {k}, left - {k};
        assert forall j :: j in rows && j !in gone ==> j in left || rows[j] >= cutoff;
      }
      rows := rows - gone;
    }

    /** The cutoff of the next statement: the first one, or one by the database clock, which may have moved. */
    method NextCutoff(cutoff: int, maxAge: nat, moving: bool) returns (next: int)
      requires cutoff <= now - maxAge
      modifies this`now
      ensures cutoff <= next <= now - maxAge && now >= old(now)
      ensures if moving then next == now - maxAge else next == cutoff && now == old(now)
    {
      if !moving { return cutoff; }
      var elapsed: int := *;
      now := if elapsed > 0 then now + elapsed else now;
      return now - maxAge;
    }

    /** Statement number `sent` of the purge loop that began with `stamps`. */
    method RunRound(cutoff: int, limit: nat, fate: PurgeFate, sent: nat, ghost stamps: map<K, int>,
                    ghost rounds: seq<Round<K>>, ghost first: int, ghost earlier: int, ghost total: nat)
      returns (r: Result<nat, ()>, ghost rounds': seq<Round<K>>, ghost total': nat)
      requires earlier <= cutoff && Progress(stamps, rows, rounds, limit, first, earlier, total)
      requires |rounds| == sent
      modifies this`rows
      ensures Progress(stamps, rows, rounds', limit, first, cutoff, total')
      ensures r.Err? <==> fate.FailsAt? && fate.statement == sent
      ensures |rounds'| == if r.Ok? then sent + 1 else RoundsWhenFailed(fate)
      ensures r.Ok? ==> total' == total + r.value && |rows| + r.value == |old(rows)|
      ensures r.Ok? && r.value < limit ==> Removed(rounds') == Expired(stamps, cutoff)
    {
      if fate == FailsAt(sent, false) {
        LaterIsFine(stamps, rounds, limit, first, earlier, cutoff);
        return Err(()), rounds, total;
      }
      var keys := DeleteExpired(cutoff, limit);
      RoundKeepsProgress(stamps, old(rows), rounds, limit, first, earlier, total, Round(cutoff, keys));
      rounds', total' := rounds + [Round(cutoff, keys)], total + |keys|;
      return if fate == FailsAt(sent, true) then Err(()) else Ok(|keys|), rounds', total';
    }

    /**
     Deletes batch after batch until one comes back short or fails. The cutoff is fixed at the start (SQLite)
     or follows the database clock (PostgreSQL, MySQL). What goes, oldest batch first, had expired when it
     was deleted, and stays gone; unless a statement fails, it is exactly the rows stamped before the last
     cutoff used, and the count returned is theirs.
     */
    method PurgeLoop(policy: RetentionPolicy, moving: bool, fate: PurgeFate)
      returns (r: Result<nat, ()>, ghost first: int, ghost last: int, ghost rounds: seq<Round<K>>)
      modifies this
      ensures now >= old(now) && (!moving ==> now == old(now))
      ensures first == old(now) - policy.maxAge && first <= last <= now - policy.maxAge
      ensures rows == old(rows) - Removed(rounds) && OldestFirst(old(rows), rounds, policy.batchSize, first, last)
      ensures r.Ok? ==> Removed(rounds) == Expired(old(rows), last) && r.value == |Removed(rounds)|
      ensures r.Ok? ==> fate.FailsAt? ==> |rounds| <= fate.statement
      ensures r.Err? ==> fate.FailsAt? && |rounds| == RoundsWhenFailed(fate)
    {
      var cutoff := now - policy.maxAge;
      var total: nat, sent: nat := 0, 0;
      first, last, rounds := cutoff, cutoff, [];
      while true
        invariant now >= old(now) && (!moving ==> now == old(now))
        invariant first == old(now) - policy.maxAge && first <= cutoff <= now - policy.maxAge
        invariant Progress(old(rows), rows, rounds, policy.batchSize, first, cutoff, total)
        invariant |rounds| == sent && (fate.FailsAt? ==> sent <= fate.statement)
        decreases |rows|
      {
        ghost var earlier := cutoff;
        cutoff := NextCutoff(cutoff, policy.maxAge, moving);
        ghost var sum;
        var gone;
        gone, rounds, sum :=
          RunRound(cutoff, policy.batchSize, fate, sent, old(rows), rounds, first, earlier, total);
        last := cutoff;
        if gone.Err? { return Err(()), first, last, rounds; }
        total, sent := total + gone.value, sent + 1;
        if gone.value < policy.batchSize { return Ok(total), first, last, rounds; }
      }
    }

    /**
     `purge`. By the stamps: each row removed was older than `max_age` at the clock of its own statement, no
     row of an earlier statement was younger, and once it reports success no row before `last` is left.
     */
    method Purge(policy: RetentionPolicy, moving: bool, fate: PurgeFate)
      returns (r: Result<nat, ()>, ghost first: int, ghost last: int, ghost rounds: seq<Round<K>>)
      modifies this
      ensures now >= old(now) && (!moving ==> now == old(now))
      ensures first == old(now) - policy.maxAge && first <= last <= now - policy.maxAge
      ensures rows == old(rows) - Removed(rounds) && OldestFirst(old(rows), rounds, policy.batchSize, first, last)
      ensures forall i, k {:trigger k in rounds[i].gone} :: 0 <= i < |rounds| && k in rounds[i].gone ==>
                k in old(rows) && k !in rows && old(rows)[k] < rounds[i].cutoff <= last
      ensures forall k :: k in old(rows) && k !in rows ==> old(rows)[k] < last
      ensures r.Ok? ==> (forall k :: k in rows ==> rows[k] >= last) && r.value + |rows| == |old(rows)|
      ensures r.Ok? ==> fate.FailsAt? ==> |rounds| <= fate.statement
      ensures r.Err? ==> fate.FailsAt? && |rounds| == RoundsWhenFailed(fate)
    {
      r, first, last, rounds := PurgeLoop(policy, moving, fate);
      ByTheStamps(old(rows), rows, rounds, policy.batchSize, first, last);
      BatchCounts(old(rows), {}, Removed(rounds));
    }
  }
}
