/**
 The MySQL backend (src/mysql.rs): the session lock timeout a claim borrows and gives back, and batch
 claims that recognise their own rows by a token, there being no `RETURNING`.
 */
module MySql {
  import opened Results
  import opened Ids
  import opened Claims

  // ------------------------------------------------------------ the session

  /** `innodb_lock_wait_timeout` and the user variable holding the value a claim replaced. */
  datatype Session = Session(timeout: nat, saved: Option<nat>)

  /** BEGIN_SQL: puts a saved value back, if there is one. */
  function AfterBegin(s: Session): Session {
    Session(if s.saved.Some? then s.saved.value else s.timeout, None)
  }

  /** SET_LOCK_TIMEOUT_SQL: saves the session's value and sets the claim's. */
  function AfterSet(s: Session, timeout: nat): Session {
    Session(timeout, Some(s.timeout))
  }

  /** RESTORE_LOCK_TIMEOUT_SQL, which the server rejects when nothing is saved. */
  function AfterRestore(s: Session): Session
    requires s.saved.Some?
  {
    Session(s.saved.value, None)
  }

  /** The timeout the application set: the saved value if a claim left one, else the session's. */
  function Application(s: Session): nat {
    if s.saved.Some? then s.saved.value else s.timeout
  }

  /** A statement runs, is rejected, or its future is dropped, in which case it may have run all the same. */
  datatype Fate = Ran | Rejected | Dropped(ran: bool)

  predicate Took(fate: Fate) {
    fate == Ran || fate == Dropped(true)
  }

  /** What becomes of a claim's statements, of those it gets to; a single claim reads nothing back. */
  datatype Fates = Fates(setting: Fate, insert: Fate, restore: Fate, read: Fate)

  /** Without a timeout there is nothing to set, and nothing that could fail. */
  predicate SetRan(timeout: Option<nat>, f: Fates) {
    timeout.None? || f.setting == Ran
  }

  /** The restore follows the insert whether it worked or not, unless the claim was dropped there. */
  predicate GetsToRestore(timeout: Option<nat>, f: Fates) {
    timeout.Some? && f.setting == Ran && !f.insert.Dropped?
  }

  predicate GetsToRead(timeout: Option<nat>, f: Fates) {
    SetRan(timeout, f) && f.insert == Ran && (timeout.Some? ==> f.restore == Ran)
  }

  /** The claim was dropped with one of its statements under way. */
  predicate CancelledClaim(timeout: Option<nat>, f: Fates, readsBack: bool) {
    || (timeout.Some? && f.setting.Dropped?)
    || (SetRan(timeout, f) && f.insert.Dropped?)
    || (GetsToRestore(timeout, f) && f.restore.Dropped?)
    || (readsBack && GetsToRead(timeout, f) && f.read.Dropped?)
  }

  predicate RestoreFailed(timeout: Option<nat>, f: Fates) {
    GetsToRestore(timeout, f) && f.restore == Rejected
  }

  /** The session after a claim. */
  function AfterClaim(s: Session, timeout: Option<nat>, f: Fates): Session {
    if timeout.None? || !Took(f.setting) then s
    else if GetsToRestore(timeout, f) && Took(f.restore) then AfterRestore(AfterSet(s, timeout.value))
    else AfterSet(s, timeout.value)
  }

  datatype Use =
    | Begin
    | Claims(timeout: Option<nat>, fates: Fates, readsBack: bool)
    | ApplicationSets(value: nat)

  function AfterUse(s: Session, use: Use): Session {
    match use
    case Begin => AfterBegin(s)
    case Claims(timeout, fates, _) => AfterClaim(s, timeout, fates)
    case ApplicationSets(value) => s.(timeout := value)
  }

  function AfterUses(s: Session, uses: seq<Use>): Session {
    if uses == [] then s else AfterUse(AfterUses(s, uses[..|uses| - 1]), uses[|uses| - 1])
  }

  /** What the application asked for, last. */
  function Asked(initial: nat, uses: seq<Use>): nat {
    if uses == [] then initial
    else match uses[|uses| - 1]
      case ApplicationSets(value) => value
      case _ => Asked(initial, uses[..|uses| - 1])
  }

  /** What a caller can see: its claim was cancelled, or the restore itself failed. */
  predicate Interrupted(use: Use) {
    use.Claims? &&
    (CancelledClaim(use.timeout, use.fates, use.readsBack) || RestoreFailed(use.timeout, use.fates))
  }

  /** The claim's timeout is still set: the restore was not reached, or did not run. */
  predicate LeftSet(use: Use) {
    use.Claims? && use.timeout.Some? && Took(use.fates.setting)
    && !(GetsToRestore(use.timeout, use.fates) && Took(use.fates.restore))
  }

  /** Only an interrupted claim leaves its timeout set; one that fails otherwise has restored it. */
  lemma OnlyInterruptionLeavesSet(use: Use)
    ensures LeftSet(use) ==> Interrupted(use)
    ensures use.Claims? && !Interrupted(use) ==>
              forall s: Session :: s.saved.None? ==> AfterUse(s, use) == s
  {
  }

  /** A connection whose claim left its timeout set is next used through BEGIN. */
  ghost predicate BeginsAfter(uses: seq<Use>, left: Use -> bool) {
    forall i :: 0 <= i < |uses| - 1 && left(uses[i]) ==> uses[i + 1].Begin?
  }

  /**
   Over every such run the application's timeout survives, and unless the last claim left its own set it is
   the session's, with nothing left saved: after each BEGIN, each answer and each error alike.
   */
  lemma {:induction false} ApplicationTimeoutSurvives(initial: nat, uses: seq<Use>)
    requires BeginsAfter(uses, LeftSet)
    ensures var s := AfterUses(Session(initial, None), uses);
            && Application(s) == Asked(initial, uses)
            && (uses == [] || !LeftSet(uses[|uses| - 1]) ==> s == Session(Asked(initial, uses), None))
  {
    if uses != [] {
      var n := |uses| - 1;
      assert BeginsAfter(uses[..n], LeftSet) by {
        assert forall i :: 0 <= i < n ==> uses[..n][i] == uses[i];
      }
      ApplicationTimeoutSurvives(initial, uses[..n]);
      if n > 0 && LeftSet(uses[n - 1]) {
        assert uses[n - 1 + 1].Begin?;
      }
    }
  }

  /**
   What the caller has to do for that: BEGIN after a cancelled claim or a failed restore, and after no other
   failure. The session is then the application's after every use that was not interrupted.
   */
  lemma CallersKeepTheTimeout(initial: nat, uses: seq<Use>)
    requires BeginsAfter(uses, Interrupted)
    ensures var s := AfterUses(Session(initial, None), uses);
            && Application(s) == Asked(initial, uses)
            && (uses == [] || !Interrupted(uses[|uses| - 1]) ==> s == Session(Asked(initial, uses), None))
  {
    forall use: Use
      ensures LeftSet(use) ==> Interrupted(use)
    {
      OnlyInterruptionLeavesSet(use);
    }
    ApplicationTimeoutSurvives(initial, uses);
  }

  /** Starting a timed claim over a saved value forgets it, unless the two values agree: BEGIN must come first. */
  lemma ReuseForgetsTheApplication(s: Session, timeout: nat, f: Fates)
    requires Took(f.setting)
    ensures Application(AfterClaim(s, Some(timeout), f)) == Application(s)
            <==> s.saved.None? || s.saved.value == s.timeout
  {
  }

  // ------------------------------------------------------------ rows and tokens

  /** A row's claim token (NULL from a single claim) and, as history, the call that inserted it. */
  datatype Row = Row(token: Option<nat>, call: nat)

  type Table = map<Key, Row>

  function RecordedIds(table: Table, consumer: string): set<string> {
    set k | k in table.Keys && k.consumer == consumer :: k.id
  }

  /** CLAIM_MANY_SQL: inserts the absent ids under the token; present rows are left as they are. */
  function InsertStamped(table: Table, consumer: string, ids: seq<string>, token: Option<nat>, call: nat): Table {
    map k | k in table.Keys + (set id | id in ids :: Key(consumer, id)) ::
      if k in table then table[k] else Row(token, call)
  }

  /**
   What an insert-if-absent may do to the table: every row stays as it was, whoever's it is, and exactly the
   absent ids sent are new, each with the row given.
   */
  ghost predicate OnlyInserts(before: Table, after: Table, consumer: string, ids: seq<string>, row: Row) {
    && (forall k :: k in before ==> k in after && after[k] == before[k])
    && (forall k :: k in after && k !in before <==> k !in before && k.consumer == consumer && k.id in ids)
    && (forall k :: k in after && k !in before ==> after[k] == row)
  }

  lemma InsertOnlyInserts(table: Table, consumer: string, ids: seq<string>, token: Option<nat>, call: nat)
    ensures OnlyInserts(table, InsertStamped(table, consumer, ids, token, call), consumer, ids, Row(token, call))
  {
    var after := InsertStamped(table, consumer, ids, token, call);
    forall k: Key | k.consumer == consumer && k.id in ids
      ensures k in after
    {
      assert k == Key(consumer, k.id);
    }
  }

  predicate Stamped(table: Table, key: Key, token: nat) {
    key in table && table[key].token == Some(token)
  }

  /** CLAIMED_BY_TOKEN_SQL: the given ids whose row carries the token. */
  function ReadBack(table: Table, consumer: string, ids: seq<string>, token: nat): seq<string> {
    if ids == [] then []
    else
      var n := |ids| - 1;
      ReadBack(table, consumer, ids[..n], token)
      + (if Stamped(table, Key(consumer, ids[n]), token) then [ids[n]] else [])
  }

  lemma {:induction false} ReadBackMeaning(table: Table, consumer: string, ids: seq<string>, token: nat)
    ensures forall id :: id in ReadBack(table, consumer, ids, token) <==>
                         id in ids && Stamped(table, Key(consumer, id), token)
  {
    if ids != [] {
      ReadBackMeaning(table, consumer, ids[..|ids| - 1], token);
      assert ids == ids[..|ids| - 1] + [ids[|ids| - 1]];
    }
  }

  lemma RecordedMeaning(table: Table, consumer: string, id: string)
    ensures id in RecordedIds(table, consumer) <==> Key(consumer, id) in table
  {
    if Key(consumer, id) in table {
      assert Key(consumer, id) in table.Keys && Key(consumer, id).consumer == consumer;
    }
  }

  /** No row the batch finds in place already carries the token. */
  ghost predicate TokenUnused(table: Table, consumer: string, ids: seq<string>, token: nat) {
    forall id :: id in ids ==> !Stamped(table, Key(consumer, id), token)
  }

  /** The read-back lists exactly the rows this call inserted, if and only if no row in place carries its token. */
  lemma ReadBackIsExact(table: Table, consumer: string, ids: seq<string>, token: nat, call: nat)
    ensures var after := InsertStamped(table, consumer, ids, Some(token), call);
            Lists(ReadBack(after, consumer, ids, token), Absent(RecordedIds(table, consumer), ids))
            <==> TokenUnused(table, consumer, ids, token)
  {
    var after := InsertStamped(table, consumer, ids, Some(token), call);
    var listed, absent := ReadBack(after, consumer, ids, token), Absent(RecordedIds(table, consumer), ids);
    ReadBackMeaning(after, consumer, ids, token);
    forall id
      ensures (id in listed <==> id in absent) <==> !(id in ids && Stamped(table, Key(consumer, id), token))
    {
      RecordedMeaning(table, consumer, id);
      if id in ids {
        assert Key(consumer, id) in after;
      }
    }
    if !TokenUnused(table, consumer, ids, token) {
      var id :| id in ids && Stamped(table, Key(consumer, id), token);
      assert !(id in listed <==> id in absent);
    }
  }

  // ------------------------------------------------------------ histories

  /** Every table the database has held, so that a rollback can bring their rows back, and the tokens issued. */
  datatype History = History(tables: seq<Table>, issued: map<nat, nat>, calls: nat)

  datatype Statement =
    | ClaimOne(key: Key)
    | ClaimBatch(consumer: string, ids: seq<string>, token: nat)
    | Delete(keys: set<Key>)      // unclaim, purge
    | Rollback(to: Table)         // one transaction's, beside whatever others did

  function Current(h: History): Table
    requires h.tables != []
  {
    h.tables[|h.tables| - 1]
  }

  /** Every row was in some table before. */
  ghost predicate RowsWere(tables: seq<Table>, table: Table) {
    forall k :: k in table ==> exists i :: 0 <= i < |tables| && k in tables[i] && tables[i][k] == table[k]
  }

  /** Tokens never repeat, and a rollback brings back only rows that were. */
  ghost predicate Allowed(h: History, st: Statement) {
    match st
    case ClaimBatch(_, _, token) => token !in h.issued
    case Rollback(to) => RowsWere(h.tables, to)
    case _ => true
  }

  ghost function NextTable(h: History, st: Statement): Table
    requires h.tables != [] && Allowed(h, st)
  {
    match st
    case ClaimOne(key) => InsertStamped(Current(h), key.consumer, [key.id], None, h.calls)
    case ClaimBatch(consumer, ids, token) => InsertStamped(Current(h), consumer, ids, Some(token), h.calls)
    case Delete(keys) => Current(h) - keys
    case Rollback(to) => to
  }

  ghost function Extended(h: History, st: Statement): History
    requires h.tables != [] && Allowed(h, st)
  {
    History(h.tables + [NextTable(h, st)],
            if st.ClaimBatch? then h.issued[st.token := h.calls] else h.issued,
            h.calls + 1)
  }

  ghost predicate Happens(sts: seq<Statement>)
    decreases |sts|, 0
  {
    sts == [] || (Happens(sts[..|sts| - 1]) && Allowed(Past(sts[..|sts| - 1]), sts[|sts| - 1]))
  }

  ghost function Past(sts: seq<Statement>): (h: History)
    requires Happens(sts)
    ensures h.tables != []
    decreases |sts|, 1
  {
    if sts == [] then History([map[]], map[], 0) else Extended(Past(sts[..|sts| - 1]), sts[|sts| - 1])
  }

  /** What each statement does to the table, row by row. */
  lemma StatementsMean(h: History, st: Statement)
    requires h.tables != [] && Allowed(h, st)
    ensures var before, after := Current(h), Current(Extended(h, st));
            match st
            case ClaimOne(key) => OnlyInserts(before, after, key.consumer, [key.id], Row(None, h.calls))
            case ClaimBatch(consumer, ids, token) =>
              OnlyInserts(before, after, consumer, ids, Row(Some(token), h.calls))
            case Delete(keys) =>
              && (forall k :: k in after <==> k in before && k !in keys)
              && (forall k :: k in after ==> after[k] == before[k])
            case Rollback(to) => after == to
  {
    match st
    case ClaimOne(key) => InsertOnlyInserts(Current(h), key.consumer, [key.id], None, h.calls);
    case ClaimBatch(consumer, ids, token) => InsertOnlyInserts(Current(h), consumer, ids, Some(token), h.calls);
    case _ =>
  }

  /** Every stored token was issued by the call that inserted its row. */
  ghost predicate WellStamped(table: Table, issued: map<nat, nat>) {
    forall k :: k in table && table[k].token.Some? ==>
                  table[k].token.value in issued && issued[table[k].token.value] == table[k].call
  }

  lemma {:induction false} TokensTellTheirCall(sts: seq<Statement>)
    requires Happens(sts)
    ensures forall i :: 0 <= i < |Past(sts).tables| ==> WellStamped(Past(sts).tables[i], Past(sts).issued)
  {
    if sts != [] {
      var h, h' := Past(sts[..|sts| - 1]), Past(sts);
      TokensTellTheirCall(sts[..|sts| - 1]);
      assert forall i :: 0 <= i < |h.tables| ==> h'.tables[i] == h.tables[i];
      assert WellStamped(Current(h), h.issued);
      assert WellStamped(NextTable(h, sts[|sts| - 1]), h'.issued);
    }
  }

  /**
   After any history of claims, batch claims, unclaims, purges and rollbacks, a batch claim under a token
   not issued before answers like claiming its ids one by one.
   */
  lemma TokenClaimIsOneByOne(sts: seq<Statement>, consumer: string, ids: seq<string>, token: nat)
    requires Happens(sts) && token !in Past(sts).issued
    requires NoUnrecordedRepeat(RecordedIds(Current(Past(sts)), consumer), ids)
    ensures var before := Current(Past(sts));
            var after := NextTable(Past(sts), ClaimBatch(consumer, ids, token));
            var each := ClaimEach(RecordedIds(before, consumer), ids);
            && OnlyInserts(before, after, consumer, ids, Row(Some(token), Past(sts).calls))
            && ClaimsFromFresh(ids, ReadBack(after, consumer, ids, token)) == each.claims
            && RecordedIds(after, consumer) == each.rows
  {
    var h := Past(sts);
    var before, call := Current(h), h.calls;
    var after := InsertStamped(before, consumer, ids, Some(token), call);
    TokensTellTheirCall(sts);
    assert WellStamped(before, h.issued);
    ReadBackIsExact(before, consumer, ids, token, call);
    BatchInsertIsOneByOne(RecordedIds(before, consumer), ids, ReadBack(after, consumer, ids, token));
    InsertRecords(before, consumer, ids, Some(token), call);
    InsertOnlyInserts(before, consumer, ids, Some(token), call);
  }

  lemma InsertRecords(table: Table, consumer: string, ids: seq<string>, token: Option<nat>, call: nat)
    ensures RecordedIds(InsertStamped(table, consumer, ids, token, call), consumer)
         == RecordedIds(table, consumer) + Absent(RecordedIds(table, consumer), ids)
  {
    var after := InsertStamped(table, consumer, ids, token, call);
    forall id
      ensures id in RecordedIds(after, consumer) <==> id in RecordedIds(table, consumer) || id in ids
    {
      RecordedMeaning(after, consumer, id);
      RecordedMeaning(table, consumer, id);
      assert Key(consumer, id) in after <==> Key(consumer, id) in table || id in ids;
    }
  }

  // ------------------------------------------------------------ the statements, in order

  datatype Point = Setting | Inserting | Restoring | Reading

  datatype Reply<+T> = Answer(value: T) | Failed(at: Point) | Cancelled

  /**
   Which reply a claim gives: an answer when every statement ran, `Cancelled` when it was dropped, and else
   the error of the first statement to fail, the insert's before the restore's.
   */
  ghost predicate Replies<T>(reply: Reply<T>, timeout: Option<nat>, f: Fates, readsBack: bool) {
    && (reply.Cancelled? <==> CancelledClaim(timeout, f, readsBack))
    && (reply.Answer? <==> GetsToRead(timeout, f) && (readsBack ==> f.read == Ran))
    && (reply.Failed? ==>
          match reply.at
          case Setting => timeout.Some? && f.setting == Rejected
          case Inserting => SetRan(timeout, f) && f.insert == Rejected
          case Restoring => f.insert == Ran && RestoreFailed(timeout, f)
          case Reading => readsBack && GetsToRead(timeout, f) && f.read == Rejected)
  }

  class MySqlInbox {
    var session: Session
    var table: Table
    var calls: nat

    constructor (timeout: nat)
      ensures session == Session(timeout, None) && table == map[] && calls == 0
    {
      session, table, calls := Session(timeout, None), map[], 0;
    }

    /** Sends nothing, and so succeeds, when there is no timeout. */
    method SetLockTimeout(timeout: Option<nat>, fate: Fate) returns (done: Fate)
      modifies this`session
      ensures done == if timeout.Some? then fate else Ran
      ensures session == if timeout.Some? && Took(fate) then AfterSet(old(session), timeout.value) else old(session)
    {
      if timeout.None? { return Ran; }
      if Took(fate) {
        session := AfterSet(session, timeout.value);
      }
      return fate;
    }

    /** Sends nothing when there is no timeout; with nothing saved, the server rejects the statement. */
    method RestoreLockTimeout(timeout: Option<nat>, fate: Fate) returns (done: Fate)
      modifies this`session
      ensures done == if timeout.None? then Ran
                      else if fate == Ran && old(session.saved).None? then Rejected
                      else fate
      ensures session == if timeout.Some? && Took(fate) && old(session.saved).Some?
                         then AfterRestore(old(session)) else old(session)
    {
      if timeout.None? { return Ran; }
      if session.saved.None? { return if fate == Ran then Rejected else fate; }
      if Took(fate) {
        session := AfterRestore(session);
      }
      return fate;
    }

    /**
     `claim_many`: set the timeout, insert under the token, restore the timeout whether or not the insert
     worked, then read the fresh ids back. `during` is the session's timeout while the insert runs.
     */
    method ClaimMany(consumer: string, ids: seq<string>, token: nat, timeout: Option<nat>, fates: Fates)
      returns (reply: Reply<seq<Claim>>, ghost during: nat)
      modifies this
      ensures session == AfterUse(old(session), Claims(timeout, fates, true))
      ensures Replies(reply, timeout, fates, true)
      ensures if SetRan(timeout, fates) && Took(fates.insert)
              then OnlyInserts(old(table), table, consumer, ids, Row(Some(token), old(calls)))
              else table == old(table)
      ensures during == if timeout.Some? && fates.setting == Ran then timeout.value else old(session.timeout)
      ensures calls == old(calls) + if SetRan(timeout, fates) then 1 else 0
      ensures reply.Answer? ==> reply.value == ClaimsFromFresh(ids, ReadBack(table, consumer, ids, token))
      ensures reply.Answer? && TokenUnused(old(table), consumer, ids, token) ==>
                forall i :: 0 <= i < |ids| ==> (reply.value[i] == Fresh <==> Key(consumer, ids[i]) !in old(table))
    {
      during := session.timeout;
      var done := SetLockTimeout(timeout, fates.setting);
      if done == Rejected { return Failed(Setting), during; }
      if done.Dropped? { return Cancelled, during; }
      during := session.timeout;
      if Took(fates.insert) {
        InsertOnlyInserts(table, consumer, ids, Some(token), calls);
        table := InsertStamped(table, consumer, ids, Some(token), calls);
      }
      calls := calls + 1;
      if fates.insert.Dropped? { return Cancelled, during; }
      var restored := RestoreLockTimeout(timeout, fates.restore);
      if restored.Dropped? { return Cancelled, during; }
      if fates.insert == Rejected { return Failed(Inserting), during; }
      if restored == Rejected { return Failed(Restoring), during; }
      if fates.read == Rejected { return Failed(Reading), during; }
      if fates.read.Dropped? { return Cancelled, during; }
      ReadBackMeaning(table, consumer, ids, token);
      return Answer(ClaimsFromFresh(ids, ReadBack(table, consumer, ids, token))), during;
    }

    /** `claim`: the same around a single insert that reports the rows it affected. */
    method Claim(key: Key, timeout: Option<nat>, fates: Fates)
      returns (reply: Reply<Claim>, ghost during: nat)
      modifies this
      ensures session == AfterUse(old(session), Claims(timeout, fates, false))
      ensures Replies(reply, timeout, fates, false)
      ensures if SetRan(timeout, fates) && Took(fates.insert)
              then OnlyInserts(old(table), table, key.consumer, [key.id], Row(None, old(calls)))
              else table == old(table)
      ensures during == if timeout.Some? && fates.setting == Ran then timeout.value else old(session.timeout)
      ensures calls == old(calls) + if SetRan(timeout, fates) then 1 else 0
      ensures reply.Answer? ==> (reply.value == Fresh <==> key !in old(table))
    {
      during := session.timeout;
      var done := SetLockTimeout(timeout, fates.setting);
      if done == Rejected { return Failed(Setting), during; }
      if done.Dropped? { return Cancelled, during; }
      var affected := if key in table then 0 else 1;
      during := session.timeout;
      if Took(fates.insert) {
        InsertOnlyInserts(table, key.consumer, [key.id], None, calls);
        table := InsertStamped(table, key.consumer, [key.id], None, calls);
      }
      calls := calls + 1;
      if fates.insert.Dropped? { return Cancelled, during; }
      var restored := RestoreLockTimeout(timeout, fates.restore);
      if restored.Dropped? { return Cancelled, during; }
      if fates.insert == Rejected { return Failed(Inserting), during; }
      if restored == Rejected { return Failed(Restoring), during; }
      return Answer(if affected == 1 then Fresh else Duplicate), during;
    }
  }
}
