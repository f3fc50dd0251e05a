/**
 Claims of one consumer, on the set of ids its inbox rows record.
 `ClaimEach` is the meaning every batch claim is held to: one claim per id, in input order.
 */
module Claims {

  datatype Claim = Fresh | Duplicate

  /** The answers a run of claims gave, and the rows it left. */
  datatype Claimed = Claimed(claims: seq<Claim>, rows: set<string>)

  function Answer(rows: set<string>, id: string): Claim {
    if id in rows then Duplicate else Fresh
  }

  function ClaimEach(rows: set<string>, ids: seq<string>): Claimed {
    if ids == [] then Claimed([], rows)
    else
      var n := |ids| - 1;
      var before := ClaimEach(rows, ids[..n]);
      Claimed(before.claims + [Answer(before.rows, ids[n])], before.rows + {ids[n]})
  }

  /** `Fresh` goes to the first occurrence of an unrecorded id and to nothing else. */
  ghost predicate FirstUnrecorded(rows: set<string>, ids: seq<string>, i: nat)
    requires i < |ids|
  {
    ids[i] !in rows && ids[i] !in ids[..i]
  }

  lemma {:induction false} ClaimEachMeaning(rows: set<string>, ids: seq<string>)
    ensures |ClaimEach(rows, ids).claims| == |ids|
    ensures forall i :: 0 <= i < |ids| ==>
                          (ClaimEach(rows, ids).claims[i] == Fresh <==> FirstUnrecorded(rows, ids, i))
    ensures ClaimEach(rows, ids).rows == rows + set id | id in ids
  {
    if ids != [] {
      var n := |ids| - 1;
      ClaimEachMeaning(rows, ids[..n]);
      assert ids == ids[..n] + [ids[n]];
      forall i | 0 <= i < |ids|
        ensures ClaimEach(rows, ids).claims[i] == Fresh <==> FirstUnrecorded(rows, ids, i)
      {
        if i < n {
          assert ids[..n][..i] == ids[..i];
          assert FirstUnrecorded(rows, ids[..n], i) <==> FirstUnrecorded(rows, ids, i);
        }
      }
    }
  }

  // ------------------------------------- one statement for the whole batch

  /** The rows an insert-if-absent of `ids` adds (`ON CONFLICT DO NOTHING`). */
  function Absent(rows: set<string>, ids: seq<string>): set<string> {
    set id | id in ids && id !in rows
  }

  /** `claims_from_fresh`: the answers read off the list that `RETURNING` gave. */
  function ClaimsFromFresh(ids: seq<string>, returned: seq<string>): seq<Claim> {
    seq(|ids|, i requires 0 <= i < |ids| => if ids[i] in returned then Fresh else Duplicate)
  }

  /** `RETURNING` lists the inserted ids, in no promised order. */
  ghost predicate Lists(returned: seq<string>, inserted: set<string>) {
    forall id :: id in returned <==> id in inserted
  }

  ghost predicate NoUnrecordedRepeat(rows: set<string>, ids: seq<string>) {
    forall i, j :: 0 <= i < j < |ids| && ids[i] == ids[j] ==> ids[i] in rows
  }

  /**
   One insert-if-absent plus `claims_from_fresh` leaves the rows that claiming one by one leaves, and
   gives the same answers exactly when no unrecorded id is sent twice. `Consumer` never sends one twice.
   */
  lemma BatchInsertIsOneByOne(rows: set<string>, ids: seq<string>, returned: seq<string>)
    requires Lists(returned, Absent(rows, ids))
    ensures rows + Absent(rows, ids) == ClaimEach(rows, ids).rows
    ensures ClaimsFromFresh(ids, returned) == ClaimEach(rows, ids).claims <==> NoUnrecordedRepeat(rows, ids)
  {
    ClaimEachMeaning(rows, ids);
    var batch, each := ClaimsFromFresh(ids, returned), ClaimEach(rows, ids).claims;
    if NoUnrecordedRepeat(rows, ids) {
      forall i | 0 <= i < |ids|
        ensures batch[i] == each[i]
      {
        assert ids[i] in ids;
        if ids[i] in ids[..i] {
          var j :| 0 <= j < i && ids[..i][j] == ids[i];
          assert ids[j] == ids[i];
        }
      }
    } else {
      var i, j :| 0 <= i < j < |ids| && ids[i] == ids[j] && ids[i] !in rows;
      assert ids[..j][i] == ids[j];
      assert !FirstUnrecorded(rows, ids, j);
      assert ids[j] in returned;
      assert batch[j] != each[j];
    }
  }

}
