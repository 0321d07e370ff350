/**
 * The vote engine (`voteOnItem`): one participant adds `delta` to their own
 * contribution to one item, and the item's total is recomputed from all of
 * its vote rows.
 */
module Voting {
  import opened Results
  import opened Schema
  import opened Tables

  datatype VoteInput = VoteInput(item_id: Id, user_session_id: SessionId, delta: int)

  datatype VoteError =
    | ItemNotFound(item_id: Id)  // "Item with id ... not found"
    | CannotDecrement            // "Cannot decrement: user has no votes on this item"

  /**
   * The effect of one vote, as one atomic step. `rowId` is the id the handler
   * generates for the vote row it inserts when the caller has none yet.
   */
  function Vote(db: Db, input: VoteInput, rowId: Id): (out: Step<Result<TallyItem, VoteError>>)
    ensures out.result.Failure? ==> out.db == db
    ensures out.result.Success? ==>
      && out.result.value.id == input.item_id
      && out.result.value.total_count == SumFor(out.db.votes, input.item_id)
      && FindItem(out.db.items, input.item_id) == Some(out.result.value)
      && forall it :: it in out.db.items && it.id == input.item_id ==>
           it.total_count == SumFor(out.db.votes, input.item_id)
  {
    match FindItem(db.items, input.item_id)
    case None => Step(Failure(ItemNotFound(input.item_id)), db)
    case Some(item) =>
      var current := CurrentCount(db.votes, input.item_id, input.user_session_id);
      if input.delta == -1 && current <= 0 then
        Step(Failure(CannotDecrement), db)
      else
        var now := db.clock + 1;
        var newCount := current + input.delta;
        var votes := Upsert(db.votes, input, newCount, rowId, now);
        var total := SumFor(votes, input.item_id);
        FindItemAfterSetTotal(db.items, input.item_id, total);
        Step(Success(item.(total_count := total)),
             Db(db.lists, SetTotal(db.items, input.item_id, total), votes, now))
  }

  /** The write of the caller's row: update the row found, by its id, or insert a new one. */
  function Upsert(votes: seq<TallyVote>, input: VoteInput, newCount: int, rowId: Id, now: Timestamp): seq<TallyVote> {
    match FindVote(votes, input.item_id, input.user_session_id)
    case Some(existing) => UpdateVote(votes, existing.id, newCount, now)
    case None => votes + [TallyVote(rowId, input.item_id, input.user_session_id, newCount, now, now)]
  }

  /**
   * The outcome of a vote that passes both checks, for a caller that has
   * already computed the caller's new count and the rows as written.
   */
  lemma VoteSucceedsWith(db: Db, input: VoteInput, rowId: Id, newCount: int, now: Timestamp, votes: seq<TallyVote>)
    requires input.item_id in ItemIds(db.items)
    requires !(input.delta == -1 && CurrentCount(db.votes, input.item_id, input.user_session_id) <= 0)
    requires newCount == CurrentCount(db.votes, input.item_id, input.user_session_id) + input.delta
    requires now == db.clock + 1
    requires votes == Upsert(db.votes, input, newCount, rowId, now)
    ensures Vote(db, input, rowId).db == Db(db.lists, SetTotal(db.items, input.item_id, SumFor(votes, input.item_id)), votes, now)
    ensures Vote(db, input, rowId).result == Success(FindItem(db.items, input.item_id).value.(total_count := SumFor(votes, input.item_id)))
  {
  }

  /** The two ways a vote fails, each exactly when its guard holds; a failed vote writes nothing. */
  lemma VoteErrors(db: Db, input: VoteInput, rowId: Id)
    ensures var out := Vote(db, input, rowId);
      && (out.result == Failure(ItemNotFound(input.item_id)) <==> input.item_id !in ItemIds(db.items))
      && (out.result == Failure(CannotDecrement) <==>
            input.item_id in ItemIds(db.items) && input.delta == -1
            && CurrentCount(db.votes, input.item_id, input.user_session_id) <= 0)
      && (out.result.Failure? ==> out.db == db)
  {
  }

  /** A participant who never voted on an item cannot retract a vote on it. */
  lemma FirstRetractionFails(db: Db, input: VoteInput, rowId: Id)
    requires input.delta == -1
    requires forall v :: v in db.votes ==> v.item_id != input.item_id || v.user_session_id != input.user_session_id
    ensures Vote(db, input, rowId).result.Failure?
    ensures Vote(db, input, rowId).db == db
  {
  }

  /**
   * After a successful vote the caller's row holds the previous count (0 without
   * a row) plus `delta`. An existing row keeps its id and creation time and gets
   * a later update time; otherwise exactly one row, with the generated id, is added.
   */
  lemma {:induction false} VoteSetsCallerRow(db: Db, input: VoteInput, rowId: Id)
    requires TimestampsBehindClock(db)
    requires Vote(db, input, rowId).result.Success?
    ensures var out := Vote(db, input, rowId);
      var before := FindVote(db.votes, input.item_id, input.user_session_id);
      var after := FindVote(out.db.votes, input.item_id, input.user_session_id);
      && after.Some?
      && after.value.count == CurrentCount(db.votes, input.item_id, input.user_session_id) + input.delta
      && after.value.updated_at == db.clock + 1
      && (before.Some? ==>
            && |out.db.votes| == |db.votes|
            && after.value.id == before.value.id
            && after.value.created_at == before.value.created_at
            && after.value.updated_at > before.value.updated_at)
      && (before.None? ==>
            && out.db.votes == db.votes + [after.value]
            && after.value.id == rowId
            && after.value.created_at == after.value.updated_at)
  {
    var out := Vote(db, input, rowId);
    var before := FindVote(db.votes, input.item_id, input.user_session_id);
    var newCount := CurrentCount(db.votes, input.item_id, input.user_session_id) + input.delta;
    var now := db.clock + 1;
    if before.Some? {
      assert out.db.votes == UpdateVote(db.votes, before.value.id, newCount, now);
      FindVoteAfterUpdate(db.votes, input.item_id, input.user_session_id, newCount, now);
      assert before.value.updated_at <= db.clock;
    } else {
      var row := TallyVote(rowId, input.item_id, input.user_session_id, newCount, now, now);
      assert out.db.votes == db.votes + [row];
      FindVoteAfterAppend(db.votes, row);
    }
  }

  /**
   * A successful vote moves the sum of the voted item's rows by exactly `delta`
   * and leaves the sum of every other item's rows alone.
   */
  lemma {:induction false} VoteShiftsSum(db: Db, input: VoteInput, rowId: Id, itemId: Id)
    requires UniqueVoteIds(db.votes)
    requires Vote(db, input, rowId).result.Success?
    ensures SumFor(Vote(db, input, rowId).db.votes, itemId)
         == SumFor(db.votes, itemId) + (if itemId == input.item_id then input.delta else 0)
  {
    var out := Vote(db, input, rowId);
    var existing := FindVote(db.votes, input.item_id, input.user_session_id);
    var newCount := CurrentCount(db.votes, input.item_id, input.user_session_id) + input.delta;
    var now := db.clock + 1;
    assert out.db.votes == Upsert(db.votes, input, newCount, rowId, now);
    if existing.Some? {
      var k :| 0 <= k < |db.votes| && db.votes[k] == existing.value;
      SumForUpdate(db.votes, k, newCount, now, itemId);
    } else {
      var row := TallyVote(rowId, input.item_id, input.user_session_id, newCount, now, now);
      SumForAppend(db.votes, row, itemId);
    }
  }

  /**
   * When the stored total agreed with the rows before a successful vote, the
   * new total is the old total plus `delta`.
   */
  lemma VoteShiftsTotal(db: Db, input: VoteInput, rowId: Id)
    requires UniqueVoteIds(db.votes)
    requires Vote(db, input, rowId).result.Success?
    ensures FindItem(db.items, input.item_id).value.total_count == SumFor(db.votes, input.item_id) ==>
      Vote(db, input, rowId).result.value.total_count == FindItem(db.items, input.item_id).value.total_count + input.delta
  {
    VoteShiftsSum(db, input, rowId, input.item_id);
  }

  /**
   * The total is recomputed from the rows, not adjusted: with rows of 3 and 0
   * on an item whose stored total is 0, a first +1 from a third participant
   * stores and returns 4, not the old total plus one.
   */
  lemma VoteRecomputesFromRows()
    ensures var db := Db([TallyList("L", "list", 0)], [TallyItem("I", "L", "item", 0, 0)],
                         [TallyVote("a", "I", "s1", 3, 0, 0), TallyVote("b", "I", "s2", 0, 0, 0)], 0);
      var out := Vote(db, VoteInput("I", "s3", 1), "c");
      && out.result == Success(TallyItem("I", "L", "item", 4, 0))
      && out.db.items == [TallyItem("I", "L", "item", 4, 0)]
      && out.db.votes == db.votes + [TallyVote("c", "I", "s3", 1, 1, 1)]
  {
    var votes := [TallyVote("a", "I", "s1", 3, 0, 0), TallyVote("b", "I", "s2", 0, 0, 0)];
    assert "s3" != "s1" && "s3" != "s2" by {
      assert "s3"[1] != "s1"[1] && "s3"[1] != "s2"[1];
    }
    assert FindVote(votes, "I", "s3") == None;
    assert SumFor(votes[1..], "I") == 0 by {
      assert votes[1..][1..] == [];
    }
    SumForAppend(votes, TallyVote("c", "I", "s3", 1, 1, 1), "I");
  }

  /**
   * A successful vote writes only the caller's row and this item's total:
   * lists, other items, other sessions' rows and rows of other items stay as they were.
   * Rows are written by id, so every row whose id differs from the caller's row
   * found by the lookup stays too, even another row of the same (item, session).
   */
  lemma VoteFrame(db: Db, input: VoteInput, rowId: Id)
    requires UniqueVoteIds(db.votes)
    requires Vote(db, input, rowId).result.Success?
    ensures var out := Vote(db, input, rowId);
      && out.db.lists == db.lists
      && |out.db.items| == |db.items|
      && (forall i :: 0 <= i < |db.items| ==>
            out.db.items[i] == if db.items[i].id == input.item_id
                               then db.items[i].(total_count := out.result.value.total_count)
                               else db.items[i])
      && |db.votes| <= |out.db.votes| <= |db.votes| + 1
      && (forall i :: 0 <= i < |db.votes| ==>
            (db.votes[i].item_id != input.item_id || db.votes[i].user_session_id != input.user_session_id) ==>
            out.db.votes[i] == db.votes[i])
      && var found := FindVote(db.votes, input.item_id, input.user_session_id);
         forall i :: 0 <= i < |db.votes| && (found.None? || db.votes[i].id != found.value.id) ==>
           out.db.votes[i] == db.votes[i]
  {
  }

  /** A vote on an existing item keeps keys unique, foreign keys valid and timestamps behind the clock. */
  lemma VotePreservesWellFormed(db: Db, input: VoteInput, rowId: Id)
    requires WellFormed(db)
    requires rowId !in VoteIds(db.votes)
    ensures WellFormed(Vote(db, input, rowId).db)
  {
    var out := Vote(db, input, rowId);
    if out.result.Success? {
      var existing := FindVote(db.votes, input.item_id, input.user_session_id);
      var newCount := CurrentCount(db.votes, input.item_id, input.user_session_id) + input.delta;
      var now := db.clock + 1;
      var total := SumFor(out.db.votes, input.item_id);
      if existing.Some? {
        assert out.db == Db(db.lists, SetTotal(db.items, input.item_id, total),
                            UpdateVote(db.votes, existing.value.id, newCount, now), now);
        UpdateKeepsWellFormed(db, input.item_id, total, existing.value.id, newCount);
      } else {
        var row := TallyVote(rowId, input.item_id, input.user_session_id, newCount, now, now);
        assert out.db == Db(db.lists, SetTotal(db.items, input.item_id, total), db.votes + [row], now);
        InsertKeepsWellFormed(db, input.item_id, total, row);
      }
    }
  }

  /** The writes of a vote that updates an existing row keep the store well formed. */
  lemma UpdateKeepsWellFormed(db: Db, itemId: Id, total: int, voteId: Id, count: int)
    requires WellFormed(db)
    ensures WellFormed(Db(db.lists, SetTotal(db.items, itemId, total),
                          UpdateVote(db.votes, voteId, count, db.clock + 1), db.clock + 1))
  {
    SetTotalKeepsKeys(db.items, itemId, total);
    UpdateVoteKeepsKeys(db.votes, voteId, count, db.clock + 1);
  }

  /** The writes of a vote that inserts a fresh row for an existing item keep the store well formed. */
  lemma InsertKeepsWellFormed(db: Db, itemId: Id, total: int, row: TallyVote)
    requires WellFormed(db)
    requires row.id !in VoteIds(db.votes) && row.item_id in ItemIds(db.items)
    requires row.created_at == row.updated_at == db.clock + 1
    ensures WellFormed(Db(db.lists, SetTotal(db.items, itemId, total), db.votes + [row], db.clock + 1))
  {
    SetTotalKeepsKeys(db.items, itemId, total);
    forall i | 0 <= i < |db.votes| ensures db.votes[i].id != row.id {
      assert db.votes[i] in db.votes;
    }
  }

  /** When every stored total agreed with the vote rows before a vote, every total agrees after it. */
  lemma VotePreservesTotalsAgree(db: Db, input: VoteInput, rowId: Id)
    requires UniqueVoteIds(db.votes)
    requires TotalsAgree(db.items, db.votes)
    ensures TotalsAgree(Vote(db, input, rowId).db.items, Vote(db, input, rowId).db.votes)
  {
    var out := Vote(db, input, rowId);
    if out.result.Success? {
      forall it | it in out.db.items ensures it.total_count == SumFor(out.db.votes, it.id) {
        if it.id != input.item_id {
          var i :| 0 <= i < |out.db.items| && out.db.items[i] == it;
          assert db.items[i] == it;
          VoteShiftsSum(db, input, rowId, it.id);
        }
      }
    }
  }

  /** A vote never creates a second row for the same (item, session) pair. */
  lemma VotePreservesOneRowPerVoter(db: Db, input: VoteInput, rowId: Id)
    requires OneRowPerVoter(db.votes)
    ensures OneRowPerVoter(Vote(db, input, rowId).db.votes)
  {
    var out := Vote(db, input, rowId);
    if out.result.Success? && FindVote(db.votes, input.item_id, input.user_session_id).None? {
      var n := |db.votes|;
      forall i | 0 <= i < n
        ensures out.db.votes[i].item_id != out.db.votes[n].item_id
             || out.db.votes[i].user_session_id != out.db.votes[n].user_session_id
      {
        assert db.votes[i] in db.votes;
      }
    }
  }

  /**
   * With unit deltas, counts never go below zero: a retraction is allowed only
   * from a count of at least 1.
   */
  lemma VotePreservesNonNegative(db: Db, input: VoteInput, rowId: Id)
    requires input.delta == 1 || input.delta == -1
    requires NonNegativeCounts(db.votes)
    ensures NonNegativeCounts(Vote(db, input, rowId).db.votes)
  {
    var out := Vote(db, input, rowId);
    if out.result.Success? {
      var existing := FindVote(db.votes, input.item_id, input.user_session_id);
      forall v | v in out.db.votes ensures v.count >= 0 {
        var i :| 0 <= i < |out.db.votes| && out.db.votes[i] == v;
        if i < |db.votes| {
          assert db.votes[i] in db.votes;
        }
      }
    }
  }

  /**
   * A vote of +1 followed by a vote of -1 from the same participant succeeds
   * whenever the participant's count was not negative, and restores both that
   * count and the sum of the item's rows. The returned total is that starting
   * row sum; it equals the starting stored total only when the two agreed.
   */
  lemma {:induction false} VoteThenRetract(db: Db, item: Id, session: SessionId, rowId1: Id, rowId2: Id)
    requires WellFormed(db)
    requires rowId1 !in VoteIds(db.votes)
    requires item in ItemIds(db.items)
    requires CurrentCount(db.votes, item, session) >= 0
    ensures var first := Vote(db, VoteInput(item, session, 1), rowId1);
      var second := Vote(first.db, VoteInput(item, session, -1), rowId2);
      && first.result.Success? && second.result.Success?
      && CurrentCount(second.db.votes, item, session) == CurrentCount(db.votes, item, session)
      && SumFor(second.db.votes, item) == SumFor(db.votes, item)
      && second.result.value.total_count == SumFor(db.votes, item)
      && (FindItem(db.items, item).value.total_count == SumFor(db.votes, item) ==>
            second.result.value.total_count == FindItem(db.items, item).value.total_count)
  {
    var first := Vote(db, VoteInput(item, session, 1), rowId1);
    VoteOnceUp(db, item, session, rowId1);
    VoteSetsCallerRow(first.db, VoteInput(item, session, -1), rowId2);
    VoteShiftsSum(first.db, VoteInput(item, session, -1), rowId2, item);
  }

  /** The first half of `VoteThenRetract`: a +1 on an existing item succeeds and keeps the store well formed. */
  lemma VoteOnceUp(db: Db, item: Id, session: SessionId, rowId: Id)
    requires WellFormed(db)
    requires rowId !in VoteIds(db.votes)
    requires item in ItemIds(db.items)
    ensures var first := Vote(db, VoteInput(item, session, 1), rowId);
      && first.result.Success?
      && WellFormed(first.db)
      && item in ItemIds(first.db.items)
      && CurrentCount(first.db.votes, item, session) == CurrentCount(db.votes, item, session) + 1
      && SumFor(first.db.votes, item) == SumFor(db.votes, item) + 1
  {
    var input := VoteInput(item, session, 1);
    VoteSetsCallerRow(db, input, rowId);
    VoteShiftsSum(db, input, rowId, item);
    VotePreservesWellFormed(db, input, rowId);
    SetTotalKeepsKeys(db.items, item, SumFor(Vote(db, input, rowId).db.votes, item));
  }
}
