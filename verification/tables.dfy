/**
 * The SQL statements the handlers issue, each as a function over a table:
 * SELECT ... WHERE (the first matching row, or all of them), UPDATE ... WHERE,
 * DELETE ... WHERE and SUM, with the facts about them that the handlers' proofs use.
 */
module Tables {
  import opened Results
  import opened Schema

  /** SELECT * FROM lists WHERE id = listId, first row. */
  function FindList(lists: seq<TallyList>, listId: Id): (r: Option<TallyList>)
    ensures r.None? <==> listId !in ListIds(lists)
    ensures r.Some? ==> r.value in lists && r.value.id == listId
  {
    if lists == [] then None
    else if lists[0].id == listId then Some(lists[0])
    else FindList(lists[1..], listId)
  }

  /** SELECT * FROM items WHERE id = itemId, first row. */
  function FindItem(items: seq<TallyItem>, itemId: Id): (r: Option<TallyItem>)
    ensures r.None? <==> itemId !in ItemIds(items)
    ensures r.Some? ==> r.value in items && r.value.id == itemId
  {
    if items == [] then None
    else if items[0].id == itemId then Some(items[0])
    else FindItem(items[1..], itemId)
  }

  /** SELECT * FROM votes WHERE item_id = itemId AND user_session_id = session, first row. */
  function FindVote(votes: seq<TallyVote>, itemId: Id, session: SessionId): (r: Option<TallyVote>)
    ensures r.None? <==> forall v :: v in votes ==> v.item_id != itemId || v.user_session_id != session
    ensures r.Some? ==> r.value in votes && r.value.item_id == itemId && r.value.user_session_id == session
  {
    if votes == [] then None
    else if votes[0].item_id == itemId && votes[0].user_session_id == session then Some(votes[0])
    else FindVote(votes[1..], itemId, session)
  }

  /** A participant's net contribution to an item: the row's count, or 0 without a row. */
  function CurrentCount(votes: seq<TallyVote>, itemId: Id, session: SessionId): int {
    match FindVote(votes, itemId, session)
    case None => 0
    case Some(v) => v.count
  }

  /** SELECT * FROM items WHERE list_id = listId. */
  function ItemsOfList(items: seq<TallyItem>, listId: Id): (r: seq<TallyItem>)
    ensures forall it :: it in r <==> it in items && it.list_id == listId
    ensures |r| <= |items|
  {
    if items == [] then []
    else if items[0].list_id == listId then [items[0]] + ItemsOfList(items[1..], listId)
    else ItemsOfList(items[1..], listId)
  }

  /** SELECT COALESCE(SUM(count), 0) FROM votes WHERE item_id = itemId. */
  function SumFor(votes: seq<TallyVote>, itemId: Id): int {
    if votes == [] then 0
    else (if votes[0].item_id == itemId then votes[0].count else 0) + SumFor(votes[1..], itemId)
  }

  /** The aggregate invariant: every item's stored total is the sum of its vote rows. */
  predicate TotalsAgree(items: seq<TallyItem>, votes: seq<TallyVote>) {
    forall it :: it in items ==> it.total_count == SumFor(votes, it.id)
  }

  /** UPDATE votes SET count = count, updated_at = now WHERE id = voteId. */
  function UpdateVote(votes: seq<TallyVote>, voteId: Id, count: int, now: Timestamp): seq<TallyVote> {
    seq(|votes|, i requires 0 <= i < |votes| =>
      if votes[i].id == voteId then votes[i].(count := count, updated_at := now) else votes[i])
  }

  /** UPDATE items SET total_count = total WHERE id = itemId. */
  function SetTotal(items: seq<TallyItem>, itemId: Id, total: int): seq<TallyItem> {
    seq(|items|, i requires 0 <= i < |items| =>
      if items[i].id == itemId then items[i].(total_count := total) else items[i])
  }

  /** DELETE FROM votes WHERE item_id = itemId: the rows that survive. */
  function DropVotesOf(votes: seq<TallyVote>, itemId: Id): (r: seq<TallyVote>)
    ensures forall v :: v in r <==> v in votes && v.item_id != itemId
    ensures |r| <= |votes|
  {
    if votes == [] then []
    else if votes[0].item_id != itemId then [votes[0]] + DropVotesOf(votes[1..], itemId)
    else DropVotesOf(votes[1..], itemId)
  }

  /** DELETE FROM items WHERE id = itemId: the rows that survive. */
  function DropItem(items: seq<TallyItem>, itemId: Id): (r: seq<TallyItem>)
    ensures forall it :: it in r <==> it in items && it.id != itemId
    ensures |r| <= |items|
  {
    if items == [] then []
    else if items[0].id != itemId then [items[0]] + DropItem(items[1..], itemId)
    else DropItem(items[1..], itemId)
  }

  // ---------------------------------------------------------------------------
  // Sums

  /** Appending a row adds its count to the sum of its own item and to no other. */
  lemma {:induction false} SumForAppend(votes: seq<TallyVote>, v: TallyVote, itemId: Id)
    ensures SumFor(votes + [v], itemId) == SumFor(votes, itemId) + (if v.item_id == itemId then v.count else 0)
  {
    if votes == [] {
      assert votes + [v] == [v];
    } else {
      assert (votes + [v])[1..] == votes[1..] + [v];
      SumForAppend(votes[1..], v, itemId);
    }
  }

  /** An item that no row references sums to 0 (the COALESCE case). */
  lemma {:induction false} SumForUnreferenced(votes: seq<TallyVote>, itemId: Id)
    requires forall v :: v in votes ==> v.item_id != itemId
    ensures SumFor(votes, itemId) == 0
  {
    if votes != [] {
      assert votes[0] in votes;
      SumForUnreferenced(votes[1..], itemId);
    }
  }

  /** An update of a row id that no row carries changes nothing. */
  lemma UpdateVoteAbsent(votes: seq<TallyVote>, voteId: Id, count: int, now: Timestamp)
    requires forall v :: v in votes ==> v.id != voteId
    ensures UpdateVote(votes, voteId, count, now) == votes
  {
  }

  /**
   * Setting the count of the row with id `votes[k].id`, when row ids are unique,
   * moves the sum of that row's item by the change in its count and no other sum.
   */
  lemma {:induction false} SumForUpdate(votes: seq<TallyVote>, k: nat, count: int, now: Timestamp, itemId: Id)
    requires k < |votes| && UniqueVoteIds(votes)
    ensures SumFor(UpdateVote(votes, votes[k].id, count, now), itemId)
         == SumFor(votes, itemId) + (if votes[k].item_id == itemId then count - votes[k].count else 0)
  {
    var voteId := votes[k].id;
    var updated := UpdateVote(votes, voteId, count, now);
    assert updated[1..] == UpdateVote(votes[1..], voteId, count, now);
    if k == 0 {
      forall v | v in votes[1..] ensures v.id != voteId {
        var j :| 0 <= j < |votes[1..]| && votes[1..][j] == v;
        assert votes[j + 1] == v;
      }
      UpdateVoteAbsent(votes[1..], voteId, count, now);
    } else {
      SumForUpdate(votes[1..], k - 1, count, now, itemId);
    }
  }

  /** Deleting the rows of one item leaves the sum of every other item as it was. */
  lemma {:induction false} SumForDropOther(votes: seq<TallyVote>, dropped: Id, itemId: Id)
    requires dropped != itemId
    ensures SumFor(DropVotesOf(votes, dropped), itemId) == SumFor(votes, itemId)
  {
    if votes != [] {
      SumForDropOther(votes[1..], dropped, itemId);
    }
  }

  // ---------------------------------------------------------------------------
  // Finding the caller's row after a write

  /** Updating the first matching row by its id keeps it the first match, with the new count and time. */
  lemma {:induction false} FindVoteAfterUpdate(votes: seq<TallyVote>, itemId: Id, session: SessionId, count: int, now: Timestamp)
    requires FindVote(votes, itemId, session).Some?
    ensures var v := FindVote(votes, itemId, session).value;
      FindVote(UpdateVote(votes, v.id, count, now), itemId, session) == Some(v.(count := count, updated_at := now))
  {
    var v := FindVote(votes, itemId, session).value;
    var updated := UpdateVote(votes, v.id, count, now);
    assert updated[1..] == UpdateVote(votes[1..], v.id, count, now);
    if !(votes[0].item_id == itemId && votes[0].user_session_id == session) {
      FindVoteAfterUpdate(votes[1..], itemId, session, count, now);
    }
  }

  /** When no row matches, an appended row is the one found. */
  lemma FindVoteAfterAppend(votes: seq<TallyVote>, v: TallyVote)
    requires FindVote(votes, v.item_id, v.user_session_id).None?
    ensures FindVote(votes + [v], v.item_id, v.user_session_id) == Some(v)
  {
  }

  /** Setting a total keeps the first row with that id first, with the new total. */
  lemma {:induction false} FindItemAfterSetTotal(items: seq<TallyItem>, itemId: Id, total: int)
    requires FindItem(items, itemId).Some?
    ensures FindItem(SetTotal(items, itemId, total), itemId) == Some(FindItem(items, itemId).value.(total_count := total))
  {
    assert SetTotal(items, itemId, total)[1..] == SetTotal(items[1..], itemId, total);
    if items[0].id != itemId {
      FindItemAfterSetTotal(items[1..], itemId, total);
    }
  }

  // ---------------------------------------------------------------------------
  // Deletion keeps keys unique

  lemma {:induction false} DropVotesKeepsKeys(votes: seq<TallyVote>, itemId: Id)
    requires UniqueVoteIds(votes)
    ensures UniqueVoteIds(DropVotesOf(votes, itemId))
  {
    if votes != [] {
      var rest := DropVotesOf(votes[1..], itemId);
      DropVotesKeepsKeys(votes[1..], itemId);
      if votes[0].item_id != itemId {
        var r := [votes[0]] + rest;
        forall j | 0 < j < |r| ensures r[0].id != r[j].id {
          assert r[j] in rest;
          var k :| 0 <= k < |votes[1..]| && votes[1..][k] == r[j];
          assert votes[k + 1] == r[j];
        }
      }
    }
  }

  lemma {:induction false} DropVotesKeepsOneRowPerVoter(votes: seq<TallyVote>, itemId: Id)
    requires OneRowPerVoter(votes)
    ensures OneRowPerVoter(DropVotesOf(votes, itemId))
  {
    if votes != [] {
      var rest := DropVotesOf(votes[1..], itemId);
      DropVotesKeepsOneRowPerVoter(votes[1..], itemId);
      if votes[0].item_id != itemId {
        var r := [votes[0]] + rest;
        forall j | 0 < j < |r|
          ensures r[0].item_id != r[j].item_id || r[0].user_session_id != r[j].user_session_id
        {
          assert r[j] in rest;
          var k :| 0 <= k < |votes[1..]| && votes[1..][k] == r[j];
          assert votes[k + 1] == r[j];
        }
      }
    }
  }

  lemma {:induction false} DropItemKeepsKeys(items: seq<TallyItem>, itemId: Id)
    requires UniqueItemIds(items)
    ensures UniqueItemIds(DropItem(items, itemId))
  {
    if items != [] {
      var rest := DropItem(items[1..], itemId);
      DropItemKeepsKeys(items[1..], itemId);
      if items[0].id != itemId {
        var r := [items[0]] + rest;
        forall j | 0 < j < |r| ensures r[0].id != r[j].id {
          assert r[j] in rest;
          var k :| 0 <= k < |items[1..]| && items[1..][k] == r[j];
          assert items[k + 1] == r[j];
        }
      }
    }
  }

  /** Selecting the items of a list never repeats an item: unique ids stay unique. */
  lemma {:induction false} ItemsOfListKeepsKeys(items: seq<TallyItem>, listId: Id)
    requires UniqueItemIds(items)
    ensures UniqueItemIds(ItemsOfList(items, listId))
  {
    if items != [] {
      var rest := ItemsOfList(items[1..], listId);
      ItemsOfListKeepsKeys(items[1..], listId);
      if items[0].list_id == listId {
        var r := [items[0]] + rest;
        forall j | 0 < j < |r| ensures r[0].id != r[j].id {
          assert r[j] in rest;
          var k :| 0 <= k < |items[1..]| && items[1..][k] == r[j];
          assert items[k + 1] == r[j];
        }
      }
    }
  }

  // ---------------------------------------------------------------------------
  // Updates keep keys

  /** Setting a total changes no id, list reference or creation time. */
  lemma SetTotalKeepsKeys(items: seq<TallyItem>, itemId: Id, total: int)
    ensures var r := SetTotal(items, itemId, total);
      && ItemIds(r) == ItemIds(items)
      && (UniqueItemIds(items) ==> UniqueItemIds(r))
      && (forall it :: it in r ==> exists old_ :: old_ in items && old_.id == it.id && old_.list_id == it.list_id && old_.created_at == it.created_at)
  {
    var r := SetTotal(items, itemId, total);
    forall x | x in ItemIds(items) ensures x in ItemIds(r) {
      var i :| 0 <= i < |items| && items[i].id == x;
      assert r[i].id == x;
    }
    forall it | it in r
      ensures exists old_ :: old_ in items && old_.id == it.id && old_.list_id == it.list_id && old_.created_at == it.created_at
    {
      var i :| 0 <= i < |r| && r[i] == it;
      assert items[i] in items;
    }
  }

  /** Updating a vote row changes no id, item reference, session or creation time. */
  lemma UpdateVoteKeepsKeys(votes: seq<TallyVote>, voteId: Id, count: int, now: Timestamp)
    ensures var r := UpdateVote(votes, voteId, count, now);
      && (UniqueVoteIds(votes) ==> UniqueVoteIds(r))
      && (OneRowPerVoter(votes) ==> OneRowPerVoter(r))
      && (forall v :: v in r ==> exists old_ :: old_ in votes && old_.item_id == v.item_id && old_.created_at == v.created_at
                                              && (v.updated_at == old_.updated_at || v.updated_at == now))
  {
    var r := UpdateVote(votes, voteId, count, now);
    forall v | v in r
      ensures exists old_ :: old_ in votes && old_.item_id == v.item_id && old_.created_at == v.created_at
                             && (v.updated_at == old_.updated_at || v.updated_at == now)
    {
      var i :| 0 <= i < |r| && r[i] == v;
      assert votes[i] in votes;
    }
  }
}
