/**
 * `getUserVotes`: the vote rows of one session on the items of one list,
 * projected to (item_id, user_count), as the inner join of votes with items.
 */
module VoteQuery {
  import opened Results
  import opened Schema
  import opened Tables

  datatype UserVoteCount = UserVoteCount(item_id: Id, user_count: int)

  /** Some item row with this id belongs to the list. */
  predicate InList(items: seq<TallyItem>, itemId: Id, listId: Id) {
    exists it :: it in items && it.id == itemId && it.list_id == listId
  }

  /** The join of one vote row: one output row per item row with its item id in the list. */
  function JoinRow(v: TallyVote, items: seq<TallyItem>, listId: Id): (r: seq<UserVoteCount>)
    ensures forall e :: e in r ==> e == UserVoteCount(v.item_id, v.count)
    ensures r != [] <==> InList(items, v.item_id, listId)
  {
    if items == [] then []
    else
      var rest := JoinRow(v, items[1..], listId);
      assert InList(items, v.item_id, listId) <==>
        (items[0].id == v.item_id && items[0].list_id == listId) || InList(items[1..], v.item_id, listId);
      if items[0].id == v.item_id && items[0].list_id == listId then [UserVoteCount(v.item_id, v.count)] + rest
      else rest
  }

  /** The handler's query over the votes table, row by row, in table order. */
  function UserVotes(items: seq<TallyItem>, votes: seq<TallyVote>, listId: Id, session: SessionId): (r: seq<UserVoteCount>)
    ensures forall e :: e in r <==>
      exists v :: v in votes && v.user_session_id == session && InList(items, v.item_id, listId)
               && e == UserVoteCount(v.item_id, v.count)
  {
    if votes == [] then []
    else
      var head := if votes[0].user_session_id == session then JoinRow(votes[0], items, listId) else [];
      var rest := UserVotes(items, votes[1..], listId, session);
      assert forall e :: e in head <==>
        votes[0].user_session_id == session && InList(items, votes[0].item_id, listId)
        && e == UserVoteCount(votes[0].item_id, votes[0].count)
      by {
        if head != [] { assert head[0] in head; }
      }
      head + rest
  }

  /** `getUserVotes(listId, userSessionId)`; it only reads the store. */
  function GetUserVotes(db: Db, listId: Id, session: SessionId): (r: seq<UserVoteCount>)
    ensures forall e :: e in r <==>
      exists v :: v in db.votes && v.user_session_id == session && InList(db.items, v.item_id, listId)
               && e == UserVoteCount(v.item_id, v.count)
  {
    UserVotes(db.items, db.votes, listId, session)
  }

  /** The vote rows the query selects: this session's rows on items of this list. */
  function SelectedRows(items: seq<TallyItem>, votes: seq<TallyVote>, listId: Id, session: SessionId): (r: seq<TallyVote>)
    ensures forall v :: v in r <==> v in votes && v.user_session_id == session && InList(items, v.item_id, listId)
  {
    if votes == [] then []
    else if votes[0].user_session_id == session && InList(items, votes[0].item_id, listId)
    then [votes[0]] + SelectedRows(items, votes[1..], listId, session)
    else SelectedRows(items, votes[1..], listId, session)
  }

  lemma {:induction false} JoinRowUnique(v: TallyVote, items: seq<TallyItem>, listId: Id)
    requires UniqueItemIds(items)
    ensures JoinRow(v, items, listId) == if InList(items, v.item_id, listId) then [UserVoteCount(v.item_id, v.count)] else []
  {
    if items != [] {
      JoinRowUnique(v, items[1..], listId);
    }
  }

  /**
   * With unique item ids the result has exactly one entry per selected vote row,
   * in table order, each carrying the row's item id and its stored count unchanged
   * (zero and negative counts included).
   */
  lemma {:induction false} GetUserVotesPerRow(db: Db, listId: Id, session: SessionId)
    requires UniqueItemIds(db.items)
    ensures var r := GetUserVotes(db, listId, session);
      var rows := SelectedRows(db.items, db.votes, listId, session);
      && |r| == |rows|
      && forall i :: 0 <= i < |r| ==> r[i] == UserVoteCount(rows[i].item_id, rows[i].count)
  {
    UserVotesPerRow(db.items, db.votes, listId, session);
  }

  lemma {:induction false} UserVotesPerRow(items: seq<TallyItem>, votes: seq<TallyVote>, listId: Id, session: SessionId)
    requires UniqueItemIds(items)
    ensures var r := UserVotes(items, votes, listId, session);
      var rows := SelectedRows(items, votes, listId, session);
      && |r| == |rows|
      && forall i :: 0 <= i < |r| ==> r[i] == UserVoteCount(rows[i].item_id, rows[i].count)
  {
    if votes != [] {
      UserVotesPerRow(items, votes[1..], listId, session);
      JoinRowUnique(votes[0], items, listId);
    }
  }

  /** When the session has no vote row on any item of the list, the result is empty. */
  lemma GetUserVotesEmpty(db: Db, listId: Id, session: SessionId)
    requires forall v :: v in db.votes && v.user_session_id == session ==> !InList(db.items, v.item_id, listId)
    ensures GetUserVotes(db, listId, session) == []
  {
    NoUserVotes(db.items, db.votes, listId, session);
  }

  lemma {:induction false} NoUserVotes(items: seq<TallyItem>, votes: seq<TallyVote>, listId: Id, session: SessionId)
    requires forall v :: v in votes && v.user_session_id == session ==> !InList(items, v.item_id, listId)
    ensures UserVotes(items, votes, listId, session) == []
  {
    if votes != [] {
      assert votes[0] in votes;
      NoUserVotes(items, votes[1..], listId, session);
    }
  }
}
