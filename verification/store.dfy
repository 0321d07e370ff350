/**
 * The server's store: the three tables, updated in place by the handlers.
 * Each method follows its handler's sequence of queries and writes, runs as
 * one atomic step, and is proved to have exactly the effect that the
 * handler's specification function describes.
 */
module TallyServer {
  import opened Results
  import opened Schema
  import opened Tables
  import Voting
  import Removal
  import ListCreation
  import ItemCreation

  class TallyStore {
    var lists: seq<TallyList>
    var items: seq<TallyItem>
    var votes: seq<TallyVote>
    var clock: Timestamp

    /** The store's tables as a value. */
    function State(): Db
      reads this
    {
      Db(lists, items, votes, clock)
    }

    /** Keys unique, foreign keys valid, timestamps behind the clock. */
    ghost predicate Valid()
      reads this
    {
      WellFormed(State())
    }

    constructor ()
      ensures Valid()
      ensures State() == Db([], [], [], 0)
    {
      lists, items, votes, clock := [], [], [], 0;
    }

    /** `createTallyList`: insert a list under a freshly generated id. */
    method CreateTallyList(input: ListCreation.CreateTallyListInput) returns (r: TallyList)
      requires Valid()
      modifies this
      ensures Valid()
      ensures r.id !in ListIds(old(lists))
      ensures Step(r, State()) == ListCreation.CreateList(old(State()), input, r.id)
    {
      FreshIdExists(ListIds(lists));
      var listId :| listId !in ListIds(lists);
      ListCreation.CreateListPreservesWellFormed(State(), input, listId);
      clock := clock + 1;
      r := TallyList(listId, input.title, clock);
      lists := lists + [r];
    }

    /** `createTallyItem`: check that the list exists, then insert an item with total 0. */
    method CreateTallyItem(input: ItemCreation.CreateTallyItemInput) returns (r: Result<TallyItem, ItemCreation.CreateItemError>)
      requires Valid()
      modifies this
      ensures Valid()
      ensures r.Success? ==> r.value.id !in ItemIds(old(items))
      ensures Step(r, State()) == ItemCreation.CreateItem(old(State()), input, if r.Success? then r.value.id else "")
    {
      var existingList := FindList(lists, input.list_id);
      if existingList.None? {
        return Failure(ItemCreation.ListNotFound(input.list_id));
      }
      FreshIdExists(ItemIds(items));
      var itemId :| itemId !in ItemIds(items);
      ItemCreation.CreateItemPreservesWellFormed(State(), input, itemId);
      clock := clock + 1;
      var item := TallyItem(itemId, input.list_id, input.name, 0, clock);
      items := items + [item];
      r := Success(item);
    }

    /**
     * `voteOnItem`: check the item, find the caller's row, apply the retraction
     * guard, update or insert the row, then store the sum of the item's rows as
     * its total and return the item as stored.
     */
    method VoteOnItem(input: Voting.VoteInput) returns (r: Result<TallyItem, Voting.VoteError>)
      requires Valid()
      modifies this
      ensures Valid()
      ensures exists rowId :: rowId !in VoteIds(old(votes)) && Step(r, State()) == Voting.Vote(old(State()), input, rowId)
    {
      ghost var before := State();
      FreshIdExists(VoteIds(votes));
      ghost var rowIdUsed :| rowIdUsed !in VoteIds(votes);
      var item := FindItem(items, input.item_id);
      if item.None? {
        r := Failure(Voting.ItemNotFound(input.item_id));
        assert Step(r, State()) == Voting.Vote(before, input, rowIdUsed);
        return;
      }
      var existingVote := FindVote(votes, input.item_id, input.user_session_id);
      var userVoteCount := 0;
      if existingVote.Some? {
        userVoteCount := existingVote.value.count;
      }
      if input.delta == -1 && userVoteCount <= 0 {
        r := Failure(Voting.CannotDecrement);
        assert Step(r, State()) == Voting.Vote(before, input, rowIdUsed);
        return;
      }
      r := WriteVote(input, existingVote, userVoteCount + input.delta, rowIdUsed);
    }

    /**
     * The writes of a vote that passed both checks: the caller's row, as the
     * lookup in `VoteOnItem` found it, is updated, or one is inserted under a
     * fresh id; then the item's total is recomputed from its rows.
     */
    method WriteVote(input: Voting.VoteInput, existingVote: Option<TallyVote>, newUserCount: int, ghost freshId: Id)
      returns (r: Result<TallyItem, Voting.VoteError>)
      requires Valid()
      requires existingVote == FindVote(votes, input.item_id, input.user_session_id)
      requires freshId !in VoteIds(votes)
      requires input.item_id in ItemIds(items)
      requires !(input.delta == -1 && CurrentCount(votes, input.item_id, input.user_session_id) <= 0)
      requires newUserCount == CurrentCount(votes, input.item_id, input.user_session_id) + input.delta
      modifies this
      ensures Valid()
      ensures exists rowId :: rowId !in VoteIds(old(votes)) && Step(r, State()) == Voting.Vote(old(State()), input, rowId)
    {
      ghost var before := State();
      ghost var rowIdUsed := freshId;
      var now := clock + 1;
      var newVotes;
      if existingVote.Some? {
        newVotes := UpdateVote(votes, existingVote.value.id, newUserCount, now);
      } else {
        var rowId :| rowId !in VoteIds(votes);
        rowIdUsed := rowId;
        newVotes := votes + [TallyVote(rowId, input.item_id, input.user_session_id, newUserCount, now, now)];
      }
      assert newVotes == Voting.Upsert(before.votes, input, newUserCount, rowIdUsed, now);
      var newTotalCount := SumFor(newVotes, input.item_id);
      var newItems := SetTotal(items, input.item_id, newTotalCount);
      FindItemAfterSetTotal(items, input.item_id, newTotalCount);
      var updatedItem := FindItem(newItems, input.item_id);
      Voting.VoteSucceedsWith(before, input, rowIdUsed, newUserCount, now, newVotes);
      Voting.VotePreservesWellFormed(before, input, rowIdUsed);
      ghost var after := Voting.Vote(before, input, rowIdUsed);
      assert after.db == Db(lists, newItems, newVotes, now);
      assert after.result == Success(updatedItem.value);
      ghost var target := Db(lists, newItems, newVotes, now);
      votes, items, clock := newVotes, newItems, now;
      r := Success(updatedItem.value);
      assert State() == target;
    }

    /**
     * `removeTallyItem`: refuse a missing item or a nonzero stored total;
     * otherwise delete the item's vote rows, then the item.
     */
    method RemoveTallyItem(itemId: Id) returns (success: bool)
      requires Valid()
      modifies this
      ensures Valid()
      ensures Step(success, State()) == Removal.Remove(old(State()), itemId)
    {
      ghost var before := State();
      var found := FindItem(items, itemId);
      if found.None? {
        return false;
      }
      if found.value.total_count != 0 {
        return false;
      }
      votes := DropVotesOf(votes, itemId);
      items := DropItem(items, itemId);
      success := true;
      Removal.RemovePreservesWellFormed(before, itemId);
    }
  }
}
