/**
 * The removal gate (`removeTallyItem`): an item is deleted, together with its
 * vote rows, only when its stored total is exactly zero.
 */
module Removal {
  import opened Results
  import opened Schema
  import opened Tables

  /** The effect of one removal request; the result is the handler's `success` flag. */
  function Remove(db: Db, itemId: Id): (out: Step<bool>)
    ensures !out.result ==> out.db == db
    ensures out.result ==>
      && itemId in ItemIds(db.items)
      && itemId !in ItemIds(out.db.items)
      && (forall v :: v in out.db.votes ==> v.item_id != itemId)
  {
    match FindItem(db.items, itemId)
    case None => Step(false, db)
    case Some(item) =>
      if item.total_count != 0 then Step(false, db)
      else Step(true, Db(db.lists, DropItem(db.items, itemId), DropVotesOf(db.votes, itemId), db.clock))
  }

  /**
   * The gate: removal succeeds exactly when the item exists and its stored
   * total is 0; a missing item and any other total, negative ones included,
   * are refused without touching a row.
   */
  lemma RemoveGate(db: Db, itemId: Id)
    requires UniqueItemIds(db.items)
    ensures Remove(db, itemId).result <==> exists it :: it in db.items && it.id == itemId && it.total_count == 0
    ensures !Remove(db, itemId).result ==> Remove(db, itemId).db == db
  {
    var found := FindItem(db.items, itemId);
    if found.Some? {
      forall it | it in db.items && it.id == itemId ensures it == found.value {
        var i :| 0 <= i < |db.items| && db.items[i] == it;
        var j :| 0 <= j < |db.items| && db.items[j] == found.value;
        assert i == j;
      }
    }
  }

  /**
   * A successful removal deletes exactly the item and its vote rows: every
   * other item, zero-total ones included, every other vote row, the lists and
   * the clock remain.
   */
  lemma RemoveDeletesExactly(db: Db, itemId: Id)
    requires Remove(db, itemId).result
    ensures var after := Remove(db, itemId).db;
      && after.lists == db.lists
      && after.clock == db.clock
      && (forall it :: it in after.items <==> it in db.items && it.id != itemId)
      && (forall v :: v in after.votes <==> v in db.votes && v.item_id != itemId)
  {
  }

  /**
   * The gate reads the stored total, not the vote rows: an item stored with
   * total 0 is removed even when its rows sum to 3, and one stored with total 2
   * is kept even when its rows sum to 0.
   */
  lemma GateReadsStoredTotal()
    ensures var lists := [TallyList("L", "list", 0)];
      var votes := [TallyVote("v", "I", "s", 3, 0, 0)];
      var zeroStored := Db(lists, [TallyItem("I", "L", "item", 0, 0)], votes, 0);
      var nonZeroStored := Db(lists, [TallyItem("I", "L", "item", 2, 0)], [], 0);
      && SumFor(zeroStored.votes, "I") == 3
      && Remove(zeroStored, "I") == Step(true, Db(lists, [], [], 0))
      && SumFor(nonZeroStored.votes, "I") == 0
      && Remove(nonZeroStored, "I") == Step(false, nonZeroStored)
  {
    var votes := [TallyVote("v", "I", "s", 3, 0, 0)];
    assert DropVotesOf(votes, "I") == [];
  }

  /** Removal keeps keys unique and foreign keys valid: no vote row is left pointing at the deleted item. */
  lemma RemovePreservesWellFormed(db: Db, itemId: Id)
    requires WellFormed(db)
    ensures WellFormed(Remove(db, itemId).db)
  {
    var out := Remove(db, itemId);
    if out.result {
      DropItemKeepsKeys(db.items, itemId);
      DropVotesKeepsKeys(db.votes, itemId);
      forall v | v in out.db.votes ensures v.item_id in ItemIds(out.db.items) {
        var it :| it in db.items && it.id == v.item_id;
        assert it in out.db.items;
      }
    }
  }

  /** Removal keeps every remaining item's total equal to the sum of its remaining rows. */
  lemma RemovePreservesTotalsAgree(db: Db, itemId: Id)
    requires TotalsAgree(db.items, db.votes)
    ensures TotalsAgree(Remove(db, itemId).db.items, Remove(db, itemId).db.votes)
  {
    var out := Remove(db, itemId);
    if out.result {
      forall it | it in out.db.items ensures it.total_count == SumFor(out.db.votes, it.id) {
        SumForDropOther(db.votes, itemId, it.id);
      }
    }
  }

  /** Removal never creates a second row for an (item, session) pair. */
  lemma RemovePreservesOneRowPerVoter(db: Db, itemId: Id)
    requires OneRowPerVoter(db.votes)
    ensures OneRowPerVoter(Remove(db, itemId).db.votes)
  {
    DropVotesKeepsOneRowPerVoter(db.votes, itemId);
  }
}
