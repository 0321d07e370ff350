/** `getTallyList`: a list with all of its items, or null when the list does not exist. */
module ListQuery {
  import opened Results
  import opened Schema
  import opened Tables

  datatype TallyListWithItems = TallyListWithItems(id: Id, title: string, created_at: Timestamp, items: seq<TallyItem>)

  /** The read only looks at the store; `None` stands for the handler's `null`. */
  function GetTallyList(db: Db, listId: Id): (r: Option<TallyListWithItems>)
    ensures r.None? <==> listId !in ListIds(db.lists)
    ensures r.Some? ==>
      && r.value.id == listId
      && TallyList(r.value.id, r.value.title, r.value.created_at) in db.lists
      && forall it :: it in r.value.items <==> it in db.items && it.list_id == listId
  {
    match FindList(db.lists, listId)
    case None => None
    case Some(list) => Some(TallyListWithItems(list.id, list.title, list.created_at, ItemsOfList(db.items, listId)))
  }

  /**
   * With unique list ids the returned title and creation time are those of the
   * one stored list with that id, and its items are returned with their stored
   * totals; with unique item ids each item is returned once.
   */
  lemma GetTallyListFields(db: Db, list: TallyList, it: TallyItem)
    requires UniqueListIds(db.lists)
    requires list in db.lists
    ensures var r := GetTallyList(db, list.id);
      && r.Some?
      && r.value.title == list.title
      && r.value.created_at == list.created_at
      && (it in db.items && it.list_id == list.id ==> it in r.value.items)
      && (UniqueItemIds(db.items) ==> UniqueItemIds(r.value.items))
  {
    if UniqueItemIds(db.items) {
      ItemsOfListKeepsKeys(db.items, list.id);
    }
    var found := FindList(db.lists, list.id).value;
    var i :| 0 <= i < |db.lists| && db.lists[i] == list;
    var j :| 0 <= j < |db.lists| && db.lists[j] == found;
    assert i == j;
  }

  /** A list whose id no item references is returned with an empty items sequence. */
  lemma GetTallyListEmpty(db: Db, listId: Id)
    requires listId in ListIds(db.lists)
    requires forall it :: it in db.items ==> it.list_id != listId
    ensures GetTallyList(db, listId).Some?
    ensures GetTallyList(db, listId).value.items == []
  {
    NoItemsOfList(db.items, listId);
  }

  lemma {:induction false} NoItemsOfList(items: seq<TallyItem>, listId: Id)
    requires forall it :: it in items ==> it.list_id != listId
    ensures ItemsOfList(items, listId) == []
  {
    if items != [] {
      assert items[0] in items;
      NoItemsOfList(items[1..], listId);
    }
  }
}
