/** `createTallyItem`: insert an item with a fresh id and total 0 into an existing list. */
module ItemCreation {
  import opened Results
  import opened Schema
  import opened Tables

  datatype CreateTallyItemInput = CreateTallyItemInput(list_id: Id, name: string)

  datatype CreateItemError = ListNotFound(list_id: Id)  // "Tally list with id ... not found"

  /** The effect of one item creation; `itemId` is the generated id. */
  function CreateItem(db: Db, input: CreateTallyItemInput, itemId: Id): (out: Step<Result<TallyItem, CreateItemError>>)
    ensures out.result.Failure? <==> input.list_id !in ListIds(db.lists)
    ensures out.result.Failure? ==> out.result.error == ListNotFound(input.list_id) && out.db == db
    ensures out.result.Success? ==>
      && out.result.value.id == itemId
      && out.result.value.list_id == input.list_id
      && out.result.value.name == input.name
      && out.result.value.total_count == 0
      && out.db.items == db.items + [out.result.value]
      && out.db.lists == db.lists && out.db.votes == db.votes
  {
    if FindList(db.lists, input.list_id).None? then
      Step(Failure(ListNotFound(input.list_id)), db)
    else
      var now := db.clock + 1;
      var item := TallyItem(itemId, input.list_id, input.name, 0, now);
      Step(Success(item), Db(db.lists, db.items + [item], db.votes, now))
  }

  /** A created item's id differs from every item id stored before, and it is the only item with that id. */
  lemma CreateItemFresh(db: Db, input: CreateTallyItemInput, itemId: Id)
    requires itemId !in ItemIds(db.items)
    requires CreateItem(db, input, itemId).result.Success?
    ensures var out := CreateItem(db, input, itemId);
      && (forall it :: it in db.items ==> it.id != out.result.value.id)
      && (forall i :: 0 <= i < |out.db.items| ==> (out.db.items[i].id == itemId <==> i == |db.items|))
  {
    forall i | 0 <= i < |db.items| ensures db.items[i].id != itemId {
      assert db.items[i] in db.items;
    }
  }

  /** Creating items twice with the same input gives two distinct ids, and both items are kept. */
  lemma CreateItemTwice(db: Db, input: CreateTallyItemInput, id1: Id, id2: Id)
    requires input.list_id in ListIds(db.lists)
    requires id1 !in ItemIds(db.items)
    requires id2 !in ItemIds(CreateItem(db, input, id1).db.items)
    ensures var first := CreateItem(db, input, id1);
      var second := CreateItem(first.db, input, id2);
      && first.result.Success? && second.result.Success?
      && first.result.value.id != second.result.value.id
      && second.db.items == db.items + [first.result.value, second.result.value]
  {
    var first := CreateItem(db, input, id1);
    assert first.result.value in first.db.items;
  }

  /** Inserting an item with a fresh id into an existing list keeps the store well formed. */
  lemma CreateItemPreservesWellFormed(db: Db, input: CreateTallyItemInput, itemId: Id)
    requires WellFormed(db)
    requires itemId !in ItemIds(db.items)
    ensures WellFormed(CreateItem(db, input, itemId).db)
  {
    var out := CreateItem(db, input, itemId);
    if out.result.Success? {
      forall i | 0 <= i < |db.items| ensures db.items[i].id != itemId {
        assert db.items[i] in db.items;
      }
      assert ItemIds(db.items) <= ItemIds(out.db.items);
    }
  }

  /**
   * A new item starts at total 0, and in a well-formed store no vote row can
   * reference its fresh id, so every total still agrees with the vote rows.
   */
  lemma CreateItemPreservesTotalsAgree(db: Db, input: CreateTallyItemInput, itemId: Id)
    requires WellFormed(db)
    requires TotalsAgree(db.items, db.votes)
    requires itemId !in ItemIds(db.items)
    ensures TotalsAgree(CreateItem(db, input, itemId).db.items, CreateItem(db, input, itemId).db.votes)
  {
    var out := CreateItem(db, input, itemId);
    if out.result.Success? {
      SumForUnreferenced(db.votes, itemId);
    }
  }
}
