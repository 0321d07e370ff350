/** `createTallyList`: insert a list with a freshly generated id and the given title. */
module ListCreation {
  import opened Results
  import opened Schema
  import opened Tables

  datatype CreateTallyListInput = CreateTallyListInput(title: string)

  /** The effect of one list creation; `listId` is the generated id. */
  function CreateList(db: Db, input: CreateTallyListInput, listId: Id): (out: Step<TallyList>)
    ensures out.result.id == listId && out.result.title == input.title
    ensures out.result.created_at > db.clock
    ensures out.db.lists == db.lists + [out.result]
    ensures out.db.items == db.items && out.db.votes == db.votes
  {
    var now := db.clock + 1;
    var list := TallyList(listId, input.title, now);
    Step(list, Db(db.lists + [list], db.items, db.votes, now))
  }

  /**
   * With a fresh id, exactly one stored list has the returned id afterwards,
   * and looking that id up yields the list with the given title.
   */
  lemma CreateListExactlyOne(db: Db, input: CreateTallyListInput, listId: Id)
    requires listId !in ListIds(db.lists)
    ensures var out := CreateList(db, input, listId);
      && (forall i :: 0 <= i < |out.db.lists| ==> (out.db.lists[i].id == listId <==> i == |db.lists|))
      && FindList(out.db.lists, listId) == Some(out.result)
      && FindList(out.db.lists, listId).value.title == input.title
  {
    var out := CreateList(db, input, listId);
    forall i | 0 <= i < |db.lists| ensures db.lists[i].id != listId {
      assert db.lists[i] in db.lists;
    }
    FindListAfterAppend(db.lists, out.result);
  }

  lemma FindListAfterAppend(lists: seq<TallyList>, list: TallyList)
    requires list.id !in ListIds(lists)
    ensures FindList(lists + [list], list.id) == Some(list)
  {
  }

  /** Two creations with the same title yield two distinct stored lists with that title. */
  lemma CreateListTwice(db: Db, title: string, id1: Id, id2: Id)
    requires id1 !in ListIds(db.lists)
    requires id2 !in ListIds(CreateList(db, CreateTallyListInput(title), id1).db.lists)
    ensures var first := CreateList(db, CreateTallyListInput(title), id1);
      var second := CreateList(first.db, CreateTallyListInput(title), id2);
      && first.result != second.result
      && first.result.id != second.result.id
      && first.result.title == second.result.title == title
      && first.result in second.db.lists && second.result in second.db.lists
  {
    var first := CreateList(db, CreateTallyListInput(title), id1);
    assert first.result in first.db.lists;
  }

  /** Inserting a list with a fresh id keeps the store well formed. */
  lemma CreateListPreservesWellFormed(db: Db, input: CreateTallyListInput, listId: Id)
    requires WellFormed(db)
    requires listId !in ListIds(db.lists)
    ensures WellFormed(CreateList(db, input, listId).db)
  {
    var out := CreateList(db, input, listId);
    forall i | 0 <= i < |db.lists| ensures db.lists[i].id != listId {
      assert db.lists[i] in db.lists;
    }
    assert ListIds(db.lists) <= ListIds(out.db.lists);
  }
}
