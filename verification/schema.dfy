/** Optional and fallible results, as the handlers return them. */
module Results {
  /** `null` / a row that a SELECT did not find. */
  datatype Option<T> = None | Some(value: T)

  /** A handler either returns a value or throws one of its errors. */
  datatype Result<T, E> = Success(value: T) | Failure(error: E)
}

/**
 * The three tables of the tally store and the integrity rules the handlers rely
 * on: primary keys are unique and every foreign key points at an existing row.
 * The table definitions are not part of this model, so these rules are assumed
 * of the store (`WellFormed`) and proved to be kept by every handler.
 * Timestamps come from an abstract clock that only moves forward.
 */
module Schema {
  type Id = string
  type SessionId = string
  type Timestamp = nat

  /** A row of the lists table. */
  datatype TallyList = TallyList(id: Id, title: string, created_at: Timestamp)

  /** A row of the items table; `total_count` is the cached aggregate. */
  datatype TallyItem = TallyItem(id: Id, list_id: Id, name: string, total_count: int, created_at: Timestamp)

  /** A row of the votes table: one participant's net contribution to one item. */
  datatype TallyVote = TallyVote(
    id: Id,
    item_id: Id,
    user_session_id: SessionId,
    count: int,
    created_at: Timestamp,
    updated_at: Timestamp)

  /** The whole store; `clock` is the latest timestamp handed out. */
  datatype Db = Db(lists: seq<TallyList>, items: seq<TallyItem>, votes: seq<TallyVote>, clock: Timestamp)

  /** What a handler returns, together with the store it leaves behind. */
  datatype Step<R> = Step(result: R, db: Db)

  function ListIds(lists: seq<TallyList>): set<Id> {
    set l | l in lists :: l.id
  }

  function ItemIds(items: seq<TallyItem>): set<Id> {
    set it | it in items :: it.id
  }

  function VoteIds(votes: seq<TallyVote>): set<Id> {
    set v | v in votes :: v.id
  }

  predicate UniqueListIds(lists: seq<TallyList>) {
    forall i, j :: 0 <= i < j < |lists| ==> lists[i].id != lists[j].id
  }

  predicate UniqueItemIds(items: seq<TallyItem>) {
    forall i, j :: 0 <= i < j < |items| ==> items[i].id != items[j].id
  }

  predicate UniqueVoteIds(votes: seq<TallyVote>) {
    forall i, j :: 0 <= i < j < |votes| ==> votes[i].id != votes[j].id
  }

  /** At most one vote row per (item, session) pair. */
  predicate OneRowPerVoter(votes: seq<TallyVote>) {
    forall i, j :: 0 <= i < j < |votes| ==>
      votes[i].item_id != votes[j].item_id || votes[i].user_session_id != votes[j].user_session_id
  }

  /** Every vote row holds a count of at least zero. */
  predicate NonNegativeCounts(votes: seq<TallyVote>) {
    forall v :: v in votes ==> v.count >= 0
  }

  /** Timestamps never lie in the clock's future, and a row is updated no earlier than it is created. */
  predicate TimestampsBehindClock(db: Db) {
    && (forall l :: l in db.lists ==> l.created_at <= db.clock)
    && (forall it :: it in db.items ==> it.created_at <= db.clock)
    && (forall v :: v in db.votes ==> v.created_at <= v.updated_at <= db.clock)
  }

  /**
   * The store's integrity between two handler calls: unique primary keys, item
   * and vote rows that reference existing rows, and timestamps behind the clock.
   * The table definitions for these three tables are not part of this model, so
   * the keys and references are assumed, as the handlers assume them; the
   * timestamp part is an assumption of the abstract clock.
   */
  predicate WellFormed(db: Db) {
    && UniqueListIds(db.lists)
    && UniqueItemIds(db.items)
    && UniqueVoteIds(db.votes)
    && (forall it :: it in db.items ==> it.list_id in ListIds(db.lists))
    && (forall v :: v in db.votes ==> v.item_id in ItemIds(db.items))
    && TimestampsBehindClock(db)
  }

  /** An upper bound on the length of the ids in `ids`. */
  ghost function MaxLength(ids: set<Id>): (n: nat)
    ensures forall id :: id in ids ==> |id| <= n
  {
    if ids == {} then 0
    else
      var x :| x in ids;
      var m := MaxLength(ids - {x});
      if |x| > m then |x| else m
  }

  /** However many ids are in use, an unused one exists (what a random UUID relies on). */
  lemma FreshIdExists(used: set<Id>)
    ensures exists id :: id !in used
  {
    var w := seq(MaxLength(used) + 1, _ => 'u');
    assert w !in used;
  }
}
