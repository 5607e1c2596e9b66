/**
 * The bookmark table behind the data-access object: rows keyed by an id the
 * table assigns on insert, counting up from 1 and never reused.
 */
module Db {
  import opened Wrappers
  import opened Model

  /** Every row sits under its own id, and every id is below the next one to assign. */
  ghost predicate WellKeyed(rows: map<int, BookmarkRecord>, nextId: int)
  {
    && 1 <= nextId
    && forall k | k in rows :: 1 <= k < nextId && rows[k].id == Some(k)
  }

  /** The stored ids in `[lo, hi)`, in ascending order. */
  function IdsFrom(rows: map<int, BookmarkRecord>, lo: int, hi: int): (ids: seq<int>)
    ensures forall i | 0 <= i < |ids| :: ids[i] in rows && lo <= ids[i] < hi
    ensures forall i, j | 0 <= i < j < |ids| :: ids[i] < ids[j]
    ensures forall k | k in rows && lo <= k < hi :: k in ids
    decreases hi - lo
  {
    if lo >= hi then []
    else if lo in rows then [lo] + IdsFrom(rows, lo + 1, hi)
    else IdsFrom(rows, lo + 1, hi)
  }

  /** The stored ids in `[lo, hi)`, as a set. */
  ghost function KeysIn(rows: map<int, BookmarkRecord>, lo: int, hi: int): set<int>
  {
    set k | k in rows && lo <= k < hi
  }

  /** Splitting the lowest id off a range of stored ids. */
  lemma KeysInStep(rows: map<int, BookmarkRecord>, lo: int, hi: int)
    requires lo < hi
    ensures lo !in KeysIn(rows, lo + 1, hi)
    ensures lo in rows ==> KeysIn(rows, lo, hi) == {lo} + KeysIn(rows, lo + 1, hi)
    ensures lo !in rows ==> KeysIn(rows, lo, hi) == KeysIn(rows, lo + 1, hi)
  {
  }

  /** `IdsFrom` lists each stored id of the range exactly once. */
  lemma {:induction false} IdsFromCount(rows: map<int, BookmarkRecord>, lo: int, hi: int)
    ensures |IdsFrom(rows, lo, hi)| == |KeysIn(rows, lo, hi)|
    decreases hi - lo
  {
    if lo >= hi {
      assert KeysIn(rows, lo, hi) == {};
    } else {
      IdsFromCount(rows, lo + 1, hi);
      KeysInStep(rows, lo, hi);
    }
  }

  /** The rows of the whole table, in ascending id order. */
  function Listing(rows: map<int, BookmarkRecord>, nextId: int): (all: seq<BookmarkRecord>)
    ensures |all| == |IdsFrom(rows, 1, nextId)|
    ensures forall i | 0 <= i < |all| :: all[i] == rows[IdsFrom(rows, 1, nextId)[i]]
  {
    var ids := IdsFrom(rows, 1, nextId);
    seq(|ids|, i requires 0 <= i < |ids| => rows[ids[i]])
  }

  /** The listing holds every row once: its length is the number of rows. */
  lemma ListingCount(rows: map<int, BookmarkRecord>, nextId: int)
    requires WellKeyed(rows, nextId)
    ensures |Listing(rows, nextId)| == |rows|
  {
    IdsFromCount(rows, 1, nextId);
    assert KeysIn(rows, 1, nextId) == rows.Keys;
  }

  /** Each row of a well-keyed table appears in its listing, and only rows of the table do. */
  lemma ListingContents(rows: map<int, BookmarkRecord>, nextId: int, r: BookmarkRecord)
    requires WellKeyed(rows, nextId)
    ensures r in Listing(rows, nextId) <==> r in rows.Values
  {
    var all, ids := Listing(rows, nextId), IdsFrom(rows, 1, nextId);
    if r in rows.Values {
      var k :| k in rows && rows[k] == r;
      var i :| 0 <= i < |ids| && ids[i] == k;
      assert all[i] == r;
    }
  }

  /** The table after inserting `r` under the fresh id `nextId`. */
  function Inserted(rows: map<int, BookmarkRecord>, nextId: int, r: BookmarkRecord): (after: map<int, BookmarkRecord>)
    requires WellKeyed(rows, nextId)
    ensures WellKeyed(after, nextId + 1)
    ensures nextId !in rows && after.Keys == rows.Keys + {nextId}
    ensures after[nextId] == r.(id := Some(nextId))
    ensures forall k | k in rows :: after[k] == rows[k]
  {
    rows[nextId := r.(id := Some(nextId))]
  }

  /** The table after an update: the row with `r`'s id is replaced; no row changes if there is none. */
  function Updated(rows: map<int, BookmarkRecord>, r: BookmarkRecord): (after: map<int, BookmarkRecord>)
    ensures after.Keys == rows.Keys
    ensures forall k | k in rows && Some(k) != r.id :: after[k] == rows[k]
    ensures r.id.Some? && r.id.value in rows ==> after[r.id.value] == r
  {
    if r.id.Some? && r.id.value in rows then rows[r.id.value := r] else rows
  }

  /** The table after a delete: the row with `r`'s id is gone; no other row changes. */
  function Deleted(rows: map<int, BookmarkRecord>, r: BookmarkRecord): (after: map<int, BookmarkRecord>)
    ensures after.Keys == if r.id.Some? then rows.Keys - {r.id.value} else rows.Keys
    ensures forall k | k in after :: after[k] == rows[k]
  {
    if r.id.Some? then rows - {r.id.value} else rows
  }

  /** Inserting adds exactly one row to the listing. */
  lemma InsertedListing(rows: map<int, BookmarkRecord>, nextId: int, r: BookmarkRecord)
    requires WellKeyed(rows, nextId)
    ensures |Listing(Inserted(rows, nextId, r), nextId + 1)| == |Listing(rows, nextId)| + 1
  {
    ListingCount(rows, nextId);
    ListingCount(Inserted(rows, nextId, r), nextId + 1);
  }

  /** Deleting a stored row removes exactly one row from the listing. */
  lemma DeletedListing(rows: map<int, BookmarkRecord>, nextId: int, r: BookmarkRecord)
    requires WellKeyed(rows, nextId)
    requires r.id.Some? && r.id.value in rows
    ensures |Listing(Deleted(rows, r), nextId)| == |Listing(rows, nextId)| - 1
  {
    ListingCount(rows, nextId);
    ListingCount(Deleted(rows, r), nextId);
  }

  /**
   * The data-access object of the bookmark table. The object relational mapper
   * that implements it is not modelled; it stands for the table it manages.
   */
  class BookmarkDao {
    var rows: map<int, BookmarkRecord>
    var nextId: int

    ghost predicate Valid()
      reads this
    {
      WellKeyed(rows, nextId)
    }

    constructor ()
      ensures Valid() && rows == map[] && nextId == 1
    {
      rows, nextId := map[], 1;
    }

    /** Stores `r` under a fresh id, which the row (not `r`) now carries, and returns that id. */
    method InsertBookmark(r: BookmarkRecord) returns (newId: int)
      requires Valid()
      modifies this
      ensures Valid()
      ensures newId == old(nextId) && newId !in old(rows)
      ensures rows == Inserted(old(rows), newId, r) && nextId == newId + 1
    {
      newId := nextId;
      rows := rows[newId := r.(id := Some(newId))];
      nextId := nextId + 1;
    }

    /** Overwrites the row with `r`'s id; does nothing when there is none. */
    method UpdateBookmark(r: BookmarkRecord)
      requires Valid()
      modifies this
      ensures Valid() && nextId == old(nextId)
      ensures rows == Updated(old(rows), r)
    {
      if r.id.Some? && r.id.value in rows {
        rows := rows[r.id.value := r];
      }
    }

    /** The row stored under `bookmarkId`, or null. */
    method LoadBookmark(bookmarkId: int) returns (r: Option<BookmarkRecord>)
      requires Valid()
      ensures r.Some? <==> bookmarkId in rows
      ensures r.Some? ==> r.value == rows[bookmarkId] && r.value.id == Some(bookmarkId)
    {
      r := if bookmarkId in rows then Some(rows[bookmarkId]) else None;
    }

    /** Removes the row with `r`'s id. */
    method DeleteBookmark(r: BookmarkRecord)
      requires Valid()
      modifies this
      ensures Valid() && nextId == old(nextId)
      ensures rows == Deleted(old(rows), r)
    {
      if r.id.Some? {
        rows := rows - {r.id.value};
      }
    }

    /** The rows of the table, built in ascending id order; the contract promises no order. */
    function LoadAll(): (all: seq<BookmarkRecord>)
      reads this
      requires Valid()
      ensures |all| == |rows|
      ensures forall r :: r in all <==> r in rows.Values
    {
      ListingCount(rows, nextId);
      forall r ensures r in Listing(rows, nextId) <==> r in rows.Values {
        ListingContents(rows, nextId, r);
      }
      Listing(rows, nextId)
    }
  }
}
