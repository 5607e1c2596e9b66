/**
 * The bookmark repository: the one object the view-models talk to. It combines
 * the bookmark table, the photo file area and the category classifier.
 */
module Repository {
  import opened Wrappers
  import opened Model
  import opened Db

  class BookmarkRepo {
    /** The shared database's data-access object. */
    const bookmarkDao: BookmarkDao
    /** The file area reached through the application context. */
    const files: ImageFiles

    ghost predicate Valid()
      reads bookmarkDao
    {
      bookmarkDao.Valid()
    }

    /** A repository over a given table and file area (one of each per process). */
    constructor (bookmarkDao: BookmarkDao, files: ImageFiles)
      ensures this.bookmarkDao == bookmarkDao && this.files == files
    {
      this.bookmarkDao, this.files := bookmarkDao, files;
    }

    /** Inserts the bookmark, writes the assigned id back onto it and returns that id. */
    method AddBookmark(bookmark: Bookmark) returns (newId: int)
      requires Valid()
      modifies bookmarkDao, bookmark
      ensures Valid()
      ensures newId == old(bookmarkDao.nextId) && newId !in old(bookmarkDao.rows)
      ensures bookmarkDao.nextId == newId + 1
      ensures bookmark.Record() == old(bookmark.Record()).(id := Some(newId))
      ensures bookmarkDao.rows == Inserted(old(bookmarkDao.rows), newId, old(bookmark.Record()))
      ensures bookmarkDao.rows[newId] == bookmark.Record()
    {
      newId := bookmarkDao.InsertBookmark(bookmark.Record());
      bookmark.id := Some(newId);
    }

    /** A new, unsaved bookmark with every field at its default. */
    method CreateBookmark() returns (bookmark: Bookmark)
      ensures fresh(bookmark) && bookmark.Record() == Blank
    {
      bookmark := new Bookmark();
    }

    /** Overwrites the stored row that has the bookmark's id. */
    method UpdateBookmark(bookmark: Bookmark)
      requires Valid()
      modifies bookmarkDao
      ensures Valid() && bookmarkDao.nextId == old(bookmarkDao.nextId)
      ensures bookmarkDao.rows == Updated(old(bookmarkDao.rows), bookmark.Record())
    {
      bookmarkDao.UpdateBookmark(bookmark.Record());
    }

    /** A new object loaded from the row stored under `bookmarkId`; null when there is none. */
    method GetBookmark(bookmarkId: int) returns (bookmark: Bookmark?)
      requires Valid()
      ensures bookmark == null <==> bookmarkId !in bookmarkDao.rows
      ensures bookmark != null ==> fresh(bookmark) && bookmark.Record() == bookmarkDao.rows[bookmarkId]
    {
      var r := bookmarkDao.LoadBookmark(bookmarkId);
      bookmark := null;
      if r.Some? {
        bookmark := new Bookmark.FromRecord(r.value);
      }
    }

    /** Deletes the bookmark's photo file, then its row. */
    method DeleteBookmark(bookmark: Bookmark)
      requires Valid()
      modifies files, bookmarkDao
      ensures Valid() && bookmarkDao.nextId == old(bookmarkDao.nextId)
      ensures files.images == RemoveImage(old(files.images), bookmark.id)
      ensures bookmarkDao.rows == Deleted(old(bookmarkDao.rows), bookmark.Record())
    {
      bookmark.DeleteImage(files);
      bookmarkDao.DeleteBookmark(bookmark.Record());
    }

    /** A snapshot of the observed row under `bookmarkId` (null when there is none). */
    function GetLiveBookmark(bookmarkId: int): (r: Option<BookmarkRecord>)
      reads bookmarkDao
      requires Valid()
      ensures r.Some? <==> bookmarkId in bookmarkDao.rows
      ensures r.Some? ==> r.value == bookmarkDao.rows[bookmarkId] && r.value.id == Some(bookmarkId)
    {
      if bookmarkId in bookmarkDao.rows then Some(bookmarkDao.rows[bookmarkId]) else None
    }

    /** A snapshot of the observed list of all rows. */
    function AllBookmarks(): (all: seq<BookmarkRecord>)
      reads bookmarkDao
      requires Valid()
      ensures |all| == |bookmarkDao.rows|
      ensures forall r :: r in all <==> r in bookmarkDao.rows.Values
    {
      bookmarkDao.LoadAll()
    }
  }
}
