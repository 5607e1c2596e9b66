/**
 * The view-model behind the bookmark details screen: it shows one stored
 * bookmark as an editable view and writes the edits back.
 */
module BookmarkDetails {
  import opened Wrappers
  import opened Model
  import opened Db
  import opened Repository

  /** The editable view of one bookmark. */
  datatype BookmarkDetailsView = BookmarkDetailsView(
    id: Option<int>,
    name: string,
    phone: string,
    address: string,
    notes: string,
    category: string,
    latitude: real,
    longitude: real,
    placeId: Option<string>)
  {
    /** The photo of the viewed bookmark; null when the view has no id or there is no file. */
    function GetImage(files: ImageFiles): (image: Option<Image>)
      reads files
      ensures id.None? ==> image.None?
      ensures image == LoadImage(files.images, id)
    {
      if id.Some? then LoadImage(files.images, id) else None
    }

    /** Saves the photo of the viewed bookmark; does nothing when the view has no id. */
    method SetImage(files: ImageFiles, image: Image)
      modifies files
      ensures files.images == SaveImage(old(files.images), id, image)
      ensures GetImage(files) == if id.Some? then Some(image) else None
    {
      if id.Some? {
        files.images := files.images[id.value := image];
      }
    }
  }

  /** The view of a bookmark: all nine fields, as stored. */
  function BookmarkToBookmarkView(b: BookmarkRecord): (v: BookmarkDetailsView)
    ensures v.id == b.id && v.placeId == b.placeId
    ensures v.name == b.name && v.phone == b.phone && v.address == b.address
    ensures v.notes == b.notes && v.category == b.category
    ensures v.latitude == b.latitude && v.longitude == b.longitude
  {
    BookmarkDetailsView(b.id, b.name, b.phone, b.address, b.notes, b.category,
                        b.latitude, b.longitude, b.placeId)
  }

  /**
   * The stored bookmark with the view's edits applied: id, name, phone, address,
   * notes and category come from the view; coordinates and place id stay as stored.
   */
  function ApplyView(stored: BookmarkRecord, v: BookmarkDetailsView): (b: BookmarkRecord)
    ensures BookmarkToBookmarkView(b)
            == v.(latitude := stored.latitude, longitude := stored.longitude, placeId := stored.placeId)
    ensures b.latitude == stored.latitude && b.longitude == stored.longitude
    ensures b.placeId == stored.placeId
  {
    stored.(id := v.id, name := v.name, phone := v.phone, address := v.address,
            notes := v.notes, category := v.category)
  }

  /** Showing a stored bookmark and saving the view unedited gives back the stored bookmark. */
  lemma UneditedRoundTrip(stored: BookmarkRecord)
    ensures ApplyView(stored, BookmarkToBookmarkView(stored)) == stored
  {
  }

  /** Edits to the location and place id in a view are discarded on save. */
  lemma LocationEditsIgnored(stored: BookmarkRecord, v: BookmarkDetailsView, w: BookmarkDetailsView)
    requires w == v.(latitude := w.latitude, longitude := w.longitude, placeId := w.placeId)
    ensures ApplyView(stored, v) == ApplyView(stored, w)
  {
  }

  /** An observed details view: bound to one bookmark id, it shows that row's current state. */
  datatype LiveDetailsView = LiveDetailsView(bookmarkId: int)
  {
    /** A snapshot of the observed value: the view of the row, or null once it is gone. */
    function Value(rows: map<int, BookmarkRecord>): (v: Option<BookmarkDetailsView>)
      ensures v.Some? <==> bookmarkId in rows
      ensures v.Some? ==> v.value == BookmarkToBookmarkView(rows[bookmarkId])
      ensures v.Some? ==> ApplyView(rows[bookmarkId], v.value) == rows[bookmarkId]
    {
      if bookmarkId in rows then Some(BookmarkToBookmarkView(rows[bookmarkId])) else None
    }
  }

  class BookmarkDetailsViewModel {
    const bookmarkRepo: BookmarkRepo
    /** The observed view, built on the first request and kept afterwards. */
    var bookmarkDetailsView: Option<LiveDetailsView>

    ghost predicate Valid()
      reads bookmarkRepo.bookmarkDao
    {
      bookmarkRepo.Valid()
    }

    constructor (bookmarkRepo: BookmarkRepo)
      ensures this.bookmarkRepo == bookmarkRepo && bookmarkDetailsView == None
    {
      this.bookmarkRepo := bookmarkRepo;
      bookmarkDetailsView := None;
    }

    /**
     * The observed view of a bookmark. The first call binds it to `bookmarkId`;
     * later calls return that same view whatever id they pass.
     */
    method GetBookmark(bookmarkId: int) returns (live: LiveDetailsView)
      modifies this`bookmarkDetailsView
      ensures old(bookmarkDetailsView).None? ==> live == LiveDetailsView(bookmarkId)
      ensures old(bookmarkDetailsView).Some? ==> live == old(bookmarkDetailsView).value
      ensures bookmarkDetailsView == Some(live)
    {
      if bookmarkDetailsView.None? {
        bookmarkDetailsView := Some(LiveDetailsView(bookmarkId));
      }
      live := bookmarkDetailsView.value;
    }

    /**
     * Loads the stored bookmark the view refers to and overwrites it with the
     * view's edits; null when the view has no id or no row has it.
     */
    method BookmarkViewToBookmark(v: BookmarkDetailsView) returns (bookmark: Bookmark?)
      requires Valid()
      ensures bookmark == null <==> v.id.None? || v.id.value !in bookmarkRepo.bookmarkDao.rows
      ensures bookmark != null ==>
                fresh(bookmark) && bookmark.Record() == ApplyView(bookmarkRepo.bookmarkDao.rows[v.id.value], v)
    {
      bookmark := null;
      if v.id.Some? {
        bookmark := bookmarkRepo.GetBookmark(v.id.value);
      }
      if bookmark != null {
        bookmark.id := v.id;
        bookmark.name := v.name;
        bookmark.phone := v.phone;
        bookmark.address := v.address;
        bookmark.notes := v.notes;
        bookmark.category := v.category;
      }
    }

    /** Saves the view's edits over the stored row; changes nothing when there is no such row. */
    method UpdateBookmark(v: BookmarkDetailsView)
      requires Valid()
      modifies bookmarkRepo.bookmarkDao
      ensures Valid() && bookmarkRepo.bookmarkDao.nextId == old(bookmarkRepo.bookmarkDao.nextId)
      ensures v.id.None? || v.id.value !in old(bookmarkRepo.bookmarkDao.rows) ==>
                bookmarkRepo.bookmarkDao.rows == old(bookmarkRepo.bookmarkDao.rows)
      ensures v.id.Some? && v.id.value in old(bookmarkRepo.bookmarkDao.rows) ==>
                bookmarkRepo.bookmarkDao.rows
                == old(bookmarkRepo.bookmarkDao.rows)[v.id.value := ApplyView(old(bookmarkRepo.bookmarkDao.rows)[v.id.value], v)]
    {
      var bookmark := BookmarkViewToBookmark(v);
      if bookmark != null {
        bookmarkRepo.UpdateBookmark(bookmark);
      }
    }

    /** Deletes the viewed bookmark and its photo; changes nothing when there is no such row. */
    method DeleteBookmark(v: BookmarkDetailsView)
      requires Valid()
      modifies bookmarkRepo.bookmarkDao, bookmarkRepo.files
      ensures Valid() && bookmarkRepo.bookmarkDao.nextId == old(bookmarkRepo.bookmarkDao.nextId)
      ensures v.id.None? || v.id.value !in old(bookmarkRepo.bookmarkDao.rows) ==>
                bookmarkRepo.bookmarkDao.rows == old(bookmarkRepo.bookmarkDao.rows)
                && bookmarkRepo.files.images == old(bookmarkRepo.files.images)
      ensures v.id.Some? && v.id.value in old(bookmarkRepo.bookmarkDao.rows) ==>
                bookmarkRepo.bookmarkDao.rows == old(bookmarkRepo.bookmarkDao.rows) - {v.id.value}
                && bookmarkRepo.files.images == old(bookmarkRepo.files.images) - {v.id.value}
    {
      var bookmark: Bookmark? := null;
      if v.id.Some? {
        bookmark := bookmarkRepo.GetBookmark(v.id.value);
      }
      if bookmark != null {
        bookmarkRepo.DeleteBookmark(bookmark);
      }
    }
  }
}
