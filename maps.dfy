/**
 * The view-model behind the map screen: it bookmarks a place picked on the map
 * and supplies the marker views of all stored bookmarks.
 */
module Maps {
  import opened Wrappers
  import opened Model
  import opened Db
  import opened Repository
  import Categories

  datatype LatLng = LatLng(latitude: real, longitude: real)

  /** The details the places service reports for a place; any of them may be missing. */
  datatype Place = Place(
    id: Option<string>,
    name: Option<string>,
    latLng: Option<LatLng>,
    phoneNumber: Option<string>,
    address: Option<string>)

  /** Kotlin's `toString()` on a nullable string: a null name becomes the text "null". */
  function NameText(name: Option<string>): (text: string)
    ensures name.Some? ==> text == name.value
    ensures name.None? ==> text == "null"
  {
    if name.Some? then name.value else "null"
  }

  /**
   * The bookmark assembled from a place before it is stored: missing place id,
   * phone and address become "", missing coordinates -1.0; id, notes and category
   * keep the defaults of a new bookmark.
   */
  function BookmarkFromPlace(place: Place): (b: BookmarkRecord)
    ensures b.id == Blank.id && b.notes == Blank.notes && b.category == Blank.category
    ensures b.placeId.Some?
    ensures b.placeId.value == if place.id.Some? then place.id.value else ""
    ensures b.name == NameText(place.name)
    ensures place.latLng.Some? ==> b.latitude == place.latLng.value.latitude && b.longitude == place.latLng.value.longitude
    ensures place.latLng.None? ==> b.latitude == -1.0 && b.longitude == -1.0
    ensures b.phone == if place.phoneNumber.Some? then place.phoneNumber.value else ""
    ensures b.address == if place.address.Some? then place.address.value else ""
  {
    Blank.(placeId := Some(place.id.GetOr("")),
           name := NameText(place.name),
           latitude := if place.latLng.Some? then place.latLng.value.latitude else -1.0,
           longitude := if place.latLng.Some? then place.latLng.value.longitude else -1.0,
           phone := place.phoneNumber.GetOr(""),
           address := place.address.GetOr(""))
  }

  /** A bookmark made from a place has a category that resolves to an icon. */
  lemma PlaceBookmarkHasIcon(place: Place)
    ensures Categories.GetCategoryResourceId(BookmarkFromPlace(place).category).Some?
  {
  }

  /** The marker view of a bookmark on the map. */
  datatype BookmarkView = BookmarkView(id: Option<int>, location: LatLng, name: string, phone: string)
  {
    /** The photo of the marked bookmark; null when the view has no id or there is no file. */
    function GetImage(files: ImageFiles): (image: Option<Image>)
      reads files
      ensures id.None? ==> image.None?
      ensures image == LoadImage(files.images, id)
    {
      if id.Some? then LoadImage(files.images, id) else None
    }
  }

  /** The marker view keeps id, name and phone, and places the marker at the bookmark's coordinates. */
  function BookmarkToBookmarkView(b: BookmarkRecord): (v: BookmarkView)
    ensures v.id == b.id && v.name == b.name && v.phone == b.phone
    ensures v.location.latitude == b.latitude && v.location.longitude == b.longitude
  {
    BookmarkView(b.id, LatLng(b.latitude, b.longitude), b.name, b.phone)
  }

  /** The marker views of a list of bookmarks, one per bookmark, in the same order. */
  function MapBookmarksToBookmarkView(bookmarks: seq<BookmarkRecord>): (views: seq<BookmarkView>)
    ensures |views| == |bookmarks|
    ensures forall i | 0 <= i < |bookmarks| :: views[i] == BookmarkToBookmarkView(bookmarks[i])
  {
    if bookmarks == [] then []
    else [BookmarkToBookmarkView(bookmarks[0])] + MapBookmarksToBookmarkView(bookmarks[1..])
  }

  /** A list's marker views are exactly the marker views of its members. */
  lemma MappedMembers(bookmarks: seq<BookmarkRecord>)
    ensures forall r | r in bookmarks :: BookmarkToBookmarkView(r) in MapBookmarksToBookmarkView(bookmarks)
    ensures forall w | w in MapBookmarksToBookmarkView(bookmarks) ::
              exists r | r in bookmarks :: w == BookmarkToBookmarkView(r)
  {
    var views := MapBookmarksToBookmarkView(bookmarks);
    forall r | r in bookmarks ensures BookmarkToBookmarkView(r) in views {
      var i :| 0 <= i < |bookmarks| && bookmarks[i] == r;
      assert views[i] == BookmarkToBookmarkView(r);
    }
    forall w | w in views ensures exists r | r in bookmarks :: w == BookmarkToBookmarkView(r) {
      var i :| 0 <= i < |views| && views[i] == w;
      assert bookmarks[i] in bookmarks;
    }
  }

  /** The observed list of marker views, whose value follows the whole table. */
  datatype LiveBookmarkViews = LiveBookmarkViews
  {
    /** A snapshot of the observed value: one marker view per stored bookmark. */
    function Value(dao: BookmarkDao): (views: seq<BookmarkView>)
      reads dao
      requires dao.Valid()
      ensures |views| == |dao.rows|
      ensures forall i | 0 <= i < |views| :: views[i].id.Some? && views[i].id.value in dao.rows
      ensures forall r | r in dao.rows.Values :: BookmarkToBookmarkView(r) in views
      ensures forall w | w in views :: exists r | r in dao.rows.Values :: w == BookmarkToBookmarkView(r)
    {
      var all := dao.LoadAll();
      MappedMembers(all);
      MapBookmarksToBookmarkView(all)
    }
  }

  class MapsViewModel {
    const bookmarkRepo: BookmarkRepo
    /** The observed marker views, built on the first request and kept afterwards. */
    var bookmarks: Option<LiveBookmarkViews>

    ghost predicate Valid()
      reads bookmarkRepo.bookmarkDao
    {
      bookmarkRepo.Valid()
    }

    constructor (bookmarkRepo: BookmarkRepo)
      ensures this.bookmarkRepo == bookmarkRepo && bookmarks == None
    {
      this.bookmarkRepo := bookmarkRepo;
      bookmarks := None;
    }

    /**
     * Bookmarks a place: builds the record from the place, inserts it, and then
     * saves the photo under the id the insert assigned.
     */
    method AddBookmarkFromPlace(place: Place, image: Image)
      requires Valid()
      modifies bookmarkRepo.bookmarkDao, bookmarkRepo.files
      ensures Valid()
      ensures bookmarkRepo.bookmarkDao.nextId == old(bookmarkRepo.bookmarkDao.nextId) + 1
      ensures bookmarkRepo.bookmarkDao.rows
              == Inserted(old(bookmarkRepo.bookmarkDao.rows), old(bookmarkRepo.bookmarkDao.nextId), BookmarkFromPlace(place))
      ensures bookmarkRepo.files.images == old(bookmarkRepo.files.images)[old(bookmarkRepo.bookmarkDao.nextId) := image]
    {
      var bookmark := bookmarkRepo.CreateBookmark();
      bookmark.placeId := Some(place.id.GetOr(""));
      bookmark.name := NameText(place.name);
      bookmark.latitude := if place.latLng.Some? then place.latLng.value.latitude else -1.0;
      bookmark.longitude := if place.latLng.Some? then place.latLng.value.longitude else -1.0;
      bookmark.phone := place.phoneNumber.GetOr("");
      bookmark.address := place.address.GetOr("");

      var newId := bookmarkRepo.AddBookmark(bookmark);
      bookmark.SetImage(image, bookmarkRepo.files);
    }

    /** The observed marker views: built on the first call, the same source afterwards. */
    method GetBookmarkViews() returns (live: LiveBookmarkViews)
      modifies this`bookmarks
      ensures old(bookmarks).Some? ==> live == old(bookmarks).value
      ensures bookmarks == Some(live)
    {
      if bookmarks.None? {
        bookmarks := Some(LiveBookmarkViews);
      }
      live := bookmarks.value;
    }
  }
}
