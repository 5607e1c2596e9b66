# PlaceBook bookmark layer, modelled in Dafny

PlaceBook is an Android app for bookmarking places on a map. This project models
its only piece of stateable logic: the bookmark layer.

- **Category classifier** (`Categories`). Place-type codes from the places
  service map to one of five category names: Gas, Lodging, Other, Restaurant and
  Shopping. Each category name maps to an icon.
- **Bookmark records and photo files** (`Model`). `BookmarkRecord` is the value of a
  stored row. `Bookmark` is the mutable object the app assigns fields of.
  `ImageFiles` is the file area, with one photo per bookmark id.
- **The bookmark table** (`Db`). The data-access object is modelled as a
  `map<int, BookmarkRecord>` plus the next id to assign. Ids start at 1 and are never
  reused. `WellKeyed` is the table invariant: every row sits under its own id.
- **`BookmarkRepo`** (`Repository`). It adds, creates, updates, loads and deletes
  bookmarks. It also gives snapshots of the observed row and of the observed list.
- **The two view-models** (`BookmarkDetails`, `Maps`). They convert between stored
  bookmarks and the view records, guard against a null id, fill in defaults for
  missing place data, and build their observed value once and cache it.

Observed values (`LiveData`) are modelled as a handle cached in the view-model's
field. The handle is a bookmark id for the details screen, or a unit value for
the marker list. Reading the handle's `Value` against the table gives a snapshot.
Background launches are modelled as synchronous calls.

The model makes three choices of its own:

- loading an id that no row has yields null, and every caller checks for null;
- the place-type classifier is modelled as the repository defines it, but no
  operation in the model calls it: creating a bookmark from a place never assigns
  a category;
- the listing of all bookmarks is built in ascending id order, since the
  `loadAll` query that would fix an order is not modelled; `LoadAll`'s contract
  deliberately promises no order, only that each stored row appears once.

The `Bookmark` entity and the `BookmarkDao` interface (imported at
`BookmarkRepo.kt:8` and `:6`) are not modelled from their declarations; their
behaviour is assumed as follows. The fields of `Bookmark` are those of the
conversion at `BookmarkDetailsViewModel.kt:68-80`. Its photo methods are taken to do nothing for
a null id, like the view's `getImage`/`setImage`.

## Model

| member | source | states |
|---|---|---|
| `Categories.BuildCategories` | app/src/main/java/com/cxromos/placebook/repository/BookmarkRepo.kt:61-69 | the icon table has exactly the five category names as keys, and distinct names have distinct icons |
| `Categories.BuildCategoryMap` | app/src/main/java/com/cxromos/placebook/repository/BookmarkRepo.kt:71-94 | exactly the twenty listed place types have an entry, and every other code has none |
| `Categories.RestaurantEntries` | app/src/main/java/com/cxromos/placebook/repository/BookmarkRepo.kt:73-79 | bakery, bar, cafe, food, restaurant, meal delivery and meal takeaway map to "Restaurant" |
| `Categories.GasEntries` | app/src/main/java/com/cxromos/placebook/repository/BookmarkRepo.kt:80 | the gas station maps to "Gas" |
| `Categories.ShoppingEntries` | app/src/main/java/com/cxromos/placebook/repository/BookmarkRepo.kt:81-90 | the ten store and mall codes map to "Shopping" |
| `Categories.LodgingEntries` | app/src/main/java/com/cxromos/placebook/repository/BookmarkRepo.kt:91-92 | lodging and room map to "Lodging" |
| `Categories.PlaceTypeToCategory` | app/src/main/java/com/cxromos/placebook/repository/BookmarkRepo.kt:49-55 | total; the result is always one of the five iconed names; "Other" iff the code is unlisted; the seven food codes iff "Restaurant"; the gas station iff "Gas"; lodging and room iff "Lodging"; the ten store and mall codes iff "Shopping" |
| `Categories.GetCategoryResourceId` | app/src/main/java/com/cxromos/placebook/repository/BookmarkRepo.kt:57-59 | there is an icon exactly for Gas, Lodging, Other, Restaurant and Shopping (each gets its own), and null for every other string |
| `Categories.GetCategories` | app/src/main/java/com/cxromos/placebook/repository/BookmarkRepo.kt:96-97 | lists each key of the icon table exactly once, and nothing else |
| `Categories.IconsDistinct` | app/src/main/java/com/cxromos/placebook/repository/BookmarkRepo.kt:61-69 | two different category names never share an icon |
| `Categories.ClassifiedCategoryHasIcon` | app/src/main/java/com/cxromos/placebook/repository/BookmarkRepo.kt:49-69 | the category of any place-type code always has an icon |
| `Model.LoadImage` | app/src/main/java/com/cxromos/placebook/viewmodel/BookmarkDetailsViewModel.kt:105-110 | a photo is found exactly when the id is non-null and a file for it exists |
| `Model.SaveImage` | app/src/main/java/com/cxromos/placebook/viewmodel/BookmarkDetailsViewModel.kt:112-116 | after saving, loading the same id gives the saved photo; other ids' photos are unchanged; a null id changes nothing |
| `Model.RemoveImage` | app/src/main/java/com/cxromos/placebook/repository/BookmarkRepo.kt:40 | after deleting, no photo is found for the id; other ids' photos are unchanged |
| `Model.Bookmark.SetImage` | app/src/main/java/com/cxromos/placebook/viewmodel/MapsViewModel.kt:32 | the file area becomes `SaveImage` of the old one under the bookmark's id |
| `Model.Bookmark.DeleteImage` | app/src/main/java/com/cxromos/placebook/repository/BookmarkRepo.kt:40 | the file area becomes `RemoveImage` of the old one for the bookmark's id |
| `Db.IdsFrom` | app/src/main/java/com/cxromos/placebook/repository/BookmarkRepo.kt:44-47 | the stored ids of a range, strictly ascending, each stored id of the range included |
| `Db.IdsFromCount` | app/src/main/java/com/cxromos/placebook/repository/BookmarkRepo.kt:44-47 | the ascending id list is as long as the set of stored ids in the range |
| `Db.Listing` | app/src/main/java/com/cxromos/placebook/repository/BookmarkRepo.kt:44-47 | the listing is the row of each stored id, in ascending id order |
| `Db.ListingCount` | app/src/main/java/com/cxromos/placebook/repository/BookmarkRepo.kt:44-47 | in a well-keyed table the listing has one entry per row |
| `Db.ListingContents` | app/src/main/java/com/cxromos/placebook/repository/BookmarkRepo.kt:44-47 | a record is in the listing iff it is a stored row |
| `Db.Inserted` | app/src/main/java/com/cxromos/placebook/repository/BookmarkRepo.kt:21-25 | insert keeps the table well-keyed and adds one row under the fresh id, carrying that id; other rows stay the same |
| `Db.Updated` | app/src/main/java/com/cxromos/placebook/repository/BookmarkRepo.kt:31-33 | update replaces only the row with the record's id, and changes nothing when no row has that id; the key set is unchanged |
| `Db.Deleted` | app/src/main/java/com/cxromos/placebook/repository/BookmarkRepo.kt:39-42 | delete removes exactly the key of the record's id; the remaining rows are unchanged |
| `Db.InsertedListing` | app/src/main/java/com/cxromos/placebook/repository/BookmarkRepo.kt:21-25 | after an insert the full listing is one longer |
| `Db.DeletedListing` | app/src/main/java/com/cxromos/placebook/repository/BookmarkRepo.kt:39-42 | after deleting a stored bookmark the full listing is one shorter |
| `Db.BookmarkDao.InsertBookmark` | app/src/main/java/com/cxromos/placebook/repository/BookmarkRepo.kt:22 | returns a fresh id and stores the record under it; the invariant is kept |
| `Db.BookmarkDao.UpdateBookmark` | app/src/main/java/com/cxromos/placebook/repository/BookmarkRepo.kt:32 | the table becomes `Updated` of the old one; the invariant is kept |
| `Db.BookmarkDao.LoadBookmark` | app/src/main/java/com/cxromos/placebook/repository/BookmarkRepo.kt:36 | returns a row exactly when the id is stored, and that row carries the id |
| `Db.BookmarkDao.DeleteBookmark` | app/src/main/java/com/cxromos/placebook/repository/BookmarkRepo.kt:41 | the table becomes `Deleted` of the old one; the invariant is kept |
| `Db.BookmarkDao.LoadAll` | app/src/main/java/com/cxromos/placebook/repository/BookmarkRepo.kt:46 | has one entry per row, and contains exactly the stored rows |
| `Repository.BookmarkRepo.constructor` | app/src/main/java/com/cxromos/placebook/repository/BookmarkRepo.kt:11-13 | the repository holds the given table and file area |
| `Repository.BookmarkRepo.AddBookmark` | app/src/main/java/com/cxromos/placebook/repository/BookmarkRepo.kt:21-25 | the returned id is fresh and is the one written onto the bookmark; the stored row equals the bookmark afterwards; no other field and no other row changes |
| `Repository.BookmarkRepo.CreateBookmark` | app/src/main/java/com/cxromos/placebook/repository/BookmarkRepo.kt:27-29 | a new object with every field at its default |
| `Repository.BookmarkRepo.UpdateBookmark` | app/src/main/java/com/cxromos/placebook/repository/BookmarkRepo.kt:31-33 | the table becomes `Updated` of the old one with the bookmark's record; the id counter is unchanged |
| `Repository.BookmarkRepo.GetBookmark` | app/src/main/java/com/cxromos/placebook/repository/BookmarkRepo.kt:35-37 | null exactly when no row has the id; otherwise a new object equal to the stored row |
| `Repository.BookmarkRepo.DeleteBookmark` | app/src/main/java/com/cxromos/placebook/repository/BookmarkRepo.kt:39-42 | the photo of the bookmark's id is deleted and its row removed; nothing else changes, the id counter included |
| `Repository.BookmarkRepo.GetLiveBookmark` | app/src/main/java/com/cxromos/placebook/repository/BookmarkRepo.kt:17-19 | the observed row exists exactly when the id is stored, and it is that stored row |
| `Repository.BookmarkRepo.AllBookmarks` | app/src/main/java/com/cxromos/placebook/repository/BookmarkRepo.kt:44-47 | the observed list has one entry per row and holds exactly the stored rows |
| `BookmarkDetails.BookmarkDetailsView.GetImage` | app/src/main/java/com/cxromos/placebook/viewmodel/BookmarkDetailsViewModel.kt:105-110 | null when the view's id is null; otherwise the photo stored for the id, if any |
| `BookmarkDetails.BookmarkDetailsView.SetImage` | app/src/main/java/com/cxromos/placebook/viewmodel/BookmarkDetailsViewModel.kt:112-116 | saves under the view's id, so `GetImage` then returns the new photo; does nothing when the id is null |
| `BookmarkDetails.BookmarkToBookmarkView` | app/src/main/java/com/cxromos/placebook/viewmodel/BookmarkDetailsViewModel.kt:68-80 | all nine fields are copied unchanged |
| `BookmarkDetails.ApplyView` | app/src/main/java/com/cxromos/placebook/viewmodel/BookmarkDetailsViewModel.kt:53-66 | viewing the result gives back the edited view, except that latitude, longitude and place id are the stored ones |
| `BookmarkDetails.UneditedRoundTrip` | app/src/main/java/com/cxromos/placebook/viewmodel/BookmarkDetailsViewModel.kt:53-80 | converting a stored bookmark to a view and back, unedited, yields the stored bookmark |
| `BookmarkDetails.LocationEditsIgnored` | app/src/main/java/com/cxromos/placebook/viewmodel/BookmarkDetailsViewModel.kt:58-63 | views that differ only in latitude, longitude and place id save to the same bookmark |
| `BookmarkDetails.LiveDetailsView.Value` | app/src/main/java/com/cxromos/placebook/viewmodel/BookmarkDetailsViewModel.kt:83-91 | the observed view exists exactly while the bound row does; it is the nine-field view of that row, and saving it unedited writes that row back unchanged |
| `BookmarkDetails.BookmarkDetailsViewModel.constructor` | app/src/main/java/com/cxromos/placebook/viewmodel/BookmarkDetailsViewModel.kt:15-18 | starts with no observed view |
| `BookmarkDetails.BookmarkDetailsViewModel.GetBookmark` | app/src/main/java/com/cxromos/placebook/viewmodel/BookmarkDetailsViewModel.kt:20-25 | the first call binds the view to the id; later calls return the cached view, even for a different id |
| `BookmarkDetails.BookmarkDetailsViewModel.BookmarkViewToBookmark` | app/src/main/java/com/cxromos/placebook/viewmodel/BookmarkDetailsViewModel.kt:53-66 | null iff the view's id is null or not stored; otherwise a new object holding `ApplyView` of the stored row |
| `BookmarkDetails.BookmarkDetailsViewModel.UpdateBookmark` | app/src/main/java/com/cxromos/placebook/viewmodel/BookmarkDetailsViewModel.kt:27-32 | writes `ApplyView` over the stored row when there is one; otherwise the table is unchanged; the id counter never changes |
| `BookmarkDetails.BookmarkDetailsViewModel.DeleteBookmark` | app/src/main/java/com/cxromos/placebook/viewmodel/BookmarkDetailsViewModel.kt:42-51 | removes the row and the photo of the view's id when that row exists; otherwise changes nothing; the id counter never changes |
| `Maps.NameText` | app/src/main/java/com/cxromos/placebook/viewmodel/MapsViewModel.kt:25 | a present name is kept; a missing name becomes the text "null" |
| `Maps.BookmarkFromPlace` | app/src/main/java/com/cxromos/placebook/viewmodel/MapsViewModel.kt:22-29 | a missing place id, phone or address becomes ""; missing coordinates become -1.0; id, notes and category keep the defaults of a new bookmark |
| `Maps.PlaceBookmarkHasIcon` | app/src/main/java/com/cxromos/placebook/viewmodel/MapsViewModel.kt:22-29 | a bookmark made from a place has a category with an icon |
| `Maps.BookmarkView.GetImage` | app/src/main/java/com/cxromos/placebook/viewmodel/MapsViewModel.kt:70-75 | null when the marker view's id is null; otherwise the photo stored for the id, if any |
| `Maps.BookmarkToBookmarkView` | app/src/main/java/com/cxromos/placebook/viewmodel/MapsViewModel.kt:37-44 | keeps id, name and phone, and puts (latitude, longitude) into the location |
| `Maps.MapBookmarksToBookmarkView` | app/src/main/java/com/cxromos/placebook/viewmodel/MapsViewModel.kt:46-55 | one marker view per bookmark: same length, same order |
| `Maps.MappedMembers` | app/src/main/java/com/cxromos/placebook/viewmodel/MapsViewModel.kt:50-52 | every member of a list has its marker view in the mapped list, and every mapped view is the view of a member |
| `Maps.LiveBookmarkViews.Value` | app/src/main/java/com/cxromos/placebook/viewmodel/MapsViewModel.kt:46-55 | one marker view per stored row: the views are exactly the marker views of the stored rows, each carrying a stored id |
| `Maps.MapsViewModel.constructor` | app/src/main/java/com/cxromos/placebook/viewmodel/MapsViewModel.kt:16-20 | starts with no observed marker list |
| `Maps.MapsViewModel.AddBookmarkFromPlace` | app/src/main/java/com/cxromos/placebook/viewmodel/MapsViewModel.kt:22-35 | inserts `BookmarkFromPlace` under the next fresh id, then saves the photo under that same id; nothing else changes |
| `Maps.MapsViewModel.GetBookmarkViews` | app/src/main/java/com/cxromos/placebook/viewmodel/MapsViewModel.kt:57-62 | built on the first call; later calls return the same observed source |

## Left out

- Android UI, intents, camera and gallery flows, map rendering and the places SDK calls, which live in the activities and adapters.
- Building the share URL, which calls `URLEncoder`, a platform routine.
- The UI-level empty-name guard of the details screen.
- The database singleton builder. The table is an explicit `BookmarkDao` object that is handed to each repository.
- Storage failures (an unavailable database, file I/O errors). They are not handled in the code, so they are not modelled.
- Observation. `LiveData` is read as a snapshot through a cached handle, so change notification and subscriber lifetimes are not modelled.
- Coroutines. `GlobalScope.launch` is modelled as a synchronous call, so interleavings of concurrent writes are not modelled.
- Photo decoding, scaling and file naming. A photo is a byte sequence stored under its bookmark id.
- Floating point. Coordinates are `real` values that are only copied.
- `Repository.BookmarkRepo.DeleteBookmark`: photo removal comes before row removal in the body, but the contract states only the final state, because the two stores are separate and no observer sees the intermediate state.
- `Db.BookmarkDao.InsertBookmark`: always assigns a fresh id and ignores an id the record may already carry. The `BookmarkDao` interface is not modelled from its declaration, so its behaviour for such records is an assumption of the model.
- `Categories.GetCategories`: states the contents of the list but not its order, which follows a hash map's key order.
- Place-type codes are a datatype of the twenty listed codes plus `OtherType`, which stands for every other code. Their numeric ordinals are not modelled.
- `Model.Blank`: the defaults of the `Bookmark` entity are assumed, as the model does not take that entity from its declaration (imported at BookmarkRepo.kt:8): category "Other", null id and place id, empty strings, coordinates 0.0. `Maps.PlaceBookmarkHasIcon` holds only because of the assumed "Other" default, since `addBookmarkFromPlace` never assigns a category (MapsViewModel.kt:22-29).
- The details view-model's `getCategoryResourceId` and `getCategories` are pass-throughs to `Categories.GetCategoryResourceId` and `Categories.GetCategories`.
- The marker views' `categoryResourceId` and the `BookmarkMarkerView` type are used by the adapters but not declared in the view-model. Marker views have only the four declared fields.
