/**
 * The persisted bookmark entity and the photo files kept beside it.
 */
module Model {
  import opened Wrappers

  /** A photo as the bytes of its file; decoding and scaling are not modelled. */
  type Image = seq<bv8>

  /**
   * The value of a bookmark row. `id` is null until the store assigns one;
   * `placeId` is null for a bookmark that did not come from a place lookup.
   * Coordinates are copied, never computed with, so `real` stands for `Double`.
   */
  datatype BookmarkRecord = BookmarkRecord(
    id: Option<int>,
    placeId: Option<string>,
    name: string,
    address: string,
    latitude: real,
    longitude: real,
    phone: string,
    notes: string,
    category: string)

  /** The zero-valued bookmark `Bookmark()`. */
  const Blank: BookmarkRecord :=
    BookmarkRecord(None, None, "", "", 0.0, 0.0, "", "", "Other")

  /** The image a photo file area holds for an id; null for a null id or a missing file. */
  function LoadImage(images: map<int, Image>, id: Option<int>): (image: Option<Image>)
    ensures image.Some? <==> id.Some? && id.value in images
    ensures image.Some? ==> image.value == images[id.value]
  {
    if id.Some? && id.value in images then Some(images[id.value]) else None
  }

  /** Writes the photo file of `id`; nothing happens for a null id. */
  function SaveImage(images: map<int, Image>, id: Option<int>, image: Image): (saved: map<int, Image>)
    ensures id.Some? ==> LoadImage(saved, id) == Some(image)
    ensures id.None? ==> saved == images
    ensures forall k | Some(k) != id :: LoadImage(saved, Some(k)) == LoadImage(images, Some(k))
  {
    if id.Some? then images[id.value := image] else images
  }

  /** Deletes the photo file of `id`; nothing happens for a null id. */
  function RemoveImage(images: map<int, Image>, id: Option<int>): (left: map<int, Image>)
    ensures LoadImage(left, id).None?
    ensures forall k | Some(k) != id :: LoadImage(left, Some(k)) == LoadImage(images, Some(k))
  {
    if id.Some? then images - {id.value} else images
  }

  /** The app's private file area, holding one photo file per bookmark id. */
  class ImageFiles {
    var images: map<int, Image>

    constructor ()
      ensures images == map[]
    {
      images := map[];
    }
  }

  /** A bookmark object, whose fields the view-models and the repository assign in place. */
  class Bookmark {
    var id: Option<int>
    var placeId: Option<string>
    var name: string
    var address: string
    var latitude: real
    var longitude: real
    var phone: string
    var notes: string
    var category: string

    /** The row this object would be stored as. */
    function Record(): BookmarkRecord
      reads this
    {
      BookmarkRecord(id, placeId, name, address, latitude, longitude, phone, notes, category)
    }

    /** `Bookmark()`: every field at its default. */
    constructor ()
      ensures Record() == Blank
    {
      id, placeId, name, address := Blank.id, Blank.placeId, Blank.name, Blank.address;
      latitude, longitude := Blank.latitude, Blank.longitude;
      phone, notes, category := Blank.phone, Blank.notes, Blank.category;
    }

    /** The object the store builds when it loads a row. */
    constructor FromRecord(r: BookmarkRecord)
      ensures Record() == r
    {
      id, placeId, name, address := r.id, r.placeId, r.name, r.address;
      latitude, longitude := r.latitude, r.longitude;
      phone, notes, category := r.phone, r.notes, r.category;
    }

    /** Saves `image` as this bookmark's photo file. */
    method SetImage(image: Image, files: ImageFiles)
      modifies files
      ensures files.images == SaveImage(old(files.images), id, image)
    {
      if id.Some? {
        files.images := files.images[id.value := image];
      }
    }

    /** Deletes this bookmark's photo file. */
    method DeleteImage(files: ImageFiles)
      modifies files
      ensures files.images == RemoveImage(old(files.images), id)
    {
      if id.Some? {
        files.images := files.images - {id.value};
      }
    }
  }
}
