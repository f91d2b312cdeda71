/**
 * The service's data model: the response types of smugmug_photo_selector/models.py and the
 * already-decoded JSON values the upstream API sends back.
 */
module Models {
  import opened Wrappers

  /** The fixed, closed set of image sizes, from the smallest to the original upload. */
  datatype ImageSize = Thumb | Small | Medium | Large | XLarge | X2Large | X3Large | Original

  /** One image URL and the size it is for. */
  datatype PhotoURL = PhotoURL(size: ImageSize, url: string)

  /** One photo of an album: identifier, optional title, its URLs and the URL to show as thumbnail. */
  datatype Photo = Photo(id: string, title: Option<string>, urls: seq<PhotoURL>, thumbnailUrl: Option<string>)

  /** The answer to an album request. */
  datatype AlbumResponse = AlbumResponse(albumTitle: string, albumId: string, totalPhotos: int, photos: seq<Photo>)

  /**
   * A decoded JSON value as the service inspects it: a string, an integer, `null`, or any other
   * value (boolean, float, list, object), of which only its Python truthiness matters here.
   */
  datatype Value = Str(text: string) | Int(n: int) | Null | Other(truthy: bool)

  /** A decoded JSON object: field name to value. */
  type Record = map<string, Value>

  /** Python truthiness of a decoded value. */
  predicate Truthy(v: Value) {
    match v
    case Str(t) => t != []
    case Int(n) => n != 0
    case Null => false
    case Other(b) => b
  }

  /** Python's `record.get(field)`. */
  function Get(r: Record, field: string): Option<Value> {
    if field in r then Some(r[field]) else None
  }
}
