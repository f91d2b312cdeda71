/**
 * From upstream replies to the service's answers (smugmug_photo_selector/smugmug_service.py,
 * `_convert_image_to_photo`, `get_all_photos` and `get_all_photos_by_id`). The three upstream
 * requests (web-URI lookup, album, album images) are not made here: their replies are inputs.
 */
module Service {
  import opened Wrappers
  import opened Text
  import opened Models
  import opened Http
  import opened AlbumKeys
  import opened PhotoUrls

  /** The URL of the first thumbnail-sized entry, if any. */
  function FirstThumb(urls: seq<PhotoURL>): (r: Option<string>)
    ensures r.None? <==> forall i :: 0 <= i < |urls| ==> urls[i].size != Thumb
    ensures r.Some? ==> exists i :: 0 <= i < |urls| && urls[i] == PhotoURL(Thumb, r.value)
                                    && forall j :: 0 <= j < i ==> urls[j].size != Thumb
  {
    if urls == [] then None
    else if urls[0].size == Thumb then Some(urls[0].url)
    else
      var r := FirstThumb(urls[1..]);
      if r.Some? then
        var i :| 0 <= i < |urls[1..]| && urls[1..][i] == PhotoURL(Thumb, r.value)
                 && forall j :: 0 <= j < i ==> urls[1..][j].size != Thumb;
        assert urls[i + 1] == PhotoURL(Thumb, r.value);
        r
      else r
  }

  /** The photo's thumbnail: none without URLs, else the first thumbnail URL when it is truthy, else the first URL. */
  function ThumbnailOf(urls: seq<PhotoURL>): (r: Option<string>)
    ensures r.None? <==> urls == []
    ensures r.Some? ==> exists i :: 0 <= i < |urls| && urls[i].url == r.value
    ensures FirstThumb(urls).Some? && FirstThumb(urls).value != [] ==> r == FirstThumb(urls)
    ensures urls != [] && (FirstThumb(urls).None? || FirstThumb(urls).value == []) ==> r == Some(urls[0].url)
  {
    if urls == [] then None
    else
      match FirstThumb(urls)
      case Some(t) => if t != [] then Some(t) else Some(urls[0].url)
      case None => Some(urls[0].url)
  }

  /**
   * On URLs in table order the thumbnail is absent exactly when there are no URLs and is
   * otherwise the first URL: a thumbnail entry can only come first.
   */
  lemma ThumbnailIsFirst(urls: seq<PhotoURL>)
    requires Ordered(urls)
    ensures ThumbnailOf(urls).None? <==> urls == []
    ensures urls != [] ==> ThumbnailOf(urls) == Some(urls[0].url)
  {
    ThumbOnlyFirst(urls);
  }

  /** `id`: `ImageKey`, or the empty string when absent; any non-string fails validation. */
  function ImageId(image: Record): (r: Result<string, ServiceError>)
    ensures Get(image, "ImageKey").None? ==> r == Success("")
    ensures r.Success? && Get(image, "ImageKey").Some? <==> Get(image, "ImageKey").Some? && image["ImageKey"].Str?
    ensures r.Success? && Get(image, "ImageKey").Some? ==> r.value == image["ImageKey"].text
    ensures r.Failure? ==> r.error == ValidationFailed
  {
    match Get(image, "ImageKey")
    case None => Success("")
    case Some(Str(t)) => Success(t)
    case Some(_) => Failure(ValidationFailed)
  }

  /** `title`: `Title` when it is a string, none when it is absent or null; anything else fails validation. */
  function ImageTitle(image: Record): (r: Result<Option<string>, ServiceError>)
    ensures r.Success? <==> Get(image, "Title") in {None, Some(Null)} || image["Title"].Str?
    ensures r.Success? && r.value.Some? <==> "Title" in image && image["Title"].Str?
    ensures r.Success? && r.value.Some? ==> r.value.value == image["Title"].text
    ensures r.Failure? ==> r.error == ValidationFailed
  {
    match Get(image, "Title")
    case None => Success(None)
    case Some(Null) => Success(None)
    case Some(Str(t)) => Success(Some(t))
    case Some(_) => Failure(ValidationFailed)
  }

  /**
   * `_convert_image_to_photo`: the image's URLs, the thumbnail chosen from them, and its
   * identifier and title as given.
   */
  function ConvertImage(image: Record): (r: Result<Photo, ServiceError>)
    ensures r.Success? <==> ImageId(image).Success? && ImageTitle(image).Success?
    ensures r.Failure? ==> r.error == ValidationFailed
    ensures r.Success? ==>
              && r.value.id == ImageId(image).value
              && r.value.title == ImageTitle(image).value
              && r.value.urls == PhotoUrlsOf(image)
              && (r.value.thumbnailUrl.None? <==> r.value.urls == [])
              && (r.value.urls != [] ==> r.value.thumbnailUrl == Some(r.value.urls[0].url))
  {
    var urls := PhotoUrlsOf(image);
    PhotoUrlsOrdered(image);
    ThumbnailIsFirst(urls);
    var id :- ImageId(image);
    var title :- ImageTitle(image);
    Success(Photo(id, title, urls, ThumbnailOf(urls)))
  }

  /** The list comprehension over the images: one photo per image in order, or the first failure. */
  function ConvertAll(images: seq<Record>): (r: Result<seq<Photo>, ServiceError>)
    ensures r.Success? <==> forall i :: 0 <= i < |images| ==> ConvertImage(images[i]).Success?
    ensures r.Success? ==> |r.value| == |images|
                           && forall i :: 0 <= i < |images| ==> ConvertImage(images[i]) == Success(r.value[i])
    ensures r.Failure? ==> exists i :: 0 <= i < |images| && ConvertImage(images[i]) == Failure(r.error)
  {
    if images == [] then Success([])
    else
      var first :- ConvertImage(images[0]);
      var rest :- ConvertAll(images[1..]);
      assert forall i :: 1 <= i < |images| ==> images[i] == images[1..][i - 1];
      Success([first] + rest)
  }

  /** The title an album gets when its record has none. */
  const DefaultTitle := "\U{00C1}lbum sem t\U{00ED}tulo"

  /** `album_title`: the album's `Title`, or the default when absent; a non-string fails validation. */
  function AlbumTitle(album: Record): (r: Result<string, ServiceError>)
    ensures "Title" !in album ==> r == Success(DefaultTitle)
    ensures "Title" in album ==> (r.Success? <==> album["Title"].Str?)
    ensures "Title" in album && r.Success? ==> r.value == album["Title"].text
    ensures r.Failure? ==> r.error == ValidationFailed
  {
    match Get(album, "Title")
    case None => Success(DefaultTitle)
    case Some(Str(t)) => Success(t)
    case Some(_) => Failure(ValidationFailed)
  }

  /** The number of images the images request asks for. */
  const FallbackCount := 5000

  /**
   * The `count` parameter of the images request: the album's `ImageCount` when it is truthy,
   * otherwise 5000 (absent, zero, null and other falsy values alike).
   */
  function ImagesCount(album: Record): (r: Value)
    ensures r == Int(FallbackCount) <==> "ImageCount" !in album || !Truthy(album["ImageCount"]) || album["ImageCount"] == Int(FallbackCount)
    ensures r != Int(FallbackCount) ==> "ImageCount" in album && r == album["ImageCount"] && Truthy(r)
    ensures Truthy(r)
  {
    var total := if "ImageCount" in album then album["ImageCount"] else Int(0);
    if Truthy(total) then total else Int(FallbackCount)
  }

  /**
   * The `Response` object of an images reply, if it has one, and its `AlbumImage` list, if that
   * has one.
   */
  type ImagesBody = Option<Option<seq<Record>>>

  /** The images of a reply; a missing `Response` or `AlbumImage` counts as no images. */
  function ImagesOf(body: ImagesBody): (r: seq<Record>)
    ensures r == [] <== body.None? || body.value.None?
    ensures body.Some? && body.value.Some? ==> r == body.value.value
  {
    match body
    case Some(Some(images)) => images
    case _ => []
  }

  /**
   * The answer for album `key` from its album record and its images: the title (or its
   * default), the key as identifier, one photo per image in upstream order, and as total the
   * number of photos, whatever the album's own `ImageCount` says.
   */
  function AssembleAlbum(key: string, album: Record, images: seq<Record>): (r: Result<AlbumResponse, ServiceError>)
    ensures r.Success? <==> AlbumTitle(album).Success? && ConvertAll(images).Success?
    ensures r.Failure? ==> r.error == ValidationFailed
    ensures r.Success? ==>
              && r.value.albumId == key
              && r.value.albumTitle == AlbumTitle(album).value
              && r.value.totalPhotos == |r.value.photos| == |images|
              && forall i :: 0 <= i < |images| ==> ConvertImage(images[i]) == Success(r.value.photos[i])
  {
    var photos :- ConvertAll(images);
    var title :- AlbumTitle(album);
    Success(AlbumResponse(title, key, |photos|, photos))
  }

  /**
   * The part shared by both entry points once the key is known: the album request, then the
   * images request, then assembly. An upstream failure is reported as it was classified.
   */
  function FetchWithKey(key: string, albumReply: Reply<Record>, imagesReply: Reply<ImagesBody>): (r: Result<AlbumResponse, ServiceError>)
    ensures albumReply.status >= BadRequestStatus ==> r == Classify(albumReply).PropagateFailure()
    ensures albumReply.status < BadRequestStatus && imagesReply.status >= BadRequestStatus ==>
              r == Classify(imagesReply).PropagateFailure()
    ensures albumReply.status < BadRequestStatus && imagesReply.status < BadRequestStatus ==>
              r == AssembleAlbum(key, albumReply.body, ImagesOf(imagesReply.body))
  {
    var album :- Classify(albumReply);
    var body :- Classify(imagesReply);
    AssembleAlbum(key, album, ImagesOf(body))
  }

  /** `get_all_photos`: resolve the key from the URL, then fetch the album. */
  function FetchAlbum(url: string, lookup: Reply<LookupBody>, albumReply: Reply<Record>, imagesReply: Reply<ImagesBody>): (r: Result<AlbumResponse, ServiceError>)
    ensures ResolveAlbumKey(url, lookup).Failure? ==> r == ResolveAlbumKey(url, lookup).PropagateFailure()
    ensures ResolveAlbumKey(url, lookup).Success? ==> r == FetchWithKey(ResolveAlbumKey(url, lookup).value, albumReply, imagesReply)
    ensures r.Success? ==> r.value.albumId == ResolveAlbumKey(url, lookup).value && r.value.totalPhotos == |r.value.photos|
  {
    var key :- ResolveAlbumKey(url, lookup);
    FetchWithKey(key, albumReply, imagesReply)
  }

  /** `get_all_photos_by_id`: check and normalise the identifier, then fetch the album. */
  function FetchAlbumById(id: string, albumReply: Reply<Record>, imagesReply: Reply<ImagesBody>): (r: Result<AlbumResponse, ServiceError>)
    ensures IsBlank(id) ==> r == Failure(EmptyAlbumId)
    ensures !IsBlank(id) ==> r == FetchWithKey(NormalizeId(id), albumReply, imagesReply)
    ensures r.Success? ==> r.value.albumId == NormalizeId(id) && r.value.totalPhotos == |r.value.photos|
  {
    var key :- AlbumIdKey(id);
    FetchWithKey(key, albumReply, imagesReply)
  }

  /** The assembled answer does not depend on the album's reported `ImageCount`. */
  lemma TotalIgnoresImageCount(key: string, album: Record, images: seq<Record>, count: Value)
    ensures AssembleAlbum(key, album["ImageCount" := count], images) == AssembleAlbum(key, album, images)
  {
    assert Get(album["ImageCount" := count], "Title") == Get(album, "Title");
  }

  /** An id with the `n-` prefix and the same id without it fetch the same album. */
  lemma {:induction false} PrefixedIdSameAlbum(key: string, albumReply: Reply<Record>, imagesReply: Reply<ImagesBody>)
    requires key != [] && AllAlnum(key)
    ensures FetchAlbumById("n-" + key, albumReply, imagesReply) == FetchAlbumById(key, albumReply, imagesReply)
  {
    NormalizeKey(key);
    assert !IsSpace(key[0]);
    assert !IsSpace(("n-" + key)[0]);
  }

  /**
   * A bare `n-<key>` given as an album URL is fetched exactly as the same text given as an
   * album id, whatever the lookup would answer.
   */
  lemma {:induction false} BareIdUrlSameAsId(key: string, lookup: Reply<LookupBody>, albumReply: Reply<Record>, imagesReply: Reply<ImagesBody>)
    requires key != [] && AllAlnum(key)
    ensures FetchAlbum("n-" + key, lookup, albumReply, imagesReply) == FetchAlbumById("n-" + key, albumReply, imagesReply)
  {
    BareIdResolves(key, lookup);
    NormalizeKey(key);
    assert !IsSpace(("n-" + key)[0]);
  }
}
