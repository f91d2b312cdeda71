/**
 * What the model gives for the image conversion and the album requests of
 * tests/test_smugmug_service.py, with the mocked upstream replies as inputs.
 */
module ServiceExamples {
  import opened Wrappers
  import opened Text
  import opened Models
  import opened Http
  import opened AlbumKeys
  import opened Service
  import opened AlbumKeyExamples
  import opened PhotoUrls
  import opened PhotoUrlsExamples

  const Ok := 200

  const TestAlbumUrl := "https://user.smugmug.com/test-album/n-ABC123"

  const TestAlbum: Record := map["AlbumKey" := Str("ABC123"), "Title" := Str("Test Album"), "ImageCount" := Int(2)]

  /** The key of the test album URL is read from the URL itself. */
  lemma TestAlbumUrlKey(lookup: Reply<LookupBody>)
    ensures ResolveAlbumKey(TestAlbumUrl, lookup) == Success("ABC123")
  {
    TestAlbumUrlHasScheme();
    TestAlbumUrlSearch();
  }

  /** The test album URL already has its scheme. */
  lemma TestAlbumUrlHasScheme()
    ensures WithScheme(TestAlbumUrl) == TestAlbumUrl
  {
    var s := TestAlbumUrl;
    assert s[0] == 'h' && s[1] == 't' && s[2] == 't' && s[3] == 'p';
    assert s[4] == 's' && s[5] == ':' && s[6] == '/' && s[7] == '/';
    HttpsKept(s);
  }

  /** The leftmost `/n-` of the test album URL is the one before its key. */
  lemma TestAlbumUrlSearch()
    ensures AlbumKeyOf(TestAlbumUrl) == Some("ABC123")
  {
    TestAlbumUrlById();
    ByIdWins(TestAlbumUrl, "ABC123");
  }

  lemma TestAlbumUrlById()
    ensures Search(TestAlbumUrl, "/n-") == Some("ABC123")
  {
    var s := TestAlbumUrl;
    assert s[38..44] == "ABC123";
    assert forall i :: 0 <= i < 36 ==> s[i] != 'n' && s[i] != 'N';
    NoMatchIn(s, "/n-", 1, 0, 36);
    assert s[35..38] == "/n-";
    SearchFinds(s, "/n-", 35, 6);
  }

  const TestThumbUrl := "https://photos.smugmug.com/test/Th/test-Th.jpg"
  const TestLargeUrl := "https://photos.smugmug.com/test/L/test-L.jpg"

  /** An image with identifier, title, thumbnail and large size. */
  const TestImage: Record := map[
    "ImageKey" := Str("test123"),
    "Title" := Str("Test Photo"),
    "ThumbnailUrl" := Str(TestThumbUrl),
    "LargeUrl" := Str(TestLargeUrl)]

  /**
   * `_convert_image_to_photo` on the test image: its identifier and title, at least two URLs,
   * and the thumbnail field's URL as thumbnail.
   */
  lemma ConvertImageExample()
    ensures var r := ConvertImage(TestImage);
            && r.Success?
            && r.value.id == "test123"
            && r.value.title == Some("Test Photo")
            && r.value.thumbnailUrl == Some(TestThumbUrl)
            && |r.value.urls| >= 2
  {
    TestImageUrls();
  }

  /** The test image's thumbnail and large fields both qualify, the thumbnail's first. */
  lemma TestImageUrls()
    ensures |PhotoUrlsOf(TestImage)| >= 2 && PhotoUrlsOf(TestImage)[0].url == TestThumbUrl
  {
    HttpsUrl(TestThumbUrl);
    HttpsUrl(TestLargeUrl);
    assert Emits(TestImage, AllSizes[0]) && Emits(TestImage, AllSizes[3]);
    var direct := Direct(TestImage, |AllSizes|);
    DirectComplete(TestImage, |AllSizes|, 0);
    DirectComplete(TestImage, |AllSizes|, 3);
    DirectSound(TestImage, |AllSizes|);
    DirectOrdered(TestImage, |AllSizes|);
    var i :| 0 <= i < |direct| && direct[i].size == Thumb;
    var j :| 0 <= j < |direct| && direct[j].size == Large;
    ThumbOnlyFirst(direct);
    assert i == 0 && i != j;
    assert PhotoUrlsOf(TestImage) == direct;
  }

  /** Two images with string identifiers and titles become two photos carrying them, in order. */
  lemma TestImagesConvert(first: Record, second: Record)
    requires Get(first, "ImageKey") == Some(Str("img1")) && Get(first, "Title") == Some(Str("Photo 1"))
    requires Get(second, "ImageKey") == Some(Str("img2")) && Get(second, "Title") == Some(Str("Photo 2"))
    ensures var r := ConvertAll([first, second]);
            r.Success? && |r.value| == 2 && r.value[0].id == "img1" && r.value[0].title == Some("Photo 1")
  {
    var images := [first, second];
    assert images[0] == first && images[1] == second;
  }

  /**
   * `get_all_photos` on the test album, whose two images carry the identifiers and titles of
   * the test (their URLs play no part here): the album's title, the key from the URL, and two
   * photos (the count of photos, not the album's `ImageCount`), the first with its identifier
   * and title.
   */
  lemma GetAllPhotosExample(lookup: Reply<LookupBody>, first: Record, second: Record)
    requires Get(first, "ImageKey") == Some(Str("img1")) && Get(first, "Title") == Some(Str("Photo 1"))
    requires Get(second, "ImageKey") == Some(Str("img2")) && Get(second, "Title") == Some(Str("Photo 2"))
    ensures var r := FetchAlbum(TestAlbumUrl, lookup, Reply(Ok, TestAlbum), Reply(Ok, Some(Some([first, second]))));
            && r.Success?
            && r.value.albumTitle == "Test Album"
            && r.value.albumId == "ABC123"
            && r.value.totalPhotos == |r.value.photos| == 2
            && r.value.photos[0].id == "img1"
            && r.value.photos[0].title == Some("Photo 1")
  {
    TestAlbumUrlKey(lookup);
    TestImagesConvert(first, second);
    assert AlbumTitle(TestAlbum) == Success("Test Album");
  }

  const PrefixedAlbum: Record := map["AlbumKey" := Str("ABC123"), "Title" := Str("Test Album with n- prefix"), "ImageCount" := Int(1)]

  /** `get_all_photos_by_id` with `n-ABC123`: the album is requested, and answered, as `ABC123`. */
  lemma PrefixedIdExample(single: Record)
    requires Get(single, "ImageKey") == Some(Str("img1")) && Get(single, "Title") == Some(Str("Single Photo"))
    ensures var r := FetchAlbumById("n-ABC123", Reply(Ok, PrefixedAlbum), Reply(Ok, Some(Some([single]))));
            && r.Success?
            && r.value.albumTitle == "Test Album with n- prefix"
            && r.value.albumId == "ABC123"
            && r.value.totalPhotos == |r.value.photos| == 1
  {
    IdPrefixedExample();
    assert [single][0] == single;
    assert AlbumTitle(PrefixedAlbum) == Success("Test Album with n- prefix");
  }

  const EmptyAlbum: Record := map["AlbumKey" := Str("EMPTY123"), "Title" := Str("Empty Album"), "ImageCount" := Int(0)]

  /** An album without images gives no photos and a total of zero. */
  lemma EmptyAlbumExample()
    ensures FetchAlbumById("EMPTY123", Reply(Ok, EmptyAlbum), Reply(Ok, Some(Some([])))) ==
              Success(AlbumResponse("Empty Album", "EMPTY123", 0, []))
  {
    assert !IsSpace("EMPTY123"[0]);
    assert !StartsWith("EMPTY123", "n-") by {
      assert "EMPTY123"[0] == 'E';
    }
  }

  /** An album the API does not know is reported as not found. */
  lemma NotFoundExample(body: Record, imagesReply: Reply<ImagesBody>)
    ensures FetchAlbumById("INVALID123", Reply(NotFoundStatus, body), imagesReply) == Failure(AlbumNotFound)
  {
    assert !IsSpace("INVALID123"[0]);
  }

  /** Empty and blank ids are refused whatever the replies would be. */
  lemma BlankIdExample(albumReply: Reply<Record>, imagesReply: Reply<ImagesBody>)
    ensures FetchAlbumById("", albumReply, imagesReply) == Failure(EmptyAlbumId)
    ensures FetchAlbumById("   ", albumReply, imagesReply) == Failure(EmptyAlbumId)
  {
  }
}
