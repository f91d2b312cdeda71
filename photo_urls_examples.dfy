/**
 * What the model of `_extract_photo_urls` gives for the images used as inputs in
 * tests/test_smugmug_service.py.
 */
module PhotoUrlsExamples {
  import opened Text
  import opened Models
  import opened PhotoUrls

  const ThumbUrl := "https://photos.smugmug.com/img/Th/photo-Th.jpg"
  const SmallUrl := "https://photos.smugmug.com/img/S/photo-S.jpg"
  const LargeUrl := "https://photos.smugmug.com/img/L/photo-L.jpg"
  const OriginalUrl := "https://photos.smugmug.com/img/O/photo-O.jpg"

  /** Thumbnail, small, large and original sizes, all given. */
  const FourFields: Record := map[
    "ThumbnailUrl" := Str(ThumbUrl),
    "SmallUrl" := Str(SmallUrl),
    "LargeUrl" := Str(LargeUrl),
    "OriginalUrl" := Str(OriginalUrl)]

  /** The thumbnail alone. */
  const ThumbField: Record := map["ThumbnailUrl" := Str(ThumbUrl)]

  /** The test URLs all live under `https://photos.smugmug.com/`. */
  lemma HttpsUrl(url: string)
    requires |url| >= 27 && url[0..27] == "https://photos.smugmug.com/"
    ensures StartsWith(url, "http")
  {
    assert url[..4] == url[0..27][..4];
  }

  /** Which fields of the four-field image emit: the four given, each a URL. */
  lemma FourFieldsEmit()
    ensures forall size :: Emits(FourFields, size) <==> size in {Thumb, Small, Large, Original}
    ensures forall size :: Emits(FourFields, size) ==> FourFields[FieldName(size)] == Str(UrlOf(size))
  {
    HttpsUrl(ThumbUrl);
    HttpsUrl(SmallUrl);
    HttpsUrl(LargeUrl);
    HttpsUrl(OriginalUrl);
    forall size | size in {Medium, XLarge, X2Large, X3Large}
      ensures FieldName(size) !in FourFields
    {
      assert |FieldName(size)| in {9, 10};
    }
  }

  /** The URL the four-field image gives for each of its sizes. */
  function UrlOf(size: ImageSize): string {
    match size
    case Thumb => ThumbUrl
    case Small => SmallUrl
    case Large => LargeUrl
    case _ => OriginalUrl
  }

  /** Four emitting fields give exactly their four entries, in table order. */
  lemma FourFieldsExample()
    ensures PhotoUrlsOf(FourFields) ==
              [PhotoURL(Thumb, ThumbUrl), PhotoURL(Small, SmallUrl), PhotoURL(Large, LargeUrl), PhotoURL(Original, OriginalUrl)]
  {
    FourFieldsFirstHalf();
    FourFieldsSecondHalf();
  }

  /** Thumbnail to large: three of the four fields. */
  lemma FourFieldsFirstHalf()
    ensures Direct(FourFields, 4) == [PhotoURL(Thumb, ThumbUrl), PhotoURL(Small, SmallUrl), PhotoURL(Large, LargeUrl)]
  {
    FourFieldsEmit();
    assert Direct(FourFields, 1) == [PhotoURL(Thumb, ThumbUrl)];
    assert Direct(FourFields, 2) == [PhotoURL(Thumb, ThumbUrl), PhotoURL(Small, SmallUrl)];
    assert Direct(FourFields, 3) == Direct(FourFields, 2);
  }

  /** Extra large to original: only the original. */
  lemma FourFieldsSecondHalf()
    ensures Direct(FourFields, 8) == Direct(FourFields, 4) + [PhotoURL(Original, OriginalUrl)]
  {
    FourFieldsEmit();
    assert Direct(FourFields, 5) == Direct(FourFields, 4);
    assert Direct(FourFields, 6) == Direct(FourFields, 4);
    assert Direct(FourFields, 7) == Direct(FourFields, 4);
  }

  /** Only the thumbnail field of the thumbnail-only image emits. */
  lemma ThumbFieldEmits()
    ensures forall size :: Emits(ThumbField, size) <==> size == Thumb
    ensures ThumbField[FieldName(Thumb)] == Str(ThumbUrl)
  {
    HttpsUrl(ThumbUrl);
    forall size | size != Thumb
      ensures FieldName(size) !in ThumbField
    {
      assert |FieldName(size)| != 12;
    }
  }

  /** The test's thumbnail has both markers. */
  lemma ThumbHasMarker()
    ensures HasSizeMarker(ThumbUrl)
  {
    assert ThumbUrl[30..34] == "/Th/";
    assert OccursAt(ThumbUrl, "/Th/", 30);
  }

  /**
   * A lone thumbnail with a marker gives eight entries, the thumbnail first and unchanged, and
   * no other entry of thumbnail size.
   */
  lemma ThumbOnlyExample()
    ensures |PhotoUrlsOf(ThumbField)| == |AllSizes|
    ensures PhotoUrlsOf(ThumbField)[0] == PhotoURL(Thumb, ThumbUrl)
    ensures forall i :: 1 <= i < |PhotoUrlsOf(ThumbField)| ==> PhotoUrlsOf(ThumbField)[i].size != Thumb
  {
    ThumbFieldEmits();
    assert Direct(ThumbField, 1) == [PhotoURL(Thumb, ThumbUrl)];
    assert Direct(ThumbField, 2) == Direct(ThumbField, 1);
    assert Direct(ThumbField, 3) == Direct(ThumbField, 1);
    assert Direct(ThumbField, 4) == Direct(ThumbField, 1);
    assert Direct(ThumbField, 5) == Direct(ThumbField, 1);
    assert Direct(ThumbField, 6) == Direct(ThumbField, 1);
    assert Direct(ThumbField, 7) == Direct(ThumbField, 1);
    assert Direct(ThumbField, 8) == Direct(ThumbField, 1);
    ThumbHasMarker();
    ThumbOnlyResult(ThumbField);
    PhotoUrlsOrdered(ThumbField);
    ThumbOnlyFirst(PhotoUrlsOf(ThumbField));
  }
}
