/**
 * What the model of `_extract_album_key` gives for the album references used as inputs in
 * tests/test_smugmug_service.py. Each search is settled in a lemma of its own, and each example
 * combines them in the order the patterns are tried.
 */
module AlbumKeyExamples {
  import opened Wrappers
  import opened Text
  import opened Http
  import opened AlbumKeys

  const GalleryUrl := "https://user.smugmug.com/gallery/n-ABC123/"
  const ApiUrl := "https://api.smugmug.com/api/v2/album/XYZ789"
  const QueryUrl := "https://example.com?albumkey=DEF456"
  const MixedCaseUrl := "https://x.smugmug.com/N-aBc9"
  const NotAUrl := "invalid-url"
  const PlainGalleryUrl := "https://user.smugmug.com/just-a-gallery"
  const LookalikeUrl := "https://example.com/no-album-key"

  /** No `-` at all: the `/n-` pattern cannot match. */
  lemma NoDashNoId(s: string)
    requires '-' !in s
    ensures Search(s, "/n-") == None
  {
    assert forall i :: 0 <= i < |s| ==> s[i] != '-';
    NoMatchIn(s, "/n-", 2, 0, |s|);
  }

  /** No `=` at all: the `albumkey=` pattern cannot match. */
  lemma NoEqualsNoQuery(s: string)
    requires '=' !in s
    ensures Search(s, "albumkey=") == None
  {
    assert forall i :: 0 <= i < |s| ==> s[i] != '=';
    NoMatchIn(s, "albumkey=", 8, 0, |s|);
  }

  /** A gallery URL carries its key after `/n-`. */
  lemma GalleryUrlKey()
    ensures AlbumKeyOf(GalleryUrl) == Some("ABC123")
  {
    GalleryUrlSearch();
    ByIdWins(GalleryUrl, "ABC123");
  }

  lemma GalleryUrlSearch()
    ensures Search(GalleryUrl, "/n-") == Some("ABC123")
  {
    var s := GalleryUrl;
    assert s[35..41] == "ABC123";
    assert forall i :: 0 <= i < 34 ==> s[i] != '-';
    NoMatchIn(s, "/n-", 2, 0, 34);
    assert s[32..35] == "/n-";
    SearchFinds(s, "/n-", 32, 6);
  }

  lemma ApiUrlNoPathHead()
    ensures forall j :: 0 <= j < 30 ==> !MatchAt(ApiUrl, "/album/", j)
  {
    assert forall i :: 0 <= i < 32 ==> ApiUrl[i] != 'l';
    assert forall i :: 0 <= i < 32 ==> ApiUrl[i] != 'L';
    NoMatchIn(ApiUrl, "/album/", 2, 0, 32);
  }

  lemma ApiUrlByPath()
    ensures Search(ApiUrl, "/album/") == Some("XYZ789")
  {
    var s := ApiUrl;
    assert s[37..43] == "XYZ789";
    ApiUrlNoPathHead();
    assert s[30..37] == "/album/";
    SearchFinds(s, "/album/", 30, 6);
  }

  /** An API URL carries its key after `/album/`, tried only once `/n-` is found nowhere. */
  lemma ApiUrlKey()
    ensures AlbumKeyOf(ApiUrl) == Some("XYZ789")
  {
    NoDashNoId(ApiUrl);
    ApiUrlByPath();
    ByPathWins(ApiUrl, "XYZ789");
  }

  lemma QueryUrlNoPathHead()
    ensures forall j :: 0 <= j < 6 ==> !MatchAt(QueryUrl, "/album/", j)
  {
    assert forall i :: 0 <= i < 6 ==> QueryUrl[i] != '/';
    NoMatchIn(QueryUrl, "/album/", 0, 0, 6);
  }

  lemma QueryUrlNoPathTail()
    ensures forall j :: 2 <= j ==> !MatchAt(QueryUrl, "/album/", j)
  {
    assert forall i :: 8 <= i < 35 ==> QueryUrl[i] != '/';
    NoMatchIn(QueryUrl, "/album/", 6, 8, 35);
  }

  lemma QueryUrlByQuery()
    ensures Search(QueryUrl, "albumkey=") == Some("DEF456")
  {
    var s := QueryUrl;
    assert s[29..35] == "DEF456";
    assert forall i :: 0 <= i < 28 ==> s[i] != '=';
    NoMatchIn(s, "albumkey=", 8, 0, 28);
    assert s[20..29] == "albumkey=";
    SearchFinds(s, "albumkey=", 20, 6);
  }

  /** A query parameter `albumkey=` is the last resort. */
  lemma QueryKey()
    ensures AlbumKeyOf(QueryUrl) == Some("DEF456")
  {
    NoDashNoId(QueryUrl);
    QueryUrlNoPathHead();
    QueryUrlNoPathTail();
    QueryUrlByQuery();
    ByQueryWins(QueryUrl);
  }

  /** The prefix is matched without regard to case; the key keeps its own case. */
  lemma MixedCaseKey()
    ensures AlbumKeyOf(MixedCaseUrl) == Some("aBc9")
  {
    MixedCaseSearch();
    ByIdWins(MixedCaseUrl, "aBc9");
  }

  lemma MixedCaseSearch()
    ensures Search(MixedCaseUrl, "/n-") == Some("aBc9")
  {
    var s := MixedCaseUrl;
    assert s[24..28] == "aBc9";
    assert forall i :: 0 <= i < 23 ==> s[i] != '-';
    NoMatchIn(s, "/n-", 2, 0, 23);
    assert s[21..24] == "/N-";
    SearchFinds(s, "/n-", 21, 4);
  }

  /** A string without `/` and `=` holds no album key. */
  lemma NotAUrlNoKey()
    ensures AlbumKeyOf(NotAUrl) == None
  {
    var s := NotAUrl;
    assert forall i :: 0 <= i < 11 ==> s[i] != '/';
    NoMatchIn(s, "/n-", 0, 0, 11);
    NoMatchIn(s, "/album/", 0, 0, 11);
    NoEqualsNoQuery(s);
  }

  /** Past position 25 the plain gallery URL holds no `/`. */
  lemma PlainGallerySlashFree(p: string)
    requires p in Patterns && p[0] == '/'
    ensures forall j :: 25 <= j ==> !MatchAt(PlainGalleryUrl, p, j)
  {
    assert forall i :: 25 <= i < 39 ==> PlainGalleryUrl[i] != '/';
    NoMatchIn(PlainGalleryUrl, p, 0, 25, 39);
  }

  lemma PlainGalleryNoIdHead()
    ensures forall j :: 0 <= j < 27 ==> !MatchAt(PlainGalleryUrl, "/n-", j)
  {
    assert forall i :: 0 <= i < 29 ==> PlainGalleryUrl[i] != '-';
    NoMatchIn(PlainGalleryUrl, "/n-", 2, 0, 29);
  }

  lemma PlainGalleryNoPathHead()
    ensures forall j :: 0 <= j < 32 ==> !MatchAt(PlainGalleryUrl, "/album/", j)
  {
    assert forall i :: 0 <= i < 34 ==> PlainGalleryUrl[i] != 'l';
    assert forall i :: 0 <= i < 34 ==> PlainGalleryUrl[i] != 'L';
    NoMatchIn(PlainGalleryUrl, "/album/", 2, 0, 34);
  }

  /** A gallery URL without `n-` holds no album key. */
  lemma PlainGalleryNoKey()
    ensures AlbumKeyOf(PlainGalleryUrl) == None
  {
    PlainGallerySlashFree("/n-");
    PlainGallerySlashFree("/album/");
    PlainGalleryNoIdHead();
    PlainGalleryNoPathHead();
    NoEqualsNoQuery(PlainGalleryUrl);
  }

  /** Past position 20 the look-alike URL holds no `/`. */
  lemma LookalikeSlashFree(p: string)
    requires p in Patterns && p[0] == '/'
    ensures forall j :: 20 <= j ==> !MatchAt(LookalikeUrl, p, j)
  {
    assert forall i :: 20 <= i < 32 ==> LookalikeUrl[i] != '/';
    NoMatchIn(LookalikeUrl, p, 0, 20, 32);
  }

  lemma LookalikeNoIdHead()
    ensures forall j :: 0 <= j < 20 ==> !MatchAt(LookalikeUrl, "/n-", j)
  {
    assert forall i :: 0 <= i < 22 ==> LookalikeUrl[i] != '-';
    NoMatchIn(LookalikeUrl, "/n-", 2, 0, 22);
  }

  lemma LookalikeNoPathHead()
    ensures forall j :: 0 <= j < 22 ==> !MatchAt(LookalikeUrl, "/album/", j)
  {
    assert forall i :: 0 <= i < 26 ==> LookalikeUrl[i] != 'u';
    assert forall i :: 0 <= i < 26 ==> LookalikeUrl[i] != 'U';
    NoMatchIn(LookalikeUrl, "/album/", 4, 0, 26);
  }

  /** `album` not preceded by `/`, and `n` not followed by `-`, are no keys. */
  lemma LookalikeNoKey()
    ensures AlbumKeyOf(LookalikeUrl) == None
  {
    LookalikeSlashFree("/n-");
    LookalikeSlashFree("/album/");
    LookalikeNoIdHead();
    LookalikeNoPathHead();
    NoEqualsNoQuery(LookalikeUrl);
  }

  /** The by-id test: `n-ABC123` is requested as `ABC123`. */
  lemma IdPrefixedExample()
    ensures AlbumIdKey("n-ABC123") == Success("ABC123")
  {
    assert !IsSpace("n-ABC123"[0]);
    assert AllAlnum("ABC123");
    NormalizeKey("ABC123");
    assert "n-" + "ABC123" == "n-ABC123";
  }

  /** Empty and blank ids are refused. */
  lemma IdBlankExamples()
    ensures AlbumIdKey("") == Failure(EmptyAlbumId)
    ensures AlbumIdKey(" \t ") == Failure(EmptyAlbumId)
  {
  }

  /** Every `n-` goes: `n-ABCn-DEF` is requested as `ABCDEF`. */
  lemma IdEveryPrefixRemoved()
    ensures NormalizeId("n-ABCn-DEF") == "ABCDEF"
  {
    assert AllAlnum("ABC") && AllAlnum("DEF");
    NormalizeRemovesInner("ABC", "DEF");
    assert "n-" + "ABC" + "n-" + "DEF" == "n-ABCn-DEF";
  }

  /**
   * Removing every `n-` in one left-to-right pass can leave a new `n-` behind, so normalising
   * twice is not the same as normalising once.
   */
  lemma IdNormalizeNotIdempotent()
    ensures NormalizeId("n-nn--") == "n-"
    ensures NormalizeId(NormalizeId("n-nn--")) == []
  {
    assert Replace("-", "n-", "") == "-";
    assert Replace("n--", "n-", "") == "-";
    assert Replace("nn--", "n-", "") == "n-";
    assert Replace("", "n-", "") == [];
    assert Replace("n-", "n-", "") == [];
  }
}
