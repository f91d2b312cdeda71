/**
 * The URLs of one image (smugmug_photo_selector/smugmug_service.py, `_extract_photo_urls`):
 * the URL fields the API sends, read in a fixed order, and, when only the thumbnail is there,
 * the other sizes guessed from the thumbnail's URL.
 */
module PhotoUrls {
  import opened Wrappers
  import opened Text
  import opened Models

  /** The sizes in the order their fields are read, which is also the order of the result. */
  const AllSizes: seq<ImageSize> := [Thumb, Small, Medium, Large, XLarge, X2Large, X3Large, Original]

  /** The position of a size in `AllSizes`. */
  function Rank(size: ImageSize): (r: nat)
    ensures r < |AllSizes| && AllSizes[r] == size
  {
    match size
    case Thumb => 0
    case Small => 1
    case Medium => 2
    case Large => 3
    case XLarge => 4
    case X2Large => 5
    case X3Large => 6
    case Original => 7
  }

  /** The image field that holds the URL of each size. */
  function FieldName(size: ImageSize): string {
    match size
    case Thumb => "ThumbnailUrl"
    case Small => "SmallUrl"
    case Medium => "MediumUrl"
    case Large => "LargeUrl"
    case XLarge => "XLargeUrl"
    case X2Large => "X2LargeUrl"
    case X3Large => "X3LargeUrl"
    case Original => "OriginalUrl"
  }

  /** The size code SmugMug writes in the URL path and file name of each size but the thumbnail. */
  function Suffix(size: ImageSize): (code: string)
    requires size != Thumb
    ensures code != [] && 'T' !in code
  {
    match size
    case Small => "S"
    case Medium => "M"
    case Large => "L"
    case XLarge => "XL"
    case X2Large => "X2"
    case X3Large => "X3"
    case Original => "O"
  }

  /** The image's field for `size` is present, truthy, a string and starts with `http`. */
  predicate Emits(image: Record, size: ImageSize) {
    FieldName(size) in image
    && Truthy(image[FieldName(size)])
    && image[FieldName(size)].Str?
    && StartsWith(image[FieldName(size)].text, "http")
  }

  /** Ranks strictly increase along `urls`: each size at most once, in table order. */
  predicate Ordered(urls: seq<PhotoURL>) {
    forall i, j :: 0 <= i < j < |urls| ==> Rank(urls[i].size) < Rank(urls[j].size)
  }

  /** The entry the first loop appends for `size`, if its field emits. */
  function DirectEntry(image: Record, size: ImageSize): seq<PhotoURL> {
    if Emits(image, size) then [PhotoURL(size, image[FieldName(size)].text)] else []
  }

  /** The entries the first loop has appended after reading the first `n` fields. */
  function Direct(image: Record, n: nat): seq<PhotoURL>
    requires n <= |AllSizes|
  {
    if n == 0 then [] else Direct(image, n - 1) + DirectEntry(image, AllSizes[n - 1])
  }

  /** Each position of `AllSizes` holds the size of that rank. */
  lemma RankOf(k: nat)
    requires k < |AllSizes|
    ensures Rank(AllSizes[k]) == k
  {
  }

  /** Appending at most one entry of rank `k` after entries of lower rank keeps the order. */
  lemma AppendOrdered(before: seq<PhotoURL>, entry: seq<PhotoURL>, k: nat)
    requires Ordered(before) && forall i :: 0 <= i < |before| ==> Rank(before[i].size) < k
    requires |entry| <= 1 && forall i :: 0 <= i < |entry| ==> Rank(entry[i].size) == k
    ensures Ordered(before + entry)
    ensures forall i :: 0 <= i < |before + entry| ==> Rank((before + entry)[i].size) <= k
  {
  }

  /** After `n` fields the direct list is in table order and holds sizes of rank below `n`. */
  lemma {:induction false} DirectOrdered(image: Record, n: nat)
    requires n <= |AllSizes|
    ensures Ordered(Direct(image, n))
    ensures forall i :: 0 <= i < |Direct(image, n)| ==> Rank(Direct(image, n)[i].size) < n
  {
    if n > 0 {
      DirectOrdered(image, n - 1);
      RankOf(n - 1);
      AppendOrdered(Direct(image, n - 1), DirectEntry(image, AllSizes[n - 1]), n - 1);
    }
  }

  /** Every direct entry comes from an emitting field and carries that field's URL unchanged. */
  lemma {:induction false} DirectSound(image: Record, n: nat)
    requires n <= |AllSizes|
    ensures forall i :: 0 <= i < |Direct(image, n)| ==>
              Emits(image, Direct(image, n)[i].size) && Direct(image, n)[i].url == image[FieldName(Direct(image, n)[i].size)].text
  {
    if n > 0 {
      DirectSound(image, n - 1);
    }
  }

  /** Every emitting field among the first `n` has its entry. */
  lemma {:induction false} DirectComplete(image: Record, n: nat, k: nat)
    requires k < n <= |AllSizes| && Emits(image, AllSizes[k])
    ensures exists i :: 0 <= i < |Direct(image, n)| && Direct(image, n)[i].size == AllSizes[k]
  {
    var before := Direct(image, n - 1);
    if k == n - 1 {
      assert Direct(image, n)[|before|].size == AllSizes[k];
    } else {
      DirectComplete(image, n - 1, k);
      var i :| 0 <= i < |before| && before[i].size == AllSizes[k];
      assert Direct(image, n)[i] == before[i];
    }
  }

  /** The URL guessed for `size`: every `/Th/` and then every `-Th.` given that size's code. */
  function Derive(thumb: string, size: ImageSize): string
    requires size != Thumb
  {
    var code := Suffix(size);
    Replace(Replace(thumb, "/Th/", "/" + code + "/"), "-Th.", "-" + code + ".")
  }

  /** The entry the second loop appends for `size`, if its guess differs from the thumbnail. */
  function DerivedEntry(thumb: string, size: ImageSize): seq<PhotoURL>
    requires size != Thumb
  {
    if Derive(thumb, size) != thumb then [PhotoURL(size, Derive(thumb, size))] else []
  }

  /** The entries the second loop has appended after trying the sizes of rank 1 to `n - 1`. */
  function Derived(thumb: string, n: nat): seq<PhotoURL>
    requires 1 <= n <= |AllSizes|
  {
    if n == 1 then [] else Derived(thumb, n - 1) + DerivedEntry(thumb, AllSizes[n - 1])
  }

  /** The guessed list is in table order and holds sizes of rank 1 to `n - 1`. */
  lemma {:induction false} DerivedOrdered(thumb: string, n: nat)
    requires 1 <= n <= |AllSizes|
    ensures Ordered(Derived(thumb, n))
    ensures forall i :: 0 <= i < |Derived(thumb, n)| ==> 1 <= Rank(Derived(thumb, n)[i].size) < n
  {
    if n > 1 {
      DerivedOrdered(thumb, n - 1);
      RankOf(n - 1);
      AppendOrdered(Derived(thumb, n - 1), DerivedEntry(thumb, AllSizes[n - 1]), n - 1);
    }
  }

  /** Every guessed entry holds the guess for its size, and that guess differs from the thumbnail. */
  lemma {:induction false} DerivedSound(thumb: string, n: nat)
    requires 1 <= n <= |AllSizes|
    ensures forall i :: 0 <= i < |Derived(thumb, n)| ==>
              Derived(thumb, n)[i].size != Thumb
              && Derived(thumb, n)[i].url == Derive(thumb, Derived(thumb, n)[i].size)
              && Derived(thumb, n)[i].url != thumb
  {
    if n > 1 {
      DerivedSound(thumb, n - 1);
    }
  }

  /** Every size whose guess differs from the thumbnail has its entry. */
  lemma {:induction false} DerivedComplete(thumb: string, n: nat, k: nat)
    requires 1 <= k < n <= |AllSizes| && Derive(thumb, AllSizes[k]) != thumb
    ensures exists i :: 0 <= i < |Derived(thumb, n)| && Derived(thumb, n)[i].size == AllSizes[k]
  {
    var before := Derived(thumb, n - 1);
    var entry := DerivedEntry(thumb, AllSizes[n - 1]);
    assert Derived(thumb, n) == before + entry;
    if k == n - 1 {
      assert entry == [PhotoURL(AllSizes[k], Derive(thumb, AllSizes[k]))];
      assert Derived(thumb, n)[|before|].size == AllSizes[k];
    } else {
      DerivedComplete(thumb, n - 1, k);
      var i :| 0 <= i < |before| && before[i].size == AllSizes[k];
      assert Derived(thumb, n)[i] == before[i];
    }
  }

  /** The direct list is the thumbnail alone. */
  predicate ThumbOnly(direct: seq<PhotoURL>) {
    |direct| == 1 && direct[0].size == Thumb
  }

  /** What `_extract_photo_urls` returns for one image. */
  function PhotoUrlsOf(image: Record): seq<PhotoURL> {
    var direct := Direct(image, |AllSizes|);
    if ThumbOnly(direct) then direct + Derived(direct[0].url, |AllSizes|) else direct
  }

  /** The thumbnail holds a marker the guesses rewrite: a `/Th/` directory or a `-Th.` file name. */
  predicate HasSizeMarker(thumb: string) {
    Contains(thumb, "/Th/") || Contains(thumb, "-Th.")
  }

  /**
   * A guess differs from the thumbnail exactly when the thumbnail has a marker, whatever the
   * size: no size code holds a `T`, so each rewrite of a marker loses one.
   */
  lemma DeriveChanges(thumb: string, size: ImageSize)
    requires size != Thumb
    ensures Derive(thumb, size) != thumb <==> HasSizeMarker(thumb)
  {
    if HasSizeMarker(thumb) {
      MarkerReplaced(thumb, size);
    } else {
      UnmarkedKept(thumb, size);
    }
  }

  /** Each marker holds a `T` that no replacement has, so a marker present means a `T` lost. */
  lemma MarkerReplaced(thumb: string, size: ImageSize)
    requires size != Thumb && HasSizeMarker(thumb)
    ensures multiset(Derive(thumb, size))['T'] < multiset(thumb)['T']
  {
    var code := Suffix(size);
    MarkersLoseT(thumb, "/" + code + "/", "-" + code + ".");
  }

  lemma MarkersLoseT(thumb: string, dirRep: string, fileRep: string)
    requires 'T' !in dirRep && 'T' !in fileRep && HasSizeMarker(thumb)
    ensures multiset(Replace(Replace(thumb, "/Th/", dirRep), "-Th.", fileRep))['T'] < multiset(thumb)['T']
  {
    assert "/Th/"[1] == 'T' && "-Th."[1] == 'T';
    var once := Replace(thumb, "/Th/", dirRep);
    ReplaceDropsChar(thumb, "/Th/", dirRep, 'T');
    ReplaceDropsChar(once, "-Th.", fileRep, 'T');
    if !Contains(thumb, "/Th/") {
      ReplaceAbsent(thumb, "/Th/", dirRep);
    }
  }

  /** Without a marker neither replacement finds anything to replace. */
  lemma UnmarkedKept(thumb: string, size: ImageSize)
    requires size != Thumb && !HasSizeMarker(thumb)
    ensures Derive(thumb, size) == thumb
  {
    var code := Suffix(size);
    ReplaceAbsent(thumb, "/Th/", "/" + code + "/");
    ReplaceAbsent(thumb, "-Th.", "-" + code + ".");
  }

  /** The guesses keep the thumbnail's `http` start: neither marker can begin inside it. */
  lemma DeriveKeepsScheme(thumb: string, size: ImageSize)
    requires size != Thumb && StartsWith(thumb, "http")
    ensures StartsWith(Derive(thumb, size), "http")
  {
    var code := Suffix(size);
    var rest := thumb[4..];
    assert thumb == "http" + rest;
    SchemeSkipped(rest, "/Th/", "/" + code + "/");
    var once := Replace(rest, "/Th/", "/" + code + "/");
    SchemeSkipped(once, "-Th.", "-" + code + ".");
    var twice := Replace(once, "-Th.", "-" + code + ".");
    assert ("http" + twice)[..4] == "http";
  }

  /** No occurrence of a pattern starting with `/` or `-` begins inside `http`. */
  lemma SchemeSkipped(rest: string, pat: string, rep: string)
    requires pat != [] && (pat[0] == '/' || pat[0] == '-')
    ensures Replace("http" + rest, pat, rep) == "http" + Replace(rest, pat, rep)
  {
    forall i | 0 <= i < 4
      ensures !StartsWith(("http" + rest)[i..], pat)
    {
      assert ("http" + rest)[i..][0] == "http"[i];
    }
    ReplaceSkipAll("http", rest, pat, rep);
  }

  /** When every guess differs from the thumbnail, each size of rank 1 to `n - 1` has its entry, in order. */
  lemma {:induction false} DerivedAll(thumb: string, n: nat)
    requires 1 <= n <= |AllSizes| && HasSizeMarker(thumb)
    ensures |Derived(thumb, n)| == n - 1
    ensures forall i :: 0 <= i < n - 1 ==> Derived(thumb, n)[i].size == AllSizes[i + 1]
  {
    if n > 1 {
      DerivedAll(thumb, n - 1);
      var size := AllSizes[n - 1];
      DeriveChanges(thumb, size);
      assert Derived(thumb, n) == Derived(thumb, n - 1) + [PhotoURL(size, Derive(thumb, size))];
    }
  }

  /** When no guess differs from the thumbnail, nothing is appended. */
  lemma {:induction false} DerivedNone(thumb: string, n: nat)
    requires 1 <= n <= |AllSizes| && !HasSizeMarker(thumb)
    ensures Derived(thumb, n) == []
  {
    if n > 1 {
      DerivedNone(thumb, n - 1);
      DeriveChanges(thumb, AllSizes[n - 1]);
    }
  }

  /** The result is in table order: each size at most once, a present thumbnail first. */
  lemma PhotoUrlsOrdered(image: Record)
    ensures Ordered(PhotoUrlsOf(image))
  {
    var direct := Direct(image, |AllSizes|);
    DirectOrdered(image, |AllSizes|);
    if ThumbOnly(direct) {
      var thumb := direct[0].url;
      DerivedOrdered(thumb, |AllSizes|);
      AppendAllOrdered(direct, Derived(thumb, |AllSizes|));
    }
  }

  /** Every URL of the result starts with `http`, guesses included. */
  lemma PhotoUrlsHttp(image: Record)
    ensures forall i :: 0 <= i < |PhotoUrlsOf(image)| ==> StartsWith(PhotoUrlsOf(image)[i].url, "http")
  {
    var direct := Direct(image, |AllSizes|);
    DirectSound(image, |AllSizes|);
    if ThumbOnly(direct) {
      var thumb := direct[0].url;
      var derived := Derived(thumb, |AllSizes|);
      DerivedSound(thumb, |AllSizes|);
      forall i | 0 <= i < |derived|
        ensures StartsWith(derived[i].url, "http")
      {
        DeriveKeepsScheme(thumb, derived[i].size);
      }
      assert PhotoUrlsOf(image) == direct + derived;
    }
  }

  /** In table order a thumbnail entry can only be the first. */
  lemma ThumbOnlyFirst(urls: seq<PhotoURL>)
    requires Ordered(urls)
    ensures forall i :: 0 < i < |urls| ==> urls[i].size != Thumb
  {
    forall i | 0 < i < |urls|
      ensures urls[i].size != Thumb
    {
      assert Rank(urls[0].size) < Rank(urls[i].size);
    }
  }

  /** The result is empty exactly when no field emits. */
  lemma PhotoUrlsEmpty(image: Record)
    ensures PhotoUrlsOf(image) == [] <==> forall k :: 0 <= k < |AllSizes| ==> !Emits(image, AllSizes[k])
  {
    var direct := Direct(image, |AllSizes|);
    DirectSound(image, |AllSizes|);
    if direct == [] {
      forall k | 0 <= k < |AllSizes|
        ensures !Emits(image, AllSizes[k])
      {
        if Emits(image, AllSizes[k]) {
          DirectComplete(image, |AllSizes|, k);
        }
      }
    } else {
      assert Emits(image, direct[0].size);
      RankOf(Rank(direct[0].size));
    }
  }

  /** A lone thumbnail followed by entries of rank 1 and up is in order. */
  lemma AppendAllOrdered(direct: seq<PhotoURL>, derived: seq<PhotoURL>)
    requires ThumbOnly(direct) && Ordered(derived)
    requires forall i :: 0 <= i < |derived| ==> 1 <= Rank(derived[i].size)
    ensures Ordered(direct + derived)
  {
  }

  /**
   * Direct extraction, when it is not a lone thumbnail, is the result: a size is present exactly
   * when its field emits, and its URL is that field's value unchanged.
   */
  lemma DirectResult(image: Record)
    requires !ThumbOnly(Direct(image, |AllSizes|))
    ensures forall k :: 0 <= k < |AllSizes| ==>
              (Emits(image, AllSizes[k]) <==> exists i :: 0 <= i < |PhotoUrlsOf(image)| && PhotoUrlsOf(image)[i].size == AllSizes[k])
    ensures forall i :: 0 <= i < |PhotoUrlsOf(image)| ==>
              Emits(image, PhotoUrlsOf(image)[i].size)
              && PhotoUrlsOf(image)[i].url == image[FieldName(PhotoUrlsOf(image)[i].size)].text
  {
    DirectSound(image, |AllSizes|);
    assert PhotoUrlsOf(image) == Direct(image, |AllSizes|);
    forall k | 0 <= k < |AllSizes| && Emits(image, AllSizes[k])
      ensures exists i :: 0 <= i < |PhotoUrlsOf(image)| && PhotoUrlsOf(image)[i].size == AllSizes[k]
    {
      DirectComplete(image, |AllSizes|, k);
    }
  }

  /**
   * With only the thumbnail present, it stays first and unchanged, followed by a guess for every
   * other size in table order when it has a marker, and by nothing otherwise: all or nothing.
   */
  lemma ThumbOnlyResult(image: Record)
    requires ThumbOnly(Direct(image, |AllSizes|))
    ensures var thumb := Direct(image, |AllSizes|)[0];
            var r := PhotoUrlsOf(image);
            && r[0] == thumb
            && Get(image, FieldName(Thumb)) == Some(Str(thumb.url))
            && |r| == (if HasSizeMarker(thumb.url) then |AllSizes| else 1)
            && forall i :: 1 <= i < |r| ==> r[i].size == AllSizes[i] && r[i].url == Derive(thumb.url, AllSizes[i])
  {
    var direct := Direct(image, |AllSizes|);
    var thumb := direct[0];
    assert direct == [thumb];
    ThumbFieldKept(image);
    GuessesAfterThumb(thumb);
    assert PhotoUrlsOf(image) == [thumb] + Derived(thumb.url, |AllSizes|);
  }

  /** The lone direct entry is the thumbnail field's value. */
  lemma ThumbFieldKept(image: Record)
    requires ThumbOnly(Direct(image, |AllSizes|))
    ensures Get(image, FieldName(Thumb)) == Some(Str(Direct(image, |AllSizes|)[0].url))
  {
    DirectSound(image, |AllSizes|);
  }

  /** The thumbnail followed by its guesses: entry `i` is the guess for the size of rank `i`. */
  lemma GuessesAfterThumb(thumb: PhotoURL)
    ensures var r := [thumb] + Derived(thumb.url, |AllSizes|);
            && |r| == (if HasSizeMarker(thumb.url) then |AllSizes| else 1)
            && forall i :: 1 <= i < |r| ==> r[i].size == AllSizes[i] && r[i].url == Derive(thumb.url, AllSizes[i])
  {
    var guesses := Derived(thumb.url, |AllSizes|);
    GuessesShape(thumb.url);
    var r := [thumb] + guesses;
    forall i | 1 <= i < |r|
      ensures r[i].size == AllSizes[i] && r[i].url == Derive(thumb.url, AllSizes[i])
    {
      assert r[i] == guesses[i - 1];
    }
  }

  /** All seven guesses, one per size after the thumbnail in table order, or none. */
  lemma GuessesShape(thumb: string)
    ensures var g := Derived(thumb, |AllSizes|);
            && |g| == (if HasSizeMarker(thumb) then |AllSizes| - 1 else 0)
            && forall i :: 0 <= i < |g| ==> g[i].size == AllSizes[i + 1] && g[i].url == Derive(thumb, AllSizes[i + 1])
  {
    DerivedSound(thumb, |AllSizes|);
    if HasSizeMarker(thumb) {
      DerivedAll(thumb, |AllSizes|);
    } else {
      DerivedNone(thumb, |AllSizes|);
    }
  }

  /** The first loop of `_extract_photo_urls`: one entry per emitting field, in table order. */
  method ReadFields(image: Record) returns (urls: seq<PhotoURL>)
    ensures urls == Direct(image, |AllSizes|)
  {
    urls := [];
    for n := 0 to |AllSizes|
      invariant urls == Direct(image, n)
    {
      var size := AllSizes[n];
      var field := FieldName(size);
      if field in image && Truthy(image[field]) {
        var value := image[field];
        if value.Str? && StartsWith(value.text, "http") {
          urls := urls + [PhotoURL(size, value.text)];
        }
      }
    }
  }

  /** The second loop of `_extract_photo_urls`: the guesses from the thumbnail that differ from it. */
  method GuessSizes(thumb: string) returns (guesses: seq<PhotoURL>)
    ensures guesses == Derived(thumb, |AllSizes|)
  {
    guesses := [];
    for n := 1 to |AllSizes|
      invariant guesses == Derived(thumb, n)
    {
      var size := AllSizes[n];
      var code := Suffix(size);
      var newUrl := Replace(thumb, "/Th/", "/" + code + "/");
      newUrl := Replace(newUrl, "-Th.", "-" + code + ".");
      if newUrl != thumb {
        guesses := guesses + [PhotoURL(size, newUrl)];
      }
    }
  }

  /** `_extract_photo_urls`: the field table read in order, then the guesses from a lone thumbnail. */
  method ExtractPhotoUrls(image: Record) returns (urls: seq<PhotoURL>)
    ensures urls == PhotoUrlsOf(image)
  {
    urls := ReadFields(image);
    if |urls| == 1 && urls[0].size == Thumb {
      var guesses := GuessSizes(urls[0].url);
      urls := urls + guesses;
    }
  }
}
