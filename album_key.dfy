/**
 * Turning what the user gives into an album key (smugmug_photo_selector/smugmug_service.py,
 * `_extract_album_key`, `_get_album_key` and the identifier check of `get_all_photos_by_id`).
 */
module AlbumKeys {
  import opened Wrappers
  import opened Text
  import opened Models
  import opened Http

  /**
   * The literal prefixes of the three album-key patterns, in the order they are tried. Each is
   * followed in its pattern by the capture `([A-Za-z0-9]+)`; they are written in lower case
   * because the search ignores case.
   */
  const Patterns: seq<string> := ["/n-", "/album/", "albumkey="]

  /**
   * Pattern `p` (lower case) matches `s` at position `i`: the characters from `i` spell `p`
   * once ASCII letters are lower-cased, and at least one letter or digit follows them.
   */
  predicate MatchAt(s: string, p: string, i: int) {
    0 <= i && i + |p| < |s|
    && (forall k :: 0 <= k < |p| ==> Lower(s[i + k]) == p[k])
    && IsAlnum(s[i + |p|])
  }

  /** `re.search` finds pattern `p` somewhere in `s`. */
  predicate HasMatch(s: string, p: string) {
    exists i | 0 <= i < |s| :: MatchAt(s, p, i)
  }

  /**
   * `k` is what the capture group holds when the leftmost match of `p` in `s` is at `i`:
   * the longest non-empty run of letters and digits right after the prefix.
   */
  ghost predicate CapturedAt(s: string, p: string, i: int, k: string) {
    MatchAt(s, p, i)
    && (forall j :: 0 <= j < i ==> !MatchAt(s, p, j))
    && i + |p| + |k| <= |s| && s[i + |p|..i + |p| + |k|] == k
    && k != [] && AllAlnum(k)
    && (i + |p| + |k| == |s| || !IsAlnum(s[i + |p| + |k|]))
  }

  /** The end of the run of letters and digits that starts at `j` (the greedy `+`). */
  function RunEnd(s: string, j: nat): (e: nat)
    requires j <= |s|
    ensures j <= e <= |s|
    ensures forall k :: j <= k < e ==> IsAlnum(s[k])
    ensures e == |s| || !IsAlnum(s[e])
    decreases |s| - j
  {
    if j < |s| && IsAlnum(s[j]) then RunEnd(s, j + 1) else j
  }

  /** The leftmost position at or after `from` where `p` matches. */
  function FirstMatch(s: string, p: string, from: nat): (r: Option<nat>)
    ensures r.Some? ==> from <= r.value && MatchAt(s, p, r.value)
    ensures forall i :: from <= i && (r.None? || i < r.value) ==> !MatchAt(s, p, i)
    decreases |s| - from
  {
    if from + |p| >= |s| then None
    else if MatchAt(s, p, from) then Some(from)
    else FirstMatch(s, p, from + 1)
  }

  /** One `re.search(p + '([A-Za-z0-9]+)', s, re.IGNORECASE)` and its `group(1)`. */
  function Search(s: string, p: string): (r: Option<string>)
    ensures r.None? <==> !HasMatch(s, p)
    ensures r.Some? ==> exists i :: CapturedAt(s, p, i, r.value)
    ensures r.Some? ==> r.value != [] && AllAlnum(r.value) && Contains(s, r.value)
  {
    match FirstMatch(s, p, 0)
    case None => None
    case Some(i) =>
      var e := RunEnd(s, i + |p|);
      assert CapturedAt(s, p, i, s[i + |p|..e]);
      assert OccursAt(s, s[i + |p|..e], i + |p|);
      Some(s[i + |p|..e])
  }

  /**
   * The album key written in `url`, if any: `/n-`, then `/album/`, then `albumkey=`; the first
   * of them that matches anywhere wins, and its leftmost match gives the longest run of letters
   * and digits after it, case preserved. Such a key is a non-empty alphanumeric part of `url`.
   */
  function AlbumKeyOf(url: string): (r: Option<string>)
    ensures r.None? <==> !HasMatch(url, "/n-") && !HasMatch(url, "/album/") && !HasMatch(url, "albumkey=")
    ensures HasMatch(url, "/n-") ==> r.Some? && exists i :: CapturedAt(url, "/n-", i, r.value)
    ensures !HasMatch(url, "/n-") && HasMatch(url, "/album/") ==>
              r.Some? && exists i :: CapturedAt(url, "/album/", i, r.value)
    ensures !HasMatch(url, "/n-") && !HasMatch(url, "/album/") && HasMatch(url, "albumkey=") ==>
              r.Some? && exists i :: CapturedAt(url, "albumkey=", i, r.value)
    ensures r.Some? ==> r.value != [] && AllAlnum(r.value) && Contains(url, r.value)
  {
    var byId := Search(url, Patterns[0]);
    if byId.Some? then byId
    else
      var byPath := Search(url, Patterns[1]);
      if byPath.Some? then byPath
      else Search(url, Patterns[2])
  }

  /** `_extract_album_key`: the patterns tried in order, returning on the first match. */
  method ExtractAlbumKey(url: string) returns (key: Option<string>)
    ensures key == AlbumKeyOf(url)
  {
    for n := 0 to |Patterns|
      invariant forall m :: 0 <= m < n ==> Search(url, Patterns[m]).None?
    {
      var hit := Search(url, Patterns[n]);
      if hit.Some? {
        assert n == 0 || Search(url, Patterns[0]).None?;
        assert n <= 1 || Search(url, Patterns[1]).None?;
        return hit;
      }
    }
    assert Search(url, Patterns[0]).None? && Search(url, Patterns[1]).None? && Search(url, Patterns[2]).None?;
    return None;
  }

  /** A key found after `/n-` is the album key, whatever the other patterns find. */
  lemma ByIdWins(url: string, key: string)
    requires Search(url, Patterns[0]) == Some(key)
    ensures AlbumKeyOf(url) == Some(key)
  {
  }

  /** Without `/n-`, a key found after `/album/` is the album key. */
  lemma ByPathWins(url: string, key: string)
    requires Search(url, Patterns[0]) == None && Search(url, Patterns[1]) == Some(key)
    ensures AlbumKeyOf(url) == Some(key)
  {
  }

  /** Without `/n-` and `/album/`, the album key is whatever `albumkey=` finds. */
  lemma ByQueryWins(url: string)
    requires Search(url, Patterns[0]) == None && Search(url, Patterns[1]) == None
    ensures AlbumKeyOf(url) == Search(url, Patterns[2])
  {
  }

  /**
   * Pattern `p` cannot match where its `k`-th character would fall on a stretch of `s` that
   * holds that character in neither case.
   */
  lemma NoMatchIn(s: string, p: string, k: nat, lo: nat, hi: nat)
    requires k < |p| && lo <= hi <= |s|
    requires forall i :: lo <= i < hi ==> s[i] != p[k] && s[i] != Upper(p[k])
    ensures forall j :: lo <= j + k < hi ==> !MatchAt(s, p, j)
  {
  }

  /**
   * Once the leftmost match of `p` is known to be at `i` and the run of letters and digits after
   * it to have length `n`, the search returns exactly that run.
   */
  lemma SearchFinds(s: string, p: string, i: nat, n: nat)
    requires MatchAt(s, p, i) && forall j :: 0 <= j < i ==> !MatchAt(s, p, j)
    requires i + |p| + n <= |s| && AllAlnum(s[i + |p|..i + |p| + n])
    requires i + |p| + n == |s| || !IsAlnum(s[i + |p| + n])
    ensures Search(s, p) == Some(s[i + |p|..i + |p| + n])
  {
  }

  /**
   * The URL as the lookup sees it: `https://` is put in front unless it already starts with
   * `http://` or `https://`. The result always has a scheme, is the input itself exactly when
   * the input had one, ends with the input, and is the input behind `https://` otherwise.
   */
  function WithScheme(url: string): (r: string)
    ensures StartsWith(r, "http://") || StartsWith(r, "https://")
    ensures r == url <==> StartsWith(url, "http://") || StartsWith(url, "https://")
    ensures |url| <= |r| && r[|r| - |url|..] == url
    ensures !(StartsWith(url, "http://") || StartsWith(url, "https://")) ==> r == "https://" + url
  {
    if StartsWith(url, "http://") || StartsWith(url, "https://") then url else "https://" + url
  }

  /** A URL starting with `https://` is kept as it is. */
  lemma HttpsKept(url: string)
    requires |url| >= 8 && url[0] == 'h' && url[1] == 't' && url[2] == 't' && url[3] == 'p'
    requires url[4] == 's' && url[5] == ':' && url[6] == '/' && url[7] == '/'
    ensures WithScheme(url) == url
  {
    assert url[..8] == "https://";
  }

  /**
   * The `Response` object of a web-URI lookup: its `Locator` field, if any, and the key of its
   * `Album` entry when it has one.
   */
  datatype LookupResponse = LookupResponse(locator: Option<Value>, albumKey: Option<string>)

  /** A lookup body: `None` when it has no `Response` field. */
  type LookupBody = Option<LookupResponse>

  /** The lookup names an album: its `Locator` is the string `Album` and it has an `Album` entry. */
  predicate NamesAlbum(body: LookupBody) {
    body.Some? && body.value.locator == Some(Str("Album")) && body.value.albumKey.Some?
  }

  /**
   * `_get_album_key`: the key written in the (scheme-completed) URL when there is one, and only
   * otherwise the answer of the web-URI lookup; a lookup that fails keeps its error, one that
   * does not name an album gives `KeyNotResolved`.
   */
  function ResolveAlbumKey(url: string, lookup: Reply<LookupBody>): (r: Result<string, ServiceError>)
    ensures AlbumKeyOf(WithScheme(url)).Some? ==> r == Success(AlbumKeyOf(WithScheme(url)).value)
    ensures r.Success? <==>
              AlbumKeyOf(WithScheme(url)).Some? || (lookup.status < BadRequestStatus && NamesAlbum(lookup.body))
    ensures AlbumKeyOf(WithScheme(url)).None? && r.Success? ==> r.value == lookup.body.value.albumKey.value
    ensures AlbumKeyOf(WithScheme(url)).None? && lookup.status >= BadRequestStatus ==>
              r == Classify(lookup).PropagateFailure()
    ensures r.Failure? && lookup.status < BadRequestStatus ==> r.error == KeyNotResolved
  {
    match AlbumKeyOf(WithScheme(url))
    case Some(key) => Success(key)
    case None =>
      var body :- Classify(lookup);
      if NamesAlbum(body) then Success(body.value.albumKey.value) else Failure(KeyNotResolved)
  }

  /** A key found in the URL is returned whatever the lookup would have answered. */
  lemma LocalKeyIgnoresLookup(url: string, a: Reply<LookupBody>, b: Reply<LookupBody>)
    requires AlbumKeyOf(WithScheme(url)).Some?
    ensures ResolveAlbumKey(url, a) == ResolveAlbumKey(url, b)
  {
  }

  /**
   * A bare `n-<key>` with no scheme resolves locally to the key: the `https://` put in front
   * supplies the slash the `/n-` pattern needs.
   */
  lemma {:induction false} BareIdResolves(key: string, lookup: Reply<LookupBody>)
    requires key != [] && AllAlnum(key)
    ensures ResolveAlbumKey("n-" + key, lookup) == Success(key)
  {
    BareIdGetsScheme(key);
    BareIdKey(key);
  }

  /** A bare `n-<key>` has no scheme, so it gets `https://`. */
  lemma BareIdGetsScheme(key: string)
    ensures WithScheme("n-" + key) == "https://n-" + key
  {
    var url := "n-" + key;
    assert url[0] == 'n';
  }

  /** In `https://n-<key>` the leftmost `/n-` is the one in front of the key. */
  lemma BareIdKey(key: string)
    requires key != [] && AllAlnum(key)
    ensures Search("https://n-" + key, "/n-") == Some(key)
  {
    var s := "https://n-" + key;
    assert s[10..10 + |key|] == key;
    assert s[7..10] == "/n-";
    assert MatchAt(s, "/n-", 7);
    assert forall i :: 0 <= i < 9 ==> s[i] != '-';
    NoMatchIn(s, "/n-", 2, 0, 9);
    SearchFinds(s, "/n-", 7, |key|);
  }

  /**
   * The by-id normalisation: an id that starts with `n-` loses every occurrence of `n-`
   * (a global replace, not a single strip); any other id is kept. A prefixed id gets at least
   * two characters shorter.
   */
  function NormalizeId(id: string): (r: string)
    ensures !StartsWith(id, "n-") ==> r == id
    ensures StartsWith(id, "n-") ==> |r| <= |id| - 2
  {
    if StartsWith(id, "n-") then
      assert OccursAt(id, "n-", 0);
      ReplaceLength(id, "n-", "");
      Replace(id, "n-", "")
    else id
  }

  /**
   * Where the rest of the id holds no further `n-`, the global replace agrees with stripping
   * the one leading prefix.
   */
  lemma {:induction false} NormalizeStripsPrefix(id: string)
    requires StartsWith(id, "n-") && !Contains(id[2..], "n-")
    ensures NormalizeId(id) == id[2..]
  {
    assert id[..2] == "n-";
    ReplaceAbsent(id[2..], "n-", "");
  }

  /** An alphanumeric key normalises to itself, written with or without the `n-` prefix. */
  lemma {:induction false} NormalizeKey(key: string)
    requires AllAlnum(key)
    ensures NormalizeId(key) == key
    ensures NormalizeId("n-" + key) == key
  {
    assert forall i :: 0 <= i < |key| ==> key[i] != "n-"[1];
    LacksChar(key, "n-", 1);
    var id := "n-" + key;
    assert id[2..] == key;
    NormalizeStripsPrefix(id);
  }

  /**
   * Every `n-` goes, not only the leading one: `n-<a>n-<b>` with alphanumeric `a` and `b` is
   * requested as `<a><b>`, where stripping the prefix alone would keep the inner `n-`.
   */
  lemma {:induction false} NormalizeRemovesInner(a: string, b: string)
    requires AllAlnum(a) && AllAlnum(b)
    ensures NormalizeId("n-" + a + "n-" + b) == a + b
  {
    var t := "n-" + b;
    forall i | 0 <= i < |a|
      ensures !StartsWith((a + t)[i..], "n-")
    {
      assert (a + t)[i + 1] != '-';
    }
    ReplaceSkipAll(a, t, "n-", "");
    ReplaceHit(b, "n-", "");
    NormalizeKey(b);
    assert !StartsWith(b, "n-");
    ReplaceAbsent(b, "n-", "") by {
      assert forall i :: 0 <= i < |b| ==> b[i] != "n-"[1];
      LacksChar(b, "n-", 1);
    }
    assert "n-" + a + "n-" + b == "n-" + (a + t);
    ReplaceHit(a + t, "n-", "");
  }

  /**
   * `album_id` as the by-id request uses it: an empty or whitespace-only id is rejected before
   * any request; anything else is normalised.
   */
  function AlbumIdKey(id: string): (r: Result<string, ServiceError>)
    ensures r.Failure? <==> IsBlank(id)
    ensures r.Failure? ==> r.error == EmptyAlbumId
    ensures r.Success? ==> r.value == NormalizeId(id)
  {
    StripEmptyIffBlank(id);
    if id == [] || Strip(id) == [] then Failure(EmptyAlbumId) else Success(NormalizeId(id))
  }
}
