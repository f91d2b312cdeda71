# SmugMug photo selector: album resolution and photo extraction

This project models the core of `SmugMugService`, the service behind the photo selector. Given a
SmugMug album URL or an album id, the service works out the album key and fetches the album and
its images from the SmugMug API. It then answers with an `AlbumResponse`: the album's title, its
key, and one `Photo` per image with every image size it can find or guess.

The model covers these parts:

- **Status classification** (`Http.Classify`). An upstream reply becomes either its body or one of
  three errors: not found (404), rate limited (429), or a generic HTTP error for any status from
  400 up.
- **Album-key extraction** (`AlbumKeys.AlbumKeyOf`, `AlbumKeys.ExtractAlbumKey`). The three
  case-insensitive patterns `/n-`, `/album/` and `albumkey=` are tried in this order. The leftmost
  match of the first pattern that matches gives the key: the longest run of ASCII letters and
  digits after it.
- **Album-key resolution** (`AlbumKeys.ResolveAlbumKey`). First `https://` is put in front of a URL
  without a scheme. Then the URL's own key is used when there is one. Only otherwise does the
  web-URI lookup decide.
- **Album-id check and normalisation** (`AlbumKeys.AlbumIdKey`, `AlbumKeys.NormalizeId`). A blank id
  is refused. An id starting with `n-` loses every occurrence of `n-`.
- **Photo URL extraction** (`PhotoUrls`). The eight URL fields are read in a fixed order. When only
  the thumbnail is present, the other seven sizes are guessed by rewriting the thumbnail URL's
  `/Th/` and `-Th.` size markers. The extraction is written as methods with loops, proved against
  the specification function `PhotoUrlsOf`.
- **Image conversion and album assembly** (`Service`). This covers validation of identifier and
  title, the choice of thumbnail, the default album title, the `count` parameter of the images
  request, and the two entry points `get_all_photos` and `get_all_photos_by_id`.

The upstream requests are not made. Their replies are inputs: a `Reply(status, body)` whose body
is already-decoded JSON.

The lemmas in `album_key_examples.dfy`, `photo_urls_examples.dfy` and `service_examples.dfy` state
what the model gives for the inputs of tests/test_smugmug_service.py.

Files:

- `wrappers.dfy`: `Option` and `Result`.
- `text.dfy`: the Python `str` operations used. These are `startswith`, `replace`, `strip` and
  `isspace`, plus the ASCII letter and digit classes.
- `models.dfy`: the response types and decoded JSON values.
- `http.dfy`: errors and status classification.
- `album_key.dfy`: key extraction, resolution and normalisation.
- `photo_urls.dfy`: URL extraction.
- `service.dfy`: conversion, assembly and the two entry points.

## Model

| member | source | states |
|---|---|---|
| Http.Classify | smugmug_photo_selector/smugmug_service.py:49-56 | Success exactly below 400, and then the body itself. 404 gives not-found and 429 rate-limited, each exactly for that status. Every other status from 400 up gives a generic error carrying that status. No other errors arise. |
| AlbumKeys.Search | smugmug_photo_selector/smugmug_service.py:68-70 | One case-insensitive `re.search` and its group 1. It is None exactly when the pattern matches nowhere. Otherwise it holds the greedy capture at the leftmost match, which is non-empty, alphanumeric and part of the URL. |
| AlbumKeys.AlbumKeyOf | smugmug_photo_selector/smugmug_service.py:59-71 | None exactly when none of the three patterns matches. Otherwise the key is captured by the first pattern in order that matches anywhere, at its leftmost match. The key is non-empty, alphanumeric and part of the URL. |
| AlbumKeys.ExtractAlbumKey | smugmug_photo_selector/smugmug_service.py:59-71 | The loop over the patterns, returning at the first match, computes `AlbumKeyOf`. |
| AlbumKeys.ByIdWins | smugmug_photo_selector/smugmug_service.py:67-70 | A `/n-` match decides the key, whatever the later patterns would find. |
| AlbumKeys.ByPathWins | smugmug_photo_selector/smugmug_service.py:67-70 | Without a `/n-` match, an `/album/` match decides the key. |
| AlbumKeys.ByQueryWins | smugmug_photo_selector/smugmug_service.py:67-71 | Without the first two patterns, the `albumkey=` search alone decides, and no match gives None. |
| AlbumKeys.WithScheme | smugmug_photo_selector/smugmug_service.py:76-77 | The result always starts with `http://` or `https://`. It equals the input exactly when the input already had one of them, and it always ends with the input. Otherwise the result is exactly the input behind `https://`. |
| AlbumKeys.ResolveAlbumKey | smugmug_photo_selector/smugmug_service.py:73-95 | A key in the scheme-completed URL is returned as is. Otherwise: success exactly when the lookup reply is below 400 and names an album (`Locator` is `Album` and an `Album` entry is present), with that album's key. A failed lookup keeps its classified error. Any other reply gives the not-resolved error. |
| AlbumKeys.NamesAlbum | smugmug_photo_selector/smugmug_service.py:90-92 | No contract of its own: the lookup body has a `Response`, its `Locator` is the string `Album`, and it has an `Album` entry. `ResolveAlbumKey`'s contract says this is exactly when a lookup below 400 succeeds. |
| AlbumKeys.LocalKeyIgnoresLookup | smugmug_photo_selector/smugmug_service.py:80-82 | When the URL carries a key, the lookup reply makes no difference. |
| AlbumKeys.BareIdResolves | smugmug_photo_selector/smugmug_service.py:76-82 | `n-<key>` without a scheme resolves locally to the key, because the added `https://` supplies the slash. |
| AlbumKeys.NormalizeId | smugmug_photo_selector/smugmug_service.py:201-205 | An id without the `n-` prefix is kept. A prefixed id gets at least two characters shorter. |
| AlbumKeys.NormalizeStripsPrefix | smugmug_photo_selector/smugmug_service.py:201-205 | When the rest of the id holds no `n-`, the global replace equals stripping the one prefix. |
| AlbumKeys.NormalizeKey | smugmug_photo_selector/smugmug_service.py:201-205 | An alphanumeric key normalises to itself, with or without the `n-` prefix. |
| AlbumKeys.NormalizeRemovesInner | smugmug_photo_selector/smugmug_service.py:201-205 | Every `n-` is removed, not only the leading one: `n-<a>n-<b>` becomes `<a><b>`. |
| AlbumKeys.AlbumIdKey | smugmug_photo_selector/smugmug_service.py:197-205 | Refused, with the empty-id error, exactly when the id is empty or all whitespace. Otherwise the id is normalised. |
| Text.StripEmptyIffBlank | smugmug_photo_selector/smugmug_service.py:197 | `strip()` leaves nothing exactly when every character is whitespace. |
| Text.Strip | smugmug_photo_selector/smugmug_service.py:197 | No contract of its own: `lstrip` then `rstrip` of `isspace` characters. `StripEmptyIffBlank` pins it. |
| Text.IsSpace | smugmug_photo_selector/smugmug_service.py:197 | No contract of its own: the code points Python's `str.isspace` accepts, which `strip()` removes. |
| Text.Replace | smugmug_photo_selector/smugmug_service.py:134-135 | No contract of its own: Python's `str.replace`, left to right and without overlap, as used here and at line 202. `ReplaceAbsent` pins it: no occurrence means no change. `ReplaceDropsChar` pins it too: a character the pattern has more of than the replacement is never gained, and is lost when the pattern occurs. |
| Models.Truthy | smugmug_photo_selector/smugmug_service.py:115 | No contract of its own: Python truthiness of a decoded value. A non-empty string, a non-zero integer, or another value according to its kind is truthy; `null` is falsy. It serves the field test here and `total_photos or 5000` at line 178, whose contract is `ImagesCount`'s. |
| PhotoUrls.Rank | smugmug_photo_selector/smugmug_service.py:103-112 | Each size has one position in the field table, and that position holds it. |
| PhotoUrls.FieldName | smugmug_photo_selector/smugmug_service.py:103-112 | No contract of its own: the field read for each size, as in the table. |
| PhotoUrls.Suffix | smugmug_photo_selector/smugmug_service.py:123-131 | The size code written into a guessed URL, as in the table. It is non-empty and contains no `T`, which is why a rewritten marker never survives. |
| PhotoUrls.Emits | smugmug_photo_selector/smugmug_service.py:115-117 | No contract of its own: the field is present, truthy, a string, and starts with `http`. `DirectSound`, `DirectComplete` and `DirectResult` pin the first loop to it. |
| PhotoUrls.Direct | smugmug_photo_selector/smugmug_service.py:114-118 | No contract of its own: the entries after the first n fields. `DirectOrdered`, `DirectSound` and `DirectComplete` pin it, and `ReadFields` computes it. |
| PhotoUrls.Derive | smugmug_photo_selector/smugmug_service.py:134-135 | No contract of its own: every `/Th/` and then every `-Th.` rewritten with the size code. `DeriveChanges` pins it: it changes the URL exactly when a marker occurs. `DeriveKeepsScheme` pins it too: it keeps the leading `http`. |
| PhotoUrls.Derived | smugmug_photo_selector/smugmug_service.py:133-137 | No contract of its own: the guesses that differ from the thumbnail, in table order. `DerivedOrdered`, `DerivedSound`, `DerivedComplete`, `DerivedAll` and `DerivedNone` pin it, and `GuessSizes` computes it. |
| PhotoUrls.PhotoUrlsOf | smugmug_photo_selector/smugmug_service.py:98-139 | No contract of its own: the direct entries, followed by the guesses when the thumbnail is the only direct entry. The lemmas below pin it, and `ExtractPhotoUrls` computes it. |
| PhotoUrls.DirectOrdered | smugmug_photo_selector/smugmug_service.py:114-118 | After the first n fields, the entries are in table order and all of rank below n. |
| PhotoUrls.DirectSound | smugmug_photo_selector/smugmug_service.py:114-118 | Every entry comes from a field that is present, truthy, a string and starts with `http`, and carries that field's value unchanged. |
| PhotoUrls.DirectComplete | smugmug_photo_selector/smugmug_service.py:114-118 | Every such field among the first n has its entry. |
| PhotoUrls.DerivedOrdered | smugmug_photo_selector/smugmug_service.py:133-137 | The guesses are in table order, all after the thumbnail. |
| PhotoUrls.DerivedSound | smugmug_photo_selector/smugmug_service.py:133-137 | Each guess is the thumbnail rewritten for its size, and differs from the thumbnail. |
| PhotoUrls.DerivedComplete | smugmug_photo_selector/smugmug_service.py:133-137 | Every size whose rewrite differs from the thumbnail has its guess. |
| PhotoUrls.DeriveChanges | smugmug_photo_selector/smugmug_service.py:134-136 | A rewrite differs from the thumbnail exactly when the thumbnail contains `/Th/` or `-Th.`. |
| PhotoUrls.MarkerReplaced | smugmug_photo_selector/smugmug_service.py:134-135 | With a marker present, the rewrite has fewer `T`s than the thumbnail. |
| PhotoUrls.UnmarkedKept | smugmug_photo_selector/smugmug_service.py:134-135 | Without a marker, the rewrite is the thumbnail itself. |
| PhotoUrls.DerivedAll | smugmug_photo_selector/smugmug_service.py:133-137 | A thumbnail with a marker gets a guess for every other size, in table order. |
| PhotoUrls.DerivedNone | smugmug_photo_selector/smugmug_service.py:133-137 | A thumbnail without a marker gets no guesses. |
| PhotoUrls.DeriveKeepsScheme | smugmug_photo_selector/smugmug_service.py:134-135 | A guess keeps the thumbnail's leading `http`. |
| PhotoUrls.PhotoUrlsOrdered | smugmug_photo_selector/smugmug_service.py:98-139 | The result is in table order: each size at most once, and the thumbnail, if present, first. |
| PhotoUrls.PhotoUrlsHttp | smugmug_photo_selector/smugmug_service.py:98-139 | Every URL of the result starts with `http`, guesses included. |
| PhotoUrls.PhotoUrlsEmpty | smugmug_photo_selector/smugmug_service.py:98-139 | The result is empty exactly when no field qualifies. |
| PhotoUrls.DirectResult | smugmug_photo_selector/smugmug_service.py:114-121 | Unless only the thumbnail is present, a size is in the result exactly when its field qualifies, with that field's value as URL. |
| PhotoUrls.ThumbOnlyResult | smugmug_photo_selector/smugmug_service.py:120-139 | With only the thumbnail present: it stays first and unchanged. It is followed by a rewrite for each other size in table order when it has a marker (eight entries), and by nothing otherwise. |
| PhotoUrls.ReadFields | smugmug_photo_selector/smugmug_service.py:100-118 | The loop over the field table computes the direct entries, `Direct(image, 8)`. |
| PhotoUrls.GuessSizes | smugmug_photo_selector/smugmug_service.py:121-137 | The loop over the seven sizes computes the guesses, `Derived(thumb, 8)`. |
| PhotoUrls.ExtractPhotoUrls | smugmug_photo_selector/smugmug_service.py:98-139 | `_extract_photo_urls` computes `PhotoUrlsOf`, whose properties the lemmas above state. |
| Service.FirstThumb | smugmug_photo_selector/smugmug_service.py:148-150 | None exactly when no entry is thumbnail-sized. Otherwise it is the URL of the first thumbnail-sized entry. |
| Service.ThumbnailOf | smugmug_photo_selector/smugmug_service.py:146-151 | None exactly when there are no URLs. Otherwise it is one of the photo's URLs: the first thumbnail-sized URL when that is non-empty, else the first URL (Python's `or`). |
| Service.ThumbnailIsFirst | smugmug_photo_selector/smugmug_service.py:146-151 | On URLs in table order, the thumbnail is absent exactly when there are no URLs, and is otherwise the first URL. |
| Service.ImageId | smugmug_photo_selector/smugmug_service.py:154 | An absent `ImageKey` gives the empty id. A string is kept. Anything else fails validation. |
| Service.ImageTitle | smugmug_photo_selector/smugmug_service.py:155 | An absent or null `Title` gives no title. A string is kept. Anything else fails validation. |
| Service.ConvertImage | smugmug_photo_selector/smugmug_service.py:141-158 | Success exactly when id and title validate. The photo carries them, the extracted URLs, and as thumbnail the first URL (none without URLs). |
| Service.ConvertAll | smugmug_photo_selector/smugmug_service.py:185 | Success exactly when every image converts, giving one photo per image in order. Otherwise some image's error. |
| Service.AlbumTitle | smugmug_photo_selector/smugmug_service.py:169 | The album's string `Title`, or the default title when absent. Anything else fails validation. |
| Service.ImagesCount | smugmug_photo_selector/smugmug_service.py:170-179 | The `count` sent is the album's `ImageCount` when truthy, otherwise 5000. It is always truthy. |
| Service.ImagesOf | smugmug_photo_selector/smugmug_service.py:182 | A missing `Response` or `AlbumImage` counts as no images. Otherwise it is the list as sent. |
| Service.AssembleAlbum | smugmug_photo_selector/smugmug_service.py:185-192 | The key as id and the title. The total is the number of photos, which equals the number of images. Each photo is its image converted, in order. |
| Service.TotalIgnoresImageCount | smugmug_photo_selector/smugmug_service.py:170-190 | The answer does not depend on the album's `ImageCount`. |
| Service.FetchWithKey | smugmug_photo_selector/smugmug_service.py:165-192 | A failed album request gives its classified error, and the images request is not consulted. A failed images request gives its error. Otherwise the answer is the assembled album. |
| Service.FetchAlbum | smugmug_photo_selector/smugmug_service.py:160-192 | A resolution failure is the answer. Otherwise the album is fetched under the resolved key, which becomes its id. |
| Service.FetchAlbumById | smugmug_photo_selector/smugmug_service.py:194-235 | A blank id fails before any request. Otherwise the album is fetched under the normalised id, which becomes its id. |
| Service.PrefixedIdSameAlbum | smugmug_photo_selector/smugmug_service.py:201-205 | `n-<key>` and `<key>` fetch the same album, for an alphanumeric key. |
| Service.BareIdUrlSameAsId | smugmug_photo_selector/smugmug_service.py:76-82 | `n-<key>` given as URL and as id gives the same answer, whatever the lookup says. |
| AlbumKeyExamples.GalleryUrlKey | tests/test_smugmug_service.py:39-48 | The gallery URL gives `ABC123`. |
| AlbumKeyExamples.ApiUrlKey | tests/test_smugmug_service.py:39-48 | The API album URL gives `XYZ789`. |
| AlbumKeyExamples.QueryKey | tests/test_smugmug_service.py:39-48 | The `albumkey=` query gives `DEF456`. |
| AlbumKeyExamples.LookalikeNoKey | tests/test_smugmug_service.py:51-60 | `https://example.com/no-album-key` has no key. |
| AlbumKeyExamples.PlainGalleryNoKey | tests/test_smugmug_service.py:51-60 | `https://user.smugmug.com/just-a-gallery` has no key. |
| AlbumKeyExamples.NotAUrlNoKey | tests/test_smugmug_service.py:51-60 | `invalid-url` has no key. |
| AlbumKeyExamples.MixedCaseKey | smugmug_photo_selector/smugmug_service.py:68 | An upper-case `N-` matches, and the key keeps its case. |
| AlbumKeyExamples.IdPrefixedExample | tests/test_smugmug_service.py:273-309 | `n-ABC123` is requested as `ABC123`. |
| AlbumKeyExamples.IdBlankExamples | tests/test_smugmug_service.py:315-321 | The empty id and a whitespace-only id are refused. |
| AlbumKeyExamples.IdEveryPrefixRemoved | smugmug_photo_selector/smugmug_service.py:201-205 | `n-ABCn-DEF` is requested as `ABCDEF`. |
| AlbumKeyExamples.IdNormalizeNotIdempotent | smugmug_photo_selector/smugmug_service.py:201-205 | `n-nn--` normalises to `n-`, and normalising that again gives the empty key. |
| PhotoUrlsExamples.FourFieldsExample | tests/test_smugmug_service.py:63-77 | Four given fields give exactly four entries: thumbnail, small, large, original. |
| PhotoUrlsExamples.ThumbOnlyExample | tests/test_smugmug_service.py:80-91 | The lone marked thumbnail gives eight entries. The thumbnail comes first and unchanged, and no other entry has thumbnail size. |
| ServiceExamples.ConvertImageExample | tests/test_smugmug_service.py:94-108 | The test image converts to a photo with id `test123`, title `Test Photo`, at least two URLs, and the thumbnail field's URL as thumbnail. |
| ServiceExamples.TestAlbumUrlKey | tests/test_smugmug_service.py:140-142 | The test album URL resolves locally to `ABC123`. |
| ServiceExamples.GetAllPhotosExample | tests/test_smugmug_service.py:140-188 | `get_all_photos` on the test album gives its title, the key `ABC123` and two photos, the first `img1` titled `Photo 1`. |
| ServiceExamples.PrefixedIdExample | tests/test_smugmug_service.py:272-311 | By id `n-ABC123` the answer has id `ABC123` and one photo. |
| ServiceExamples.BlankIdExample | tests/test_smugmug_service.py:314-321 | Empty and blank ids fail with the empty-id error. |
| ServiceExamples.NotFoundExample | tests/test_smugmug_service.py:324-334 | A 404 on the album request gives the not-found error. |
| ServiceExamples.EmptyAlbumExample | tests/test_smugmug_service.py:337-370 | An empty album gives no photos and a total of 0. |

## Left out

- The HTTP transport (`_make_request`'s request and its OAuth session) is not modelled. The lookup, album and images replies are parameters, and their bodies are already-decoded JSON. JSON decoding is not modelled.
- Service construction and credential checking (`__init__`), the web app (`app.py`), settings (`config.py`), `scripts/simple_oauth.py` and logging are not part of this model.
- The request URLs and parameters are not modelled, except the `count` parameter (`ImagesCount`). The album key is the key the requests are made under.
- `get_album_info` and `AlbumInfo` appear in the tests but not in the service or models source. They are not part of this model.
- Service.FetchWithKey: the album reply's body is taken to be the `Album` record itself. The `KeyError` raised when `Response` or `Album` is missing is not modelled.
- AlbumKeys.ResolveAlbumKey: three lookup replies are not modelled. The first is an `Album` entry that lacks `AlbumKey` (a `KeyError`). The second is an `Album` entry with a non-string key. The third is a `Response` whose value is `null`, on which `.get` fails. `LookupBody` takes the `Response` to be an object and the key to be a string when present.
- Service.ImagesOf: two images replies are not modelled. The first is an `AlbumImage` that is `null`, which makes the comprehension fail. The second is a `Response` whose value is `null`, on which `.get` fails. `ImagesBody` takes the `Response` to be an object and the list to be a list of objects.
- AlbumKeys.Search: `re.IGNORECASE` is modelled as ASCII case folding. The Unicode folds that map non-ASCII characters onto `K`, `S` or `I` are left out.
- Service.ImageId, Service.ImageTitle, Service.AlbumTitle: validation of the response models is modelled only as "a string is accepted, anything else is refused". Pydantic's coercions beyond that are left out.
- AlbumKeys.NormalizeId: the service removes every `n-` in a prefixed id (a global replace), not only the leading one. The model follows the code. `IdEveryPrefixRemoved` and `IdNormalizeNotIdempotent` show where this differs from stripping one prefix.
- The `async` scheduling of the entry points is not modelled; each entry point is a function of its inputs.
