# memegen-ai core, modelled in Dafny

This project models the core of memegen-ai, a meme generation service. The model covers five parts:

- **The text overlay engine** (`TextOverlay`): a font is loaded with a fallback to the built-in font. The annotation text is word-wrapped greedily against a pixel budget. Each line is centred horizontally, and the block of lines is centred vertically in the annotation box. A list of annotations is applied in order.
- **Font resolution** (`font_utils`): a closed allow-list of five font files and a default. A name that is unknown or empty falls back to the default. It is an error only when the default file itself is missing. The font list comes back sorted.
- **Coordinate scaling** (`image_utils`): positions laid out on a 512 by 512 reference canvas are scaled to the real image with `int()` truncation. The font size is scaled by the smaller of the two axis ratios. The simpler meme generator then draws each text centred on its scaled x.
- **The API key service** (`ApiKeyService`): key generation, creation, validation with a `last_used` update, revocation, deletion, lookup, paginated listing and counting. These run over a MongoDB collection that is modelled as a sequence of documents in natural order.
- **Request authentication** (`ApiKeyAuth`): the `X-API-Key` header is validated, and the key must be found and active. The admin permission then bypasses all other permission checks. The required permissions are then checked, and the missing ones are reported in the order they were required.

The files are:

- `base.dfy`: `Option`, `Result`, the first-failure `Chain`, and Python's `str.join`.
- `words.dfy`: Python's whitespace `str.split()`.
- `canvas.dfy`: a font is reduced to its measurements (a width function, an ascent and a descent). Drawing is recorded as `Draw` commands.
- `line_wrap.dfy`: `_wrap_text`.
- `fonts.dfy`: `font_utils`.
- `text_overlay.dfy`: `TextOverlay`.
- `image_scaling.dfy`: `image_utils`.
- `api_keys.dfy`: `ApiKeyService`.
- `security.dfy`: `ApiKeyAuth`.

Everything outside the program's own logic is a parameter of the model:

- the filesystem, as the set of existing paths;
- `ImageFont.truetype`, as a partial font loader;
- the SHA-256 hash, as an uninterpreted `string -> string`;
- `secrets.choice`, as a choice function;
- `ObjectId()`, as a 24-digit lower-case hexadecimal string;
- the clock, as an `int`.

Python's `//` with a positive divisor is Dafny's `/`. `int()` applied to a float quotient is modelled as exact rational division truncated toward zero (`TruncDiv`).

Some consequences of the code that the model makes explicit:

- `width - 2*padding` is not clamped. A negative budget puts every word on its own line (`LineWrap.WrapNegativeBudget`), and the block may overflow its box.
- `scale_positions` truncates with `int()` and carries only `x`, `y`, `font_size` and `text`.
- Scaling up and back loses at most one pixel (`ImageScaling.RoundTripUp`). Scaling down can lose more (`ImageScaling.RoundTripDownLoses`: 3 becomes 0 and comes back as 0).
- `ApiKeyAuth` has a branch that rejects a key which is "not active". It can never fire, because validation only ever returns active keys (`Security.NotActiveUnreachable`).

## Model

| member | source | states |
|---|---|---|
| `Words.Split` | app/utils/text_overlay.py:50 | every element is a non-empty run of non-whitespace characters |
| `Words.SplitWord` | app/utils/text_overlay.py:50 | a single word splits into itself |
| `Words.SplitAtSpace` | app/utils/text_overlay.py:50 | any whitespace character separates: the text on each side splits independently, so the words are the maximal non-whitespace runs in order |
| `Words.SplitNothing` | app/utils/text_overlay.py:50-52 | the split is empty exactly when the text is all whitespace, the case where no line is produced |
| `Words.SplitJoin` | app/utils/text_overlay.py:50-56 | splitting words joined by single spaces gives back the same words |
| `LineWrap.Pack` | app/utils/text_overlay.py:54-65 | the wrapping loop yields at least one line and never more lines than the current line plus the remaining words |
| `LineWrap.PackJoin` | app/utils/text_overlay.py:54-65 | the wrapping loop loses, duplicates or reorders no word: joining the lines with spaces gives the words joined with spaces |
| `LineWrap.PackFits` | app/utils/text_overlay.py:55-64 | every line with more than one word measures within the budget |
| `LineWrap.PackHead` | app/utils/text_overlay.py:54-61 | the line under construction only grows by appending a space and a word |
| `LineWrap.PackMaximal` | app/utils/text_overlay.py:55-64 | greedy: each line was closed because the line plus the next line's first word exceeds the budget |
| `LineWrap.PackNarrow` | app/utils/text_overlay.py:55-65 | when no string fits the budget, every word is a line of its own |
| `LineWrap.Wrap` | app/utils/text_overlay.py:37-66 | no lines exactly for whitespace-only text; the lines re-split to the text's words; every multi-word line fits; lines are maximal |
| `LineWrap.WrapNegativeBudget` | app/utils/text_overlay.py:111-114 | a negative effective width, which the code does not clamp, gives one line per word |
| `Fonts.GetFontPath` | app/utils/font_utils.py:22-52 | the result is an existing file, either the requested allowed font or the default; an allowed existing font is returned as is; it fails exactly when the default is missing and the request cannot be honoured |
| `Fonts.ResolvedBasename` | app/utils/font_utils.py:32-52 | the returned path's file name is the requested allowed font or the default font |
| `Fonts.UnknownFontIsDefault` | app/utils/font_utils.py:35-38 | an empty or unknown name resolves exactly as the default name does |
| `Fonts.ListAvailableFonts` | app/utils/font_utils.py:54-61 | the listing is strictly ascending and holds exactly the allow-list's names |
| `Fonts.ListIsTheSortedAllowList` | app/utils/font_utils.py:12-61 | any strictly ascending listing of the allow-list equals the listing returned |
| `TextOverlay.GetFont` | app/utils/text_overlay.py:15-34 | never fails: the font loaded from the resolved path when `truetype` succeeds, and the built-in font when path resolution or `truetype` fails |
| `TextOverlay.UnknownFontLoadsDefault` | app/utils/text_overlay.py:27-30 | a name outside the allow-list loads the same font as `Arial.ttf` |
| `TextOverlay.LineHeight` | app/utils/text_overlay.py:117-118 | the line advance is ascent plus descent plus a gap of a fifth of the font size, rounded down |
| `TextOverlay.DrawLines` | app/utils/text_overlay.py:124-142 | one command per line, in order, each line one line height below the previous, centred across the box, in the given style |
| `TextOverlay.DrawBox` | app/utils/text_overlay.py:107-142 | the wrapped lines are laid out as a block centred vertically in the box, line i one line height below line i-1, each centred horizontally, in the annotation's style |
| `TextOverlay.AddText` | app/utils/text_overlay.py:92-148 | fails with a `KeyError` exactly when `text`, `width`, `height`, `x` or `y` is missing, with the `KeyError` of the first missing key in that order; otherwise the wrapped lines are drawn as a block centred vertically in the box, each line centred horizontally, in the annotation's colours and stroke |
| `TextOverlay.DefaultsApply` | app/utils/text_overlay.py:100-105 | a missing optional key behaves as its default: size 40, `Arial.ttf`, white, black, stroke 2, padding 20 |
| `TextOverlay.AddMultipleTexts` | app/utils/text_overlay.py:178-191 | succeeds exactly when every annotation does; otherwise it fails with the error of the first failing annotation |
| `Base.ChainMap` | app/utils/text_overlay.py:178-179 | a loop of raising steps succeeds exactly when every step does, and otherwise fails with the first failing step's error |
| `Base.ChainMapAppend` | app/utils/text_overlay.py:178-179 | running the loop over two lists in turn is running it over their concatenation |
| `TextOverlay.AddMultipleSingle` | app/utils/text_overlay.py:178-179 | one annotation draws exactly what `add_text` draws |
| `TextOverlay.AddMultipleAppend` | app/utils/text_overlay.py:178-179 | applying a concatenation applies the first list and then the second |
| `ImageScaling.TruncDiv` | app/utils/image_utils.py:25-28 | `int()` of a quotient: the magnitude is the floor of the exact quotient's magnitude, with the quotient's sign |
| `ImageScaling.ScaleAxis` | app/utils/image_utils.py:22-28 | for non-negative values the scaled coordinate is the floor of `p * original / processed` |
| `ImageScaling.ScaleCoordinates` | app/utils/image_utils.py:16-28 | fails (division by zero) exactly when a processed dimension is 0; otherwise each axis is scaled by its own ratio |
| `ImageScaling.ScaleAxisIdentity` | app/utils/image_utils.py:22-28 | scaling by a ratio of one is the identity |
| `ImageScaling.ScaleCoordinatesIdentity` | app/utils/image_utils.py:16-28 | equal original and processed dimensions leave a point unchanged |
| `ImageScaling.ScaleAxisMonotone` | app/utils/image_utils.py:37-49 | a larger ratio never gives a smaller truncated result |
| `ImageScaling.ScaleFontSize` | app/utils/image_utils.py:37-49 | the scaled font size is the size scaled along one of the two axes |
| `ImageScaling.ScaleFontSizeIsMin` | app/utils/image_utils.py:37-49 | the scaled font size is the smaller of the two per-axis scalings |
| `ImageScaling.ScalePositions` | app/utils/image_utils.py:30-58 | fails with `ZeroDivisionError` exactly when a processed dimension is 0; otherwise one position per input, in order, text kept, coordinates and font size scaled |
| `ImageScaling.ScalePositionsIdentity` | app/utils/image_utils.py:30-58 | equal dimensions return the positions unchanged |
| `ImageScaling.FontSizeExample` | app/utils/image_utils.py:37-49 | on a 1024 by 512 image, x doubles while the font size stays 40 |
| `ImageScaling.RoundTripUp` | app/utils/image_utils.py:16-28 | scaling up and back down returns the coordinate or one less |
| `ImageScaling.RoundTripDownLoses` | app/utils/image_utils.py:16-28 | scaling down and back can lose more than a pixel |
| `ImageScaling.MemeFont` | app/utils/image_utils.py:71-75 | the loaded Arial font when loading succeeds, the built-in font after an `OSError` |
| `ImageScaling.DrawOne` | app/utils/image_utils.py:71-95 | one text is drawn white with a two pixel black outline, at its y, its middle at its x; a font error other than `OSError` escapes |
| `ImageScaling.DrawCentred` | app/utils/image_utils.py:70-95 | fails exactly when some font load raises something other than `OSError`, with the first such error; otherwise each text is drawn centred on its x, at its y, white with a two pixel black outline |
| `ImageScaling.GenerateMemeFromImage` | app/utils/image_utils.py:60-100 | positions are scaled from 512 by 512 to the image; each text is drawn at its scaled y and centred on its scaled x; it fails exactly when some font load raises something other than `OSError`, with the error of the first such position (the JPEG save is not modelled) |
| `ApiKeys.GenerateKey` | app/services/api_key_service.py:14-17 | the key has the requested length and only ASCII letters and digits |
| `ApiKeys.SplitKey` | app/services/api_key_service.py:45 | splits at the first '.'; nothing when there is no '.' |
| `ApiKeys.SplitKeyJoin` | app/services/api_key_service.py:40-45 | the token handed out splits back into key id and raw key |
| `ApiKeys.FirstIndex` | app/services/api_key_service.py:50-60 | the first document in natural order that matches the filter |
| `ApiKeys.CreateApiKey` | app/services/api_key_service.py:23-40 | one active document is appended, with the hash of the raw key and no `last_used`; the token is the key id, a '.', and the 32-character raw key the generator produced, whose hash is stored |
| `ApiKeys.CreateKeepsIdsUnique` | app/services/api_key_service.py:28-39 | a fresh key id keeps the key ids unique |
| `ApiKeys.ValidateApiKey` | app/services/api_key_service.py:42-68 | finds an active document with the token's key id and hashed raw key exactly when one exists; only that document's `last_used` changes; a failure changes nothing |
| `ApiKeys.CreateThenValidate` | app/services/api_key_service.py:23-68 | the token of a newly created key validates to that key, whose `last_used` becomes the current time |
| `ApiKeys.ValidateFindsLast` | app/services/api_key_service.py:50-65 | a token that only the newest document matches validates to that document and stamps its `last_used` |
| `ApiKeys.OtherRawKeyRejected` | app/services/api_key_service.py:42-63 | a raw key under the right key id whose digest differs from the generated key's is rejected; with a collision-free hash, that is every other raw key |
| `ApiKeys.RevokeApiKey` | app/services/api_key_service.py:70-79 | returns true exactly when an active document with the id exists, and then revokes it and changes nothing else |
| `ApiKeys.RevokeTwice` | app/services/api_key_service.py:70-79 | with unique ids, a second revocation returns false |
| `ApiKeys.DeleteApiKey` | app/services/api_key_service.py:81-84 | returns true exactly when a document with the id exists, and removes exactly that one |
| `ApiKeys.DeleteRemovesId` | app/services/api_key_service.py:81-84 | with unique ids, no document with the id is left afterwards |
| `ApiKeys.GetApiKey` | app/services/api_key_service.py:93-96 | nothing exactly when no document has the id; otherwise a stored document with it |
| `ApiKeys.Page` | app/services/api_key_service.py:100-102 | a window of consecutive documents starting at `skip`, at most the limit long, shorter only at the end |
| `ApiKeys.WithStatusAppend` | app/services/api_key_service.py:100 | the status filter distributes over concatenation: it keeps store order and each matching document once |
| `ApiKeys.WithStatusCount` | app/services/api_key_service.py:107-108 | the filtered store has exactly as many documents as there are positions with the status |
| `ApiKeys.ListApiKeysByStatus` | app/services/api_key_service.py:98-103 | a negative skip is refused; otherwise the documents with the status from position `skip` on, in order, cut at the limit |
| `ApiKeys.ListApiKeys` | app/services/api_key_service.py:86-91 | a negative skip is refused; otherwise the active documents from position `skip` on, in order, cut at the limit |
| `ApiKeys.DefaultListing` | app/services/api_key_service.py:86-91 | with the defaults `skip=0` and `limit=100`, the first hundred active documents, or all of them when fewer |
| `ApiKeys.PagesTile` | app/services/api_key_service.py:98-103 | a page of n followed by the unlimited listing after it is the unlimited listing from the same start |
| `ApiKeys.CountApiKeys` | app/services/api_key_service.py:105-108 | without a status it counts every document; with one it is the number of positions holding a document with that status, zero exactly when there is none |
| `ApiKeys.CountsAddUp` | app/services/api_key_service.py:105-108 | the total equals the active, revoked and expired counts added together |
| `Security.RequirePermissions` | app/core/security.py:66-67 | `require_permissions(p)` lets an active key through exactly when it holds admin or every permission in `p` |
| `Security.MissingPermissions` | app/core/security.py:50-53 | exactly the required permissions the key lacks; empty exactly when all are held |
| `Security.MissingPermissionsAppend` | app/core/security.py:50-53 | the missing list keeps the required order |
| `Security.CheckKey` | app/core/security.py:39-60 | succeeds with the key exactly when it is active and either admin, unrestricted, or holding every required permission; otherwise a 403 "not active" or one listing the missing permissions |
| `Security.EmptyRequirementIsNone` | app/core/security.py:49 | an empty requirement list requires nothing |
| `Security.AdminBypass` | app/core/security.py:45-47 | an active admin key passes every requirement |
| `Security.Authenticate` | app/core/security.py:18-60 | a missing or empty header is a 401 and touches nothing; an unknown key is a 403 with the challenge header; an accepted key is active and authorised |
| `Security.NotActiveUnreachable` | app/core/security.py:39-43 | the "not active" rejection never happens |
| `Security.CreatedKeyAuthenticates` | app/core/security.py:18-67 | a newly created key authenticates for `require_permissions(p)` exactly when it was created with admin or with every permission in `p` |

## Left out

- Rasterisation, image decoding and encoding, the RGBA and RGB conversions, JPEG quality, and the `BytesIO` plumbing of `add_multiple_texts` and `generate_meme_from_image`. Drawing is recorded as commands, and a failure to open the image is not modelled.
- The font object is not recorded in a `Draw` command. Only its measurements enter the model, through the line positions.
- Real font metrics. A font's width function, ascent and descent are parameters, and widths are non-negative.
- Floating point. `int(a * (b / c))` is modelled as exact rational truncation. With the processed size 512 that `generate_meme_from_image` uses, `b / c` is exact and so is the model (short of products beyond 2^53). For other processed dimensions, Python's `int()` can come out one lower than the exact truncation, even for small coordinates: `int(27 * (13 / 3))` is 116 where the exact value is 117, and `int(49 * (1 / 49))` is 0 where the exact value is 1.
- Logging and `print`, which have no effect on results.
- `encode_image` and `download_image`, which are base64 and network I/O.
- `meme_service.py`, the routes, the S3 and OpenAI services, settings and the MongoDB connection are not part of this model.
- Pydantic validation of `ApiKey(**key_doc)`. The stored documents are taken to be well formed.
- `datetime.utcnow()` and `created_at` are an integer parameter. `secrets.choice` is a choice function. `ObjectId()` is a hexadecimal string parameter, whose freshness is assumed in the lemmas that need it.
- TextOverlay.AddText: errors raised inside Pillow's `draw.text` are not modelled, for example the `TypeError` for a `text_color`, or an `outline_color` with a non-zero stroke, that is not a list of 1, 3 or 4 integers. Colours are carried into `Draw` commands as given, and such an annotation yields `Success` in the model. `add_multiple_texts` would re-raise that error.
- ImageScaling.GenerateMemeFromImage: the JPEG save at the end is not modelled. The image is never converted to RGB, so an RGBA, P or LA image makes `img.save(format='JPEG')` raise `OSError` after the drawing. The model returns `Success` in that case.
- ImageScaling.ScalePositions: positions are taken to carry all four keys `x`, `y`, `font_size` and `text`. The `KeyError` for a missing key, which also escapes `generate_meme_from_image`, is not modelled.
- ImageScaling.DrawOne: a text containing a newline is measured by Pillow's multiline `textbbox`, from its widest line. The model measures the whole string with the font's `width` and so treats every position's text as a single line.
- ApiKeys.ValidateApiKey: the only exception modelled inside its `try` is a token without a '.'. Encoding errors of `raw_key.encode()` (lone surrogates) and database errors are not modelled.
- ApiKeys.ListApiKeysByStatus: `limit` and `skip` are also refused by the driver when they are not integers. This cannot happen in the typed model.
- ApiKeys.OtherRawKeyRejected: SHA-256 is not modelled as collision-free. The lemma instead assumes that the wrong key's digest differs from the real key's, which collision resistance gives for every other key. Nothing else assumes anything about the hash.
