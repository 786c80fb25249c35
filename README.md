# 1bitcaptcha, modelled in Dafny

This project models the core of the 1bitcaptcha Laravel package:

- the captcha service class `OneBit\Captcha\Services\Captcha`;
- the global helpers `captcha`, `captcha_check` and `captcha_img`;
- the default configuration record `config/1bitcaptcha.php`.

It proves properties of that model. The table under "## Model" gives, for each member, what its contract states, and says so where a member has no contract of its own.

The service is a small state machine over four fields: the code, the unique id, the configuration and the canvas. It works next to the application cache.

- **Issuing a code.** `makeCode` either draws `codelen` characters from `charset` or keeps a preset code, in which case `codelen` becomes that code's length. It makes an id when none is set, then stores id → code in the cache.
- **Checking a code.** `check` pulls the entry for the id, which removes it, then compares it with the answer after ASCII lower-casing both.
- **Rendering.** `createImage` and its helpers draw a picture. The model keeps it as an ordered log of GD drawing commands, not pixels:
  - one background fill;
  - one dark line for each of the `noise_lines` rounds whose colour is allocated;
  - one light `*` mark for each of the `noise_points` rounds whose colour is allocated;
  - one glyph for each of the `codelen` slots whose colour is allocated, showing the code's character for that slot.

  Every random parameter stays in its stated range. The outcome of each `imagecolorallocate` call is an input (`Render.Allocator`): GD's palette state is not modelled. GD refuses a canvas of more than `INT_MAX` pixels, more than `INT_MAX / 8` rows or more than `INT_MAX / 4` columns, and assigning its `false` to the typed `$img` property is a TypeError. The picture is returned as `data:image/png;base64,` followed by the base64 encoding (section 4 of RFC 4648) of the PNG bytes, as a data URI (RFC 2397).
- **`captcha_img`.** It turns the attribute array into `<img key="value" …>` followed by a hidden input that carries the id.

The modules follow the package:

- `Php` (`php.dfy`): the PHP runtime pieces used:
  - `empty()`, where "0" is empty;
  - ASCII `strtolower`;
  - `trim`;
  - string-keyed arrays as ordered key/value lists, with `$a[$k] = $v` (`Assign`) and `array_merge` (`Merge`).
- `Base64` (`base64.dfy`): `base64_encode` and the data URI. It includes a decoder, used only to prove that nothing is lost.
- `Config` (`config.dfy`): the default record as a constant value.
- `Runtime` (`runtime.dfy`): nondeterministic `mt_rand`, `md5(uniqid(...))` and the `imagepng` capture. Each promises only what PHP documents.
- `Store` (`store.dfy`): the Laravel cache as a class with `put`, `pull` and `has`.
- `Render` (`render.dfy`): the drawing commands, the rendering settings read from the configuration, GD's canvas-size limits, the colour-allocation outcomes, and the layout every picture satisfies.
- `Service` (`captcha.dfy`): the class `Captcha`, plus the reference definitions of issuance (`Issued`) and of checking (`Verdict`).
- `Helpers` (`helpers.dfy`): the three helpers. `app('1bitcaptcha')` is a singleton, so each helper receives the one shared service object.
- `DefaultBehaviour` (`defaults.dfy`): what the default record means for issuance and rendering, including the configuration used by the package's custom-config helper test.

`getCode` and `getUniqid` are the read-only functions `Service.Captcha.GetCode` and `Service.Captcha.GetUniqid`. They have no contract of their own. `GetAttr`'s contract ties them to the returned attributes.

Three behaviours of the code are easy to miss:

- **Releasing the canvas.** The canvas is not released on every exit path. `imagedestroy` is guarded by `is_resource`, which is false for a PHP 8 `GdImage`.
- **Renderer state.** The renderer keeps its canvas in the service object's `img` field; it is not stateless.
- **Empty charset.** An empty charset fails only when `codelen` is positive. The failure is `mt_rand`'s `ValueError`.
- **A generated "0" is not kept.** An alphabet holding '0' (such as "0123456789") with `codelen` 1 can generate the code "0". `empty("0")` holds, so the next `makeCode` appends a character to it and overwrites the cache entry (`Service.IssueTwiceZero`).

## Model

| member | source | states |
|---|---|---|
| Php.Empty | src/Services/Captcha.php:71 | no contract: the predicate is PHP's `empty()` on a string, true for "" and for "0"; `Runtime.Md5HexNotEmpty` and `Service.IssuedId` rest on it |
| Php.ToLower | src/Services/Captcha.php:322 | the result has the input's length, no upper-case ASCII letter, and each character is the input's up to ASCII case |
| Php.CaseEqualIff | src/Services/Captcha.php:322 | `strtolower($a) === strtolower($b)` holds exactly when both strings have the same length and agree at each position up to ASCII case (both directions) |
| Php.CaseEqualEquivalence | src/Services/Captcha.php:322 | the case-insensitive comparison is reflexive, symmetric and transitive |
| Php.ToLowerIdempotent | src/Services/Captcha.php:322 | lower-casing twice is the same as lower-casing once |
| Php.TrimLeft | src/helpers.php:59 | the result is a suffix of the input; everything removed is a character `trim` strips; the result does not start with one |
| Php.TrimRight | src/helpers.php:59 | the result is a prefix of the input; everything removed is strippable; the result does not end with a strippable character |
| Php.Trim | src/helpers.php:59 | no contract of its own: it is `TrimRight` after `TrimLeft`, whose contracts say what each end loses |
| Php.TrimDropsTrailingSpace | src/helpers.php:59 | if a string does not start with a strippable character and has a non-strippable character before one trailing space, `trim` removes just that space |
| Php.Assign | src/Services/Captcha.php:82 | after `$a[$k] = $v` the key reads `v`; every other key reads as before |
| Php.AssignKeys | src/helpers.php:51-52 | an existing key keeps its position; a new key is appended at the end |
| Php.AssignUnique | src/helpers.php:51-52 | assignment keeps the keys distinct |
| Php.Merge | src/Services/Captcha.php:59 | no contract of its own: `MergeGet`, `MergeKeys` and `MergeUnique` state what `array_merge` gives |
| Php.MergeGet | src/Services/Captcha.php:59 | after `array_merge($a, $b)`, every key of `b` reads `b`'s value; every other key reads `a`'s value |
| Php.MergeKeys | src/Services/Captcha.php:59 | the keys of `a` come first, in order; the merged keys are exactly those of `a` and of `b` |
| Php.MergeUnique | src/Services/Captcha.php:59 | the merge keeps the keys distinct |
| Base64.Encode | src/Services/Captcha.php:260 | n bytes encode to 4·⌈n/3⌉ characters, each from the base64 alphabet or the padding `=` |
| Base64.DecodeFront | src/Services/Captcha.php:260 | decoding reads one four-character quantum off the front |
| Base64.RoundTrip | src/Services/Captcha.php:260 | decoding the encoding gives back the bytes |
| Base64.EncodeInjective | src/Services/Captcha.php:260 | different images give different encodings |
| Base64.PngDataUri | src/Services/Captcha.php:304 | the URI is `data:image/png;base64,` followed by 4·⌈n/3⌉ base64 characters |
| Base64.DataUriRoundTrip | src/Services/Captcha.php:304 | dropping the prefix and decoding gives back the PNG bytes |
| Config.PublicPath | config/1bitcaptcha.php:46 | no contract: `public_path($path)` as the public directory, a slash and the path |
| Config.Defaults | config/1bitcaptcha.php:5-78 | no contract: the default record; `DefaultKeys`, `DefaultNumbers` and `DefaultStrings` state its contents |
| Config.DefaultKeys | config/1bitcaptcha.php:5-78 | the default record holds exactly the nine keys, each once, in the file's order |
| Config.DefaultNumbers | config/1bitcaptcha.php:24-77 | codelen 4, width 130, height 50, fontsize 20, cachetime 300, noise_lines 6, noise_points 100 |
| Config.DefaultStrings | config/1bitcaptcha.php:14-46 | the charset is the default alphabet; the font is `public_path('vendor/1bitcaptcha/font/icon.ttf')` |
| Config.DefaultCharsetShape | config/1bitcaptcha.php:14 | the default alphabet has 50 distinct letters and digits, none of `ijloqIJLOQ01`, so it is not empty |
| Runtime.MtRand | src/Services/Captcha.php:79 | `mt_rand($min, $max)` returns a value in the range, both ends included |
| Runtime.FreshUniqid | src/Services/Captcha.php:72 | the generated id is 32 lower-case hexadecimal digits |
| Runtime.Md5HexNotEmpty | src/Services/Captcha.php:71-72 | such an id is never empty in PHP's sense |
| Runtime.CapturePng | src/Services/Captcha.php:252-254 | no contract: any byte sequence, or no data (`ob_get_clean()` returning false) |
| Store.Cache.Put | src/Services/Captcha.php:85 | the key now maps to the string, with the time-to-live recorded; other keys are unchanged |
| Store.Cache.Pull | src/Services/Captcha.php:320 | returns the stored value if any and removes the key |
| Store.Cache.Has | tests/Unit/HelpersTest.php:54 | true exactly when the key is stored |
| Render.CountEntry | src/Services/Captcha.php:156 | a missing or null `noise_lines`/`noise_points` entry falls back to its default; an integer is read as is |
| Render.Prepare | src/Services/Captcha.php:99-101 | a missing font gives "CAPTCHA font file not found: …" before anything else; a non-string font gives TypeError; on success the font is a string naming an existing file, each side lies strictly between 0 and `INT_MAX`, and every setting is the entry read |
| Render.Canvas | src/Services/Captcha.php:123 | a non-integer width is a TypeError, then a non-integer height; with integer sides, a width outside (0, `INT_MAX`) is the Argument #1 ValueError, then a height outside it the Argument #2 one; on success each side lies in that range and every setting is the entry read |
| Render.Counts | src/Services/Captcha.php:156-236 | on success `noise_lines`, `noise_points` (each with its default), `codelen` and `fontsize` are the entries read |
| Render.PrepareRejectsSize | src/Services/Captcha.php:123 | with a published font and integer sides, a width outside (0, `INT_MAX`) gives the ValueError "Argument #1 ($width) must be greater than 0"; a good width and a bad height gives the one for Argument #2 |
| Render.PrepareAccepts | src/Services/Captcha.php:123 | a record with well-typed entries, a published font and sides in (0, `INT_MAX`) is accepted with exactly its values |
| Render.GdRefuses | src/Services/Captcha.php:123 | no contract: GD's three `overflow2` tests on a 64-bit build |
| Render.GdRefusesMeaning | src/Services/Captcha.php:123 | GD refuses exactly the canvases of more than `INT_MAX` pixels, more than `INT_MAX / 8` rows or more than `INT_MAX / 4` columns |
| Render.DivBound | src/Services/Captcha.php:123 | `a > INT_MAX / b` holds exactly when `a · b > INT_MAX` |
| Render.CharAt | src/Services/Captcha.php:242 | `$code[$i]` is the i-th character, or "" past the end |
| Render.SlotsBelow | src/Services/Captcha.php:218 | strictly increasing slots below n number at most n |
| Render.Allocated | src/Services/Captcha.php:158-167 | the allocated rounds of a loop number at most its bound |
| Render.AllocatedRounds | src/Services/Captcha.php:158-167 | they are, in increasing order, exactly the rounds below the bound whose colour is allocated (both directions) |
| Render.DrawsSlotsSnoc | src/Services/Captcha.php:220-243 | drawing a glyph for slot i extends the drawn slots by i |
| Render.SlotDrawnIff | src/Services/Captcha.php:220-228 | slot i below codelen is drawn exactly when its colour is allocated (both directions) |
| Render.Rendered | src/Services/Captcha.php:104-107 | no contract: the layout, with one line per allocated line round, one mark per allocated mark round and glyphs for exactly the allocated slots |
| Render.GlyphRunSnoc | src/Services/Captcha.php:218-243 | a valid glyph for the next slot extends a run of glyphs for the earlier slots |
| Render.GlyphRunBound | src/Services/Captcha.php:218-244 | a picture holds at most `codelen` glyphs |
| Render.LayoutOfPhases | src/Services/Captcha.php:104-107 | running the phases in order, each extending the log, gives the layout: background, lines, marks, glyphs |
| Render.LayoutSize | src/Services/Captcha.php:104-107 | a picture has at most 1 + noise_lines + noise_points + codelen elements |
| Render.LayoutOrder | src/Services/Captcha.php:104-107 | the background comes first and layers never go back: background, lines, marks, text |
| Render.GlyphsShowCode | src/Services/Captcha.php:242 | if the code is at least `codelen` long, every glyph draws the code's character for its slot, and no slot is drawn twice |
| Service.CacheTime | src/Services/Captcha.php:85 | no contract: the `cachetime` entry, or null when missing |
| Service.IssueError | src/Services/Captcha.php:75-80 | no contract: the exception `makeCode` raises: none for a non-empty code, else TypeError for a non-string charset, then for a non-integer codelen, then `mt_rand`'s ValueError for an empty charset with a positive codelen |
| Service.Issued | src/Services/Captcha.php:69-88 | no contract: a successful `makeCode` keeps or makes the id; an empty code gets `codelen` charset characters appended with the configuration unchanged; any other code is kept and `codelen` becomes its length |
| Service.Verdict | src/Services/Captcha.php:314-323 | no contract: the id is not empty and holds a string equal to the answer after `strtolower` on both |
| Service.RenderError | src/Services/Captcha.php:97-107 | no contract: the exception `createImage` raises before capturing, in its order: configuration, GD's refusal, background colour, `codelen` 0 |
| Service.Captcha.GetCode | src/Services/Captcha.php:282-285 | no contract: the code field |
| Service.Captcha.GetUniqid | src/Services/Captcha.php:292-295 | no contract: the id field |
| Service.Captcha.constructor | src/Services/Captcha.php:20-23 | the service starts with an empty code and id and the application's configuration |
| Service.Captcha.WithCode | src/Services/Captcha.php:31-36 | sets the code |
| Service.Captcha.WithUniqid | src/Services/Captcha.php:44-49 | sets the id |
| Service.Captcha.WithConfig | src/Services/Captcha.php:57-62 | the configuration becomes `array_merge(old, overrides)` |
| Service.Captcha.MakeCode | src/Services/Captcha.php:69-88 | see the list under the table |
| Service.Captcha.InitializeImage | src/Services/Captcha.php:121-149 | a canvas GD refuses is a TypeError on `$img`, with `img` unchanged; otherwise a canvas of the configured size holding one canvas-size fill with channels 220–255 when the background colour is allocated, and "Failed to allocate background color" on the blank canvas when it is not |
| Service.Captcha.AddNoiseLines | src/Services/Captcha.php:154-179 | appends exactly one line per round whose colour is allocated, with endpoints inside the canvas and channels 0–50; earlier drawing is untouched |
| Service.Captcha.AddNoisePoints | src/Services/Captcha.php:184-209 | appends exactly one `*` mark per round whose colour is allocated, in font 1–5, inside the canvas, with channels 200–255 |
| Service.Captcha.RenderText | src/Services/Captcha.php:214-245 | DivisionByZeroError exactly when codelen is 0; otherwise appends glyphs for exactly the slots whose colour is allocated, in increasing slot order, each slot below codelen with channels 0–156, angle −30..30, jitter 1–5, the configured size and font, and text `$code[$i]` |
| Service.Captcha.GetImageData | src/Services/Captcha.php:250-261 | the base64 encoding of the captured PNG bytes, or "Failed to capture image data" |
| Service.Captcha.CreateImage | src/Services/Captcha.php:97-116 | a configuration error or a canvas GD refuses leaves `img` untouched; it fails with `RenderError` when that is set, and otherwise succeeds unless the capture fails; a result is `Rendered` for the allocation outcomes and is the base64 of the PNG bytes |
| Service.Captcha.GetData | src/Services/Captcha.php:302-305 | fails exactly as `createImage` does (`RenderError`, else only a failed capture); a result is the prefixed data URI of the PNG bytes, with the picture `Rendered` |
| Service.Captcha.GetAttr | src/Services/Captcha.php:268-275 | fails exactly as `getData` does; a result holds `code` and `uniq` as `getCode` and `getUniqid` return them, and `data`, the data URI of a `Rendered` picture |
| Service.Captcha.Check | src/Services/Captcha.php:314-323 | see the list under the table |
| Service.IssuedId | src/Services/Captcha.php:71-73 | after issuance the id is never empty, and a non-empty preset id is kept |
| Service.IssuedCodeLength | src/Services/Captcha.php:75-83 | unless the code was "0", and provided a generated code starts from a non-negative `codelen`, issuance leaves `codelen` equal to the code's length; no other entry changes |
| Service.GeneratedFromCharset | src/Services/Captcha.php:75-80 | a generated code has `codelen` characters, each from `charset` |
| Service.PresetZeroQuirk | src/Services/Captcha.php:75-79 | a preset code "0" is extended to codelen + 1 characters starting with '0', and codelen is not updated |
| Service.IssueTwice | src/Services/Captcha.php:71-85 | a second `makeCode` after one that left a non-empty code keeps code and id; the configuration reads the same unless the "0" quirk struck. A first call that left the code "0" is excluded: the second call changes the code (`IssueTwiceZero`) |
| Service.IssueTwiceZero | src/Services/Captcha.php:75-79 | from an empty code, alphabet "0" and codelen 1, the first `makeCode` generates "0", which is empty, and the second leaves a two-character code |
| Service.VerdictMeaning | src/Services/Captcha.php:320-322 | `check` is true exactly when the id is not empty, holds a string of the answer's length, and the two agree position-wise up to ASCII case |
| Service.SecondCheckFails | src/Services/Captcha.php:320 | once an id has been pulled, every further check of it is false |
| Service.IssuedCodeVerifiesOnce | src/Services/Captcha.php:314-323 | right after issuance, any case-variant of the code is accepted once; the same answer is refused after that check |
| Service.CheckExamples | src/Services/Captcha.php:314-323 | "TEST123" is accepted as "test123"; "WRONG" is refused; id "0" is refused; a non-string entry is refused |
| Helpers.IssueCaptcha | src/helpers.php:12-21 | merges the overrides only when non-empty; fails with `IssueError`, else with `RenderError` of the issued configuration, else succeeds unless the capture fails; without an `IssueError` the service is `Issued` and the code stored with the configured time-to-live, even when rendering then fails; with one, only the id may have been made and nothing else (canvas, cache) changes; a result is code, id and the data URI of a `Rendered` picture |
| Helpers.CaptchaCheck | src/helpers.php:32-35 | exactly the service's `check`: the same verdict, and the id's entry and time-to-live removed unless the id is empty |
| Helpers.ImgAttributes | src/helpers.php:50-52 | no contract of its own: `ImgAttributesValues` and `ImgAttributesKeys` state what the two assignments give |
| Helpers.Pair | src/helpers.php:56 | one `key="value" ` piece ends with `" ` and starts with the key's first character, or `=` for an empty key |
| Helpers.AttributeText | src/helpers.php:54-57 | a non-empty attribute string ends with `" ` and starts with the first key's first character (or `=` when that key is empty) |
| Helpers.BuildImgHtml | src/helpers.php:50-62 | the loop produces `<img ` + trimmed attribute text + `>` + the hidden input |
| Helpers.CaptchaImg | src/helpers.php:46-63 | issues as `captcha()` does with the configuration as it stands: fails with `IssueError`, else `RenderError`, else succeeds unless the capture fails; the service and cache end as `IssueCaptcha` leaves them, on failure too; a result is the markup built around the attributes code, id and data URI of a `Rendered` picture |
| Helpers.ImgAttributesValues | src/helpers.php:50-52 | `id` is the given id or "captcha-img"; `src` is the data URI, whatever the caller passed; every other attribute is kept |
| Helpers.ImgAttributesKeys | src/helpers.php:51-52 | caller keys keep their order; `id` and `src` keep their places or are appended, in that order; keys stay distinct |
| Helpers.AttributeTextAppend | src/helpers.php:54-57 | the attribute text of two lists joined is the two texts joined |
| Helpers.AttributeTextSnoc | src/helpers.php:54-57 | one more round of the attribute loop appends that entry's pair |
| Helpers.AttributeTextFront | src/helpers.php:54-57 | the text is the first `key="value" ` followed by the rest's text |
| Helpers.TrimmedAttributes | src/helpers.php:59 | `trim` removes exactly the one trailing space when the first key does not start with a strippable character |
| Helpers.ImgHtml | src/helpers.php:59-60 | no contract of its own: `ImgHtmlShape` states the markup |
| Helpers.ImgHtmlShape | src/helpers.php:59-60 | the markup is `<img ` + the attribute text without its last space + `>`, then `<input type="hidden" name="captcha_uniq" value="…">` |
| Helpers.DefaultAttributes | src/helpers.php:50-52 | with no id and no attributes the list is `id` = "captcha-img", then `src` |
| Helpers.DefaultAttributeText | src/helpers.php:54-57 | the default attribute text is `id="captcha-img" src="…" ` |
| Helpers.DefaultImgHtml | src/helpers.php:46-63 | `captcha_img()` gives `<img id="captcha-img" src="…">` directly followed by the hidden input |
| DefaultBehaviour.DefaultIssueEntries | config/1bitcaptcha.php:14-24 | `makeCode` reads the default alphabet and codelen 4 |
| DefaultBehaviour.IssueSucceeds | src/Services/Captcha.php:75-80 | with the default alphabet, generation raises no exception |
| DefaultBehaviour.DefaultCode | src/Services/Captcha.php:75-80 | under the defaults a generated code has 4 letters or digits of the default alphabet, none a look-alike, so it is not empty, and codelen equals its length |
| DefaultBehaviour.CustomEntries | src/Services/Captcha.php:59 | overrides of codelen/width/height that leave the alphabet alone read as given after the merge |
| DefaultBehaviour.CustomConfig | src/helpers.php:16-18 | the helper test's overrides merged into the defaults give codelen 6, width 200, height 80 and the default alphabet |
| DefaultBehaviour.CustomConfigCode | src/helpers.php:16-20 | under that configuration a generated code has 6 characters of the default alphabet |
| DefaultBehaviour.DefaultSettings | src/Services/Captcha.php:99-101 | the defaults render 130×50 with font size 20, 4 slots, 6 lines and 100 marks once the font is published; otherwise "font file not found" |
| DefaultBehaviour.DefaultRenders | src/Services/Captcha.php:97-107 | with the font published, the defaults pass every check before capturing when the background colour is allocated, and fail with "Failed to allocate background color" otherwise |
| DefaultBehaviour.DefaultPictureSize | src/Services/Captcha.php:104-107 | a picture drawn under the defaults has at most 111 elements |

What `Service.Captcha.MakeCode` states:

- The exception raised is exactly `IssueError` of the old fields:
  - a TypeError for a non-string charset;
  - a TypeError for a non-integer codelen;
  - `mt_rand`'s ValueError for an empty charset with a positive codelen.
- The id is always kept or made fresh, even when an exception is raised.
- On success the fields move as `Issued` says.
- On success the cache maps the id to the code, with the configured `cachetime`; every other key is unchanged.
- On an exception, code, configuration and cache are unchanged.

What `Service.Captcha.Check` states:

- The result is `Verdict` of the cache before the call.
- An empty id (PHP's `empty`, so "" or "0") leaves the cache untouched.
- Any other id is removed from the cache, whatever the answer.

## Left out

- Render.Prepare: wrong-typed entries are modelled as a TypeError raised before drawing. Only integer and string entries are modelled:
  - PHP raises a TypeError only where the entry is used, which can be after the background fill.
  - PHP compares loop bounds loosely: a null `codelen` runs no rounds, and a numeric string counts as its number.
- Service.Captcha.MakeCode: for the same reason, a non-integer `codelen` is a TypeError here.
- Service.Captcha.RenderText: a glyph keeps its slot and jitter instead of pixel coordinates. The x position `(int)(width / codelen * i + jitter)` and the baseline `(int)(height / 1.4)` are floating point, so there are no integer claims about them.
- Service.Captcha.GetImageData: the PNG bytes are an arbitrary byte sequence, not tied to the drawing log. PNG encoding and GD's pixel semantics are foreign library code.
- Runtime.FreshUniqid: promises only 32 hexadecimal digits. Uniqueness of ids rests on randomness and hashing and cannot be proved.
- Releasing the canvas with `imagedestroy` in the `finally` block is not modelled, because under PHP 8 that branch never runs.
- The `imagecreatetruecolor(...) === false` check never fires: the `false` is assigned to the typed `object` property first, which raises the TypeError that is modelled. GD's refusal is modelled for a 64-bit build (`sizeof(int *)` is 8); a failing memory allocation inside GD is not.
- Three warnings become an ErrorException under Laravel's error handler: GD's "product of memory allocation multiplication would exceed INT_MAX", PHP's "Uninitialized string offset" for `$code[$i]` past the end (`Render.CharAt` reads ""), and PHP's "Undefined array key" for a missing configuration entry such as `font` or `charset` (the model answers with the TypeError that the resulting null then raises). Laravel's error handler is not part of this model, so both stay warnings here.
- Randomness (`mt_rand`, `ob_get_clean` failure) is a nondeterministic choice with range guarantees only. Uniformity is not modelled. Colour-allocation outcomes are given, not derived from GD's palette.
- Cache expiry is not modelled: the time-to-live given to `put` is recorded, but time is not. Laravel's removal of an entry put with a non-positive time-to-live is not modelled either.
- The atomicity of `Cache::pull` under concurrent requests is not modelled; the model is single-threaded.
- Framework glue is not part of this model: the service provider's bindings and publishing, the facade and the contract interface. The singleton binding appears only as the shared service object the helpers receive.
- The file system is the set of existing file paths passed to rendering. `public_path` is a parameter of the default record.
- PHP arrays with integer keys, and attribute values of `captcha_img` that are not strings, are not modelled. Attributes are string-to-string.
- PHP strings are byte strings; here each character stands for one byte. `strtolower` is ASCII-only, as in PHP 8.2 and later.
