# Kinbox Pix parser: customer-identifier canonicalisation, in Dafny

The Kinbox Pix parser is a small Express service. On `/kinbox/finalizar` it reports a
Purchase event to Meta's Conversions API, with the `event_id` `kinbox-<customerPlatformId>`
and a `user_data` map of hashed identifiers. The phone is reduced to its ASCII digits. The
email is coerced to a string, trimmed and lower-cased. Both are then digested with
SHA-256. `/kinbox/parse` only checks its required fields and echoes the customer id.

This project models that logic in `index.js` and proves what is hashed, under which key,
and when each route fails:

- `js_value.dfy`, module `JsValue`: the JSON values a request body can carry (plus
  `undefined`), JavaScript truthiness, property access and `String()` coercion.
- `js_text.dfy`, module `JsText`: the `\d` filter of `normalizePhone`, `trim` with the
  exact ECMAScript whitespace set, ASCII `toLowerCase`, and the trim-then-lower-case form
  that `sha256` digests.
- `kinbox.dfy`, module `KinboxPix`: `normalizePhone`, `sha256`, `getUserDataHashes`, the
  event that `sendPurchaseToMeta` posts, and the guards of the two POST routes.
- `wrappers.dfy`, module `Wrappers`: `Option` and `Result`. A thrown error is a `Failure`.

The SHA-256 digest is the parameter `h: string -> string`. Every property holds for every
`h`, so the proofs say what is hashed, not how.

The detected value (index.js:97) and the total (index.js:120) are the constant `10.0`, and
the event's session id is the customer id itself (index.js:124).

## Model

| member | source | states |
|---|---|---|
| JsText.IsDigit | index.js:16 | the class `\d`, the characters `0`–`9` only; KeepDigits and its lemmas are stated with it |
| JsText.KeepDigits | index.js:16 | the filtered phone holds only the characters `0`–`9` and is no longer than the input |
| JsText.KeepDigitsAppend | index.js:16 | filtering a concatenation concatenates the filtered parts, so relative order is kept |
| JsText.KeepDigitsSingle | index.js:16 | on one character the filter keeps it exactly when it is a digit |
| JsText.KeepDigitsCount | index.js:16 | every digit survives as often as it occurs, and no other character survives |
| JsText.KeepDigitsFixed | index.js:16 | the filter leaves a string unchanged exactly when it is all digits |
| JsText.KeepDigitsIdempotent | index.js:16 | filtering twice equals filtering once |
| JsText.KeepDigitsEmpty | index.js:16 | the filter yields "" exactly when the input holds no digit |
| JsText.IsJsWhitespace | index.js:13 | the characters `trim` removes: ECMAScript WhiteSpace (tab, vertical tab, form feed, byte order mark, every Zs space) and LineTerminator; TrimStart and TrimEnd are stated with it |
| JsText.TrimStart | index.js:13 | the leading-trimmed string is the suffix after the longest whitespace prefix |
| JsText.TrimEnd | index.js:13 | the trailing-trimmed string is the prefix before the longest whitespace suffix |
| JsText.TrimOf | index.js:13 | trimming whitespace + m + whitespace yields m when m has no whitespace at its ends |
| JsText.TrimSplits | index.js:13 | every string is its trim between the whitespace that trim removes |
| JsText.Trim | index.js:13 | `String.prototype.trim`: the result has no whitespace at either end and is no longer than the input; TrimOf, TrimSplits and TrimIgnoresSurroundingWhitespace describe it fully |
| JsText.TrimOfTrimmed | index.js:13 | a string without whitespace at its ends is its own trim |
| JsText.TrimIgnoresSurroundingWhitespace | index.js:13 | added surrounding whitespace does not change the trim |
| JsText.TrimIdempotent | index.js:13 | trimming twice equals trimming once |
| JsText.Lower | index.js:13 | `toLowerCase` on ASCII letters: keeps the length, turns each of `A`–`Z` into `a`–`z`, keeps every other character, and leaves no ASCII upper-case letter |
| JsText.LowerEqualIff | index.js:13 | two strings lower-case alike exactly when they have the same length and differ at each position at most in the case of an ASCII letter |
| JsText.LowerIdempotent | index.js:13 | lower-casing twice equals lower-casing once |
| JsText.TrimLowerCommute | index.js:13 | trim and lower-case commute |
| JsText.Canonical | index.js:13 | trim then lower-case: the result has no whitespace at its ends and no ASCII upper-case letter; the Canonical lemmas below describe it |
| JsText.CanonicalIdempotent | index.js:13 | the trimmed, lower-cased form is unchanged by processing it again |
| JsText.CanonicalEquivalent | index.js:13 | strings differing only in surrounding whitespace and, position by position, in ASCII letter case have the same processed form |
| JsText.CanonicalOfDigits | index.js:13-22 | a digit string is its own processed form |
| JsText.CanonicalOfWhitespace | index.js:13 | a whitespace-only string processes to "" |
| JsValue.Truthy | index.js:16-23 | JavaScript truthiness of a JSON value: undefined, null, false, 0 and "" are falsy; it decides the empty-string default of `normalizePhone`, `if (email)` and the route guards |
| JsValue.Prop | index.js:89-93 | `body.key` on the parsed body (an absent or non-object body reads as `{}`): an own field, otherwise undefined |
| JsValue.ToJsString | index.js:13-36 | `String(x)` and `${x}`: strings as they are, "undefined", "null", "true"/"false", arrays joined with ",", objects as "[object Object]"; used by Sha256 and EventId |
| KinboxPix.NormalizePhone | index.js:16 | a falsy phone gives "", a string gives exactly its digits, any other truthy value throws |
| KinboxPix.NormalizePhoneOfMissing | index.js:16 | undefined, null and "" normalise to "" |
| KinboxPix.NormalizePhoneIdempotent | index.js:16 | normalising a normalised phone again gives the same result |
| KinboxPix.Sha256 | index.js:13 | `sha256(x)` is `h` of the trimmed, lower-cased `String(x)`; Sha256Equivalent, Sha256OfCanonical and Sha256OfDigits state its properties |
| KinboxPix.Sha256Equivalent | index.js:13 | string inputs differing only in surrounding whitespace and, position by position, in ASCII letter case hash equally |
| KinboxPix.Sha256OfCanonical | index.js:13 | hashing the processed form of a value gives the value's own digest |
| KinboxPix.Sha256OfDigits | index.js:13-22 | a digit string is digested unchanged: `sha256(ph) == h(ph)` |
| KinboxPix.GetUserDataHashes | index.js:19-25 | throws exactly for a truthy non-string phone; `ph` is present exactly when the phone has a digit, holding `[h(digits)]`; `em` is present exactly when the email is truthy, holding `[h(lower(trim(String(email))))]`; no other key |
| KinboxPix.BlankEmail | index.js:23 | a truthy email whose text is whitespace only still yields `em == [h("")]` |
| KinboxPix.BlankEmailExamples | index.js:23 | " " and `[]` are truthy emails with blank text |
| KinboxPix.UserDataIgnoresPhoneFormatting | index.js:21-22 | two phones with the same digits give the same `user_data` |
| KinboxPix.EventId | index.js:36 | the event id `kinbox-${sessionId}`; EventIdInjective states it tells string ids apart |
| KinboxPix.EventIdInjective | index.js:36 | distinct string customer ids get distinct `kinbox-` event ids |
| KinboxPix.SendPurchaseToMeta | index.js:28-42 | the body holds one `Purchase` event from `customer_chat` in BRL, with `event_id` `kinbox-` + String(sessionId) and the user data above, and `test_event_code` beside `data` when it is set; it fails exactly when the phone makes `normalizePhone` throw |
| KinboxPix.ParseRequest | index.js:89-103 | a missing customer id fails with "customerPlatformId obrigatório" whatever the URL; a present id with a missing URL fails with "attachment_url obrigatório"; otherwise the id is echoed |
| KinboxPix.FinalizePurchase | index.js:116-127 | a missing customer id fails with "customerPlatformId obrigatório"; otherwise the result is the body SendPurchaseToMeta builds for the body's id (as session id), phone and email: event name, action source, currency, event id, user data and test event code |

## Left out

- HTTP plumbing is not modelled: the Express app, routing, `res.json`/`res.status` replies, the health route and `app.listen`. A failing route replies 400 with the failure's message. The model returns the failure instead.
- Network I/O is not modelled: the `axios.post` calls to graph.facebook.com, their 20-second timeouts, the reply data, and the `/test-pixel` route. The finalize model ends with the event it would send.
- The SHA-256 algorithm (`crypto.createHash`) is not modelled. It is the parameter `h`.
- Process configuration: `dotenv`, and the pixel id and token in the URL. `FB_TEST_EVENT_CODE` is a parameter (empty when unset).
- `Date.now()` event times are not modelled, because they are not deterministic.
- The event's `custom_data.value` (`Number(Number(value).toFixed(2))`) is not modelled. It is floating-point rounding of the constant `10.0`.
- The constants `10.0` of both routes are not modelled. They carry no logic.
- Logging through `console.log` is not modelled.
- JsText.Lower: maps only ASCII `A`–`Z`. JavaScript's `toLowerCase` also maps the other Unicode upper-case letters, some to two characters.
- JsValue.ToJsString: a number's text is taken as given in `Num`, because the model has no number-to-string formatting. An object always becomes "[object Object]". In JavaScript, a JSON object with its own `toString` key makes `String()` throw, since that key is never callable; an own `valueOf` key does not matter, because `toString` is tried first.
- KinboxPix.GetUserDataHashes: does not model the throw for an email that is (or is an array holding) an object with its own `toString` key (index.js:23); there the source throws while the model returns a map.
- KinboxPix.SendPurchaseToMeta: does not model the throw for such an email, nor for such a session id in the event id (index.js:36); its "fails exactly when the phone" clause holds only for other values.
- KinboxPix.FinalizePurchase: likewise does not model the throw for such an email or customer id (index.js:117-127).
- JsValue.Truthy: assumes a `Num` carries the canonical text JavaScript gives the number, so every zero is "0". The model does not enforce this: `Num("0.0")` would count as truthy, while the JavaScript number it would stand for is falsy.
- JsValue.Prop: an object's own fields only. This matches index.js, whose keys (`customerPlatformId`, `attachment_url`, `phone`, `email`) are not properties of `Object.prototype`.
- JavaScript strings are UTF-16 code units; the model's strings are Unicode scalar values. The digit filter and trim treat both alike for the characters involved.
