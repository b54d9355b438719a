# La Gramola back end: a Dafny model of its core

La Gramola is a web jukebox for bars. A bar owner registers an account,
confirms it from an e-mail link, pays a subscription through a card
provider, and links the bar's Spotify application. Customers then pay per
song. Each paid song is recorded in a history at the price from the
database. This project models the sequential logic under the Spring glue
and proves what that logic promises:

- token life cycle: pending, then used, with a 30-minute limit;
- user accounts: registration, login, deletion, confirmation, password reset;
- the hex encoding of password digests;
- the registration guard chain;
- payment preparation and confirmation;
- the paid-song history;
- the Spotify token fan-out;
- the geocoding fallback query.

The model keeps the heap shape of the JPA persistence context:

- `Token`, `User` and `StripeTransaction` are classes whose setters change fields.
- One `Repositories.Database` object holds the five tables. Rows keyed by id are maps and the track history is a sequence.
- A user's creation token *is* the token table's row for its id. So a password reset that presents a creation-token id does consume that user's confirmation token, and `ResetPassword` proves it.
- Pure logic is written as functions, with the request validators and controllers' error mapping among them. State changes are methods with `modifies` frames.
- Each method's `ensures` states the new state, and the rejections in the order the code tests them.

Inputs from the outside world are parameters:

- SHA-256 is an uninterpreted function `string -> Digest` (32 signed bytes). Only the byte-to-hex rendering around it is modelled.
- Other oracles: the geocoder's `fetch`, the payment provider's `create` and `retrieve`, Spotify's token `exchange`, the URL encoder. Each may fail.
- The clock is a `now: Millis` parameter and fresh UUIDs are `freshId` parameters, which must not already be keys.
- `findByClientId`'s answer is the `found` parameter. It must list each user with that client id exactly once.

Java library semantics the code relies on are written out in `JavaText`:

- `trim` strips characters up to U+0020.
- `isBlank` uses `Character.isWhitespace`.
- `length()` counts UTF-16 code units.
- `lastIndexOf` returns -1 when the character is absent.
- `equalsIgnoreCase` is modelled for ASCII letters.

Behaviour of the code that the model keeps as written:

- The comments at `UserService.java:141` and `Token.java:31` describe a 30-minute limit. The code at `UserService.java:163` and `:231` rejects only `creationTime < now - 1800000`, so a token exactly 30 minutes old is still accepted (`UserService.TokenCheck`).
- Each endpoint passes a `ResponseStatusException` through unchanged and maps every other exception in its own way:
  - `confirmToken` answers 500 with "Error inesperado en la confirmación: " and the message (`UserController.java:144-146`);
  - `confirm` answers 400 with the bare message (`UserController.java:161-162`);
  - `prepay` and `confirm` of the payments controller answer 400 with their prefix and the message (`PaymentsController.java:65-66` and `:107-108`);
  - `addTrack` answers 500 with a fixed text that drops the message (`MusicController.java:60-63`, `MusicController.MapFailure`).
- The BAD_GATEWAY "Spotify no devolvió un Access Token válido." raised at `SpotyService.java:113` is caught by the surrounding `catch (Exception)` at `:115`. The caller therefore always sees "Error de comunicación con Spotify." (`SpotyService.GetAuthorizationToken`).

## Model

| member | source | states |
|---|---|---|
| TokenModel.Token.constructor | gramola/src/main/java/edu/uclm/es/gramola/model/Token.java:46-49 | a new token has the given 36-character id, the current clock as creation time, use time 0, and is not used |
| TokenModel.Token.IsUsed | gramola/src/main/java/edu/uclm/es/gramola/model/Token.java:55-57 | `isUsed`: the use time is positive |
| TokenModel.Token.State | gramola/src/main/java/edu/uclm/es/gramola/model/Token.java:26-39 | the field snapshot is used exactly when the token is |
| TokenModel.Token.Use | gramola/src/main/java/edu/uclm/es/gramola/model/Token.java:64-66 | the use time becomes the (positive) clock: the token is used afterwards; a used token stays used; id and creation time do not change |
| TokenModel.Token.SetId | gramola/src/main/java/edu/uclm/es/gramola/model/Token.java:73-75 | only the id changes |
| TokenModel.Token.SetCreationTime | gramola/src/main/java/edu/uclm/es/gramola/model/Token.java:81-83 | only the creation time changes |
| TokenModel.Token.SetUseTime | gramola/src/main/java/edu/uclm/es/gramola/model/Token.java:89-91 | only the use time changes; used afterwards iff the new stamp is positive |
| UserModel.Unsigned | gramola/src/main/java/edu/uclm/es/gramola/model/User.java:186 | `0xff & b` lies in 0..255 and agrees with the signed byte modulo 256 |
| UserModel.HexDigit | gramola/src/main/java/edu/uclm/es/gramola/model/User.java:186 | a nibble's digit is a lower-case hex character whose value is that nibble |
| UserModel.ToHexString | gramola/src/main/java/edu/uclm/es/gramola/model/User.java:186 | `Integer.toHexString` of 0..255: one digit below 16 and two from 16, lower-case, no leading zero, denoting the value |
| UserModel.ByteHex | gramola/src/main/java/edu/uclm/es/gramola/model/User.java:186-190 | each byte renders as exactly two lower-case hex characters denoting its unsigned value |
| UserModel.PaddedHexIsByteHex | gramola/src/main/java/edu/uclm/es/gramola/model/User.java:186-190 | prepending '0' to a one-digit `toHexString` gives the two-character rendering |
| UserModel.HexEncode | gramola/src/main/java/edu/uclm/es/gramola/model/User.java:185-191 | the rendering is twice as long as the digest and lower-case hex throughout |
| UserModel.HexDecode | gramola/src/main/java/edu/uclm/es/gramola/model/User.java:185-191 | reading the text back in pairs yields half as many bytes as characters; it is the inverse proved in HexRoundTrip |
| UserModel.HexRoundTrip | gramola/src/main/java/edu/uclm/es/gramola/model/User.java:185-191 | decoding the rendering of any digest gives the digest back |
| UserModel.HexEncodeInjective | gramola/src/main/java/edu/uclm/es/gramola/model/User.java:185-191 | two digests with the same rendering are equal |
| UserModel.EncryptedPassword | gramola/src/main/java/edu/uclm/es/gramola/model/User.java:177-193 | the stored hash of a password: 64 lower-case hex characters, a function of the password alone |
| UserModel.User.EncryptPassword | gramola/src/main/java/edu/uclm/es/gramola/model/User.java:177-198 | the builder loop produces exactly the rendering of the digest, 64 characters |
| UserModel.User.SetPwd | gramola/src/main/java/edu/uclm/es/gramola/model/User.java:122-124 | the field receives the hash of the password, nothing else changes |
| UserModel.User.SetLat | gramola/src/main/java/edu/uclm/es/gramola/model/User.java:159 | only the latitude changes |
| UserModel.User.SetLng | gramola/src/main/java/edu/uclm/es/gramola/model/User.java:162 | only the longitude changes |
| UserModel.User.SetSpotifyAccessToken | gramola/src/main/java/edu/uclm/es/gramola/model/User.java:169 | only the stored Spotify token changes |
| UserModel.User.constructor | gramola/src/main/java/edu/uclm/es/gramola/services/UserService.java:54-62 | `new User()` and the plain setters: the given fields, no password, no coordinates, no Spotify token |
| JavaText.Utf16Length | gramola/src/main/java/edu/uclm/es/gramola/http/UserController.java:75 | `length()` is the number of characters plus one for each supplementary character (a surrogate pair), so between `|s|` and `2·|s|`, and exactly `|s|` within the basic plane |
| JavaText.LeadingTrimmed | gramola/src/main/java/edu/uclm/es/gramola/services/GeocodingService.java:42 | the number of leading characters `trim` drops: all of them are at most U+0020 and the next is not |
| JavaText.TrailingTrimmed | gramola/src/main/java/edu/uclm/es/gramola/services/GeocodingService.java:42 | the same at the end of the text |
| JavaText.Trim | gramola/src/main/java/edu/uclm/es/gramola/services/GeocodingService.java:42 | `trim` returns the contiguous middle of the text: its ends are not trimmable and everything cut off is |
| JavaText.TrimIdempotent | gramola/src/main/java/edu/uclm/es/gramola/services/GeocodingService.java:42 | trimming twice is trimming once |
| JavaText.LastIndexOf | gramola/src/main/java/edu/uclm/es/gramola/services/GeocodingService.java:42 | the last position of the character, with none after it; -1 exactly when it does not occur |
| JavaText.IsWhitespace | gramola/src/main/java/edu/uclm/es/gramola/http/UserController.java:55 | `Character.isWhitespace`, the characters `isBlank` skips |
| JavaText.IsBlank | gramola/src/main/java/edu/uclm/es/gramola/http/UserController.java:55 | `isBlank`: every character is whitespace |
| JavaText.MissingOrBlank | gramola/src/main/java/edu/uclm/es/gramola/http/UserController.java:55-69 | `x == null || x.isBlank()` |
| JavaText.EqualsIgnoreCase | gramola/src/main/java/edu/uclm/es/gramola/services/PaymentService.java:130 | equal length and equal characters after folding; see EqualsIgnoreCaseIffLowerEqual |
| JavaText.LowerAll | gramola/src/main/java/edu/uclm/es/gramola/services/PaymentService.java:130 | the text folded character by character, of the same length |
| JavaText.EqualsIgnoreCaseIffLowerEqual | gramola/src/main/java/edu/uclm/es/gramola/services/PaymentService.java:130 | two texts are equal ignoring case exactly when their foldings are equal |
| JavaText.AsciiLower | gramola/src/main/java/edu/uclm/es/gramola/services/PaymentService.java:130 | an upper-case ASCII letter folds to the lower-case letter 32 code points above it; every other character is kept |
| Json.GetString | gramola/src/main/java/edu/uclm/es/gramola/model/StripeTransaction.java:104-105 | `get(key)` then `toString()`: absent exactly when the key is missing or JSON null; a string value is returned as is, any other value as its rendering |
| Json.CastString | gramola/src/main/java/edu/uclm/es/gramola/http/PaymentsController.java:81-82 | `(String) get(key)`: a ClassCastException exactly for non-string values, null exactly for a missing key or JSON null, and the string itself for a string value |
| Http.Translate | gramola/src/main/java/edu/uclm/es/gramola/http/UserController.java:142-147 | a status exception passes through unchanged; any other exception becomes the given status with the prefix and its message |
| StripeTransactionModel.StripeTransaction.constructor | gramola/src/main/java/edu/uclm/es/gramola/model/StripeTransaction.java:47-49 | a fresh id, no payload, no e-mail |
| StripeTransactionModel.StripeTransaction.GetData | gramola/src/main/java/edu/uclm/es/gramola/model/StripeTransaction.java:66-72 | the payload's fields, or the empty map when there is no payload or it is not an object |
| StripeTransactionModel.StripeTransaction.SetData | gramola/src/main/java/edu/uclm/es/gramola/model/StripeTransaction.java:74-83 | the payload is replaced wholesale |
| StripeTransactionModel.StripeTransaction.SetUser | gramola/src/main/java/edu/uclm/es/gramola/model/StripeTransaction.java:85-91 | `getUser` afterwards returns the e-mail that was set |
| StripeTransactionModel.StripeTransaction.GetUser | gramola/src/main/java/edu/uclm/es/gramola/model/StripeTransaction.java:89-91 | the stored payer e-mail, as `SetUser` and the constructor state it |
| StripeTransactionModel.StripeTransaction.GetClientSecret | gramola/src/main/java/edu/uclm/es/gramola/model/StripeTransaction.java:102-106 | null exactly when the payload has no `client_secret` or it is JSON null; otherwise that value's text (a string as is); null without a payload |
| StripeTransactionModel.StripeTransaction.GetStripePaymentIntentId | gramola/src/main/java/edu/uclm/es/gramola/model/StripeTransaction.java:113-117 | null exactly when the payload has no `id` or it is JSON null; otherwise that value's text (a string as is); null without a payload |
| GeocodingService.FallbackQuery | gramola/src/main/java/edu/uclm/es/gramola/services/GeocodingService.java:42 | the trimmed text after the last comma: shorter than the address and free of commas |
| GeocodingService.Lookups | gramola/src/main/java/edu/uclm/es/gramola/services/GeocodingService.java:38-45 | the full address is asked first; a second query, the fallback, is made exactly when the first found nothing and the address has a comma |
| GeocodingService.GetCoordinates | gramola/src/main/java/edu/uclm/es/gramola/services/GeocodingService.java:36-48 | a successful first lookup is the answer; the answer is null exactly when every lookup made found nothing, and otherwise is the last lookup's result |
| Repositories.Database.TokenRow | gramola/src/main/java/edu/uclm/es/gramola/model/User.java:93-95 | a token object of the table is the row stored under its own id |
| Repositories.Database.TokenRowsOfOthers | gramola/src/main/java/edu/uclm/es/gramola/model/User.java:93-95 | the other users' creation tokens are rows under ids different from this user's token id |
| Repositories.Database.Valid | gramola/src/main/java/edu/uclm/es/gramola/model/User.java:93-95 | the table invariant every service method keeps: rows sit under their own keys, and each user's creation token is the token table's row for its id and belongs to that user alone |
| Repositories.Database.IsClientIdQuery | gramola/src/main/java/edu/uclm/es/gramola/dao/UserDao.java:49 | the answer of `findByClientId`: every stored user with that client id, each once, and no one else |
| Repositories.Database.OwnerUnique | gramola/src/main/java/edu/uclm/es/gramola/model/User.java:93-95 | one-to-one: at most one user owns a creation-token id |
| Repositories.Database.FindEmailByCreationTokenId | gramola/src/main/java/edu/uclm/es/gramola/dao/UserDao.java:32 | the e-mail of the user owning that creation-token id, or none exactly when nobody owns it |
| UserService.TokenCheck | gramola/src/main/java/edu/uclm/es/gramola/services/UserService.java:160-170 | a token passes iff it is not older than 30 minutes and unused; failures are GONE, expiry reported first, so a token both old and used reads "caducado"; an unused token of exactly 30 minutes passes |
| UserService.TokenCheckAfterUse | gramola/src/main/java/edu/uclm/es/gramola/services/UserService.java:163-173 | after a successful check and `use`, every later check of that token fails, with "Token ya usado" while it is unexpired |
| UserService.Geolocate | gramola/src/main/java/edu/uclm/es/gramola/services/UserService.java:65-76 | coordinates are asked for only for a present, non-blank address, and are then the geocoder's answer |
| UserService.NewAccount | gramola/src/main/java/edu/uclm/es/gramola/services/UserService.java:54-80 | the new account: the given fields, the hashed password, coordinates set exactly when found, a new unused creation token |
| UserService.Register | gramola/src/main/java/edu/uclm/es/gramola/services/UserService.java:47-84 | CONFLICT exactly for a stored e-mail, with both tables unchanged; otherwise exactly one user and its token are added as described, and the table invariant is kept |
| UserService.Login | gramola/src/main/java/edu/uclm/es/gramola/services/UserService.java:104-125 | the stored user is returned iff it exists, the hash matches and its creation token is absent or used; the same FORBIDDEN for unknown e-mail and wrong password, otherwise NOT_ACCEPTABLE |
| UserService.SameHashIffSameDigest | gramola/src/main/java/edu/uclm/es/gramola/services/UserService.java:111-112 | two passwords have the same stored hash exactly when their digests are equal |
| UserService.Delete | gramola/src/main/java/edu/uclm/es/gramola/services/UserService.java:131-136 | NOT_FOUND exactly for an unknown e-mail; otherwise exactly that user and, by cascade, its creation token are removed |
| UserService.ConfirmToken | gramola/src/main/java/edu/uclm/es/gramola/services/UserService.java:144-175 | NOT_FOUND, NOT_ACCEPTABLE (no token), NOT_ACCEPTABLE (other id), then the token check, in that order; success iff the user owns that id and it passes, and then only that token's use time changes |
| UserService.CreatePasswordResetToken | gramola/src/main/java/edu/uclm/es/gramola/services/UserService.java:181-192 | NOT_FOUND exactly for an unknown e-mail; otherwise exactly one new unused token is added and its id returned; users are not touched |
| UserService.ResetPassword | gramola/src/main/java/edu/uclm/es/gramola/services/UserService.java:217-247 | NOT_FOUND for an unknown user or token id, then the token check; on success the new hash is stored and the token used, whoever owns it, so a user whose creation token it is becomes confirmed |
| UserController.Field | gramola/src/main/java/edu/uclm/es/gramola/http/UserController.java:45-52 | `body.get(key)`: present exactly when the key is |
| UserController.RegistrationRules | gramola/src/main/java/edu/uclm/es/gramola/http/UserController.java:55-81 | the seven guards of `register` as (broken, message) pairs, in the order the code tests them |
| UserController.FirstViolation | gramola/src/main/java/edu/uclm/es/gramola/http/UserController.java:55-81 | the message of the first broken rule, none exactly when no rule is broken |
| UserController.CheckRegistration | gramola/src/main/java/edu/uclm/es/gramola/http/UserController.java:45-84 | only NOT_ACCEPTABLE rejections; an accepted request has non-blank bar, signature, address and Spotify keys, equal passwords of at least 8 UTF-16 units and an e-mail with '@' and '.', and hands on `pwd1` |
| UserController.CheckRegistrationIsFirstViolation | gramola/src/main/java/edu/uclm/es/gramola/http/UserController.java:55-81 | the guard chain accepts exactly the requests that break none of the seven rules and otherwise answers with the first broken rule in source order |
| UserController.Register | gramola/src/main/java/edu/uclm/es/gramola/http/UserController.java:42-86 | a rejected request changes nothing; an accepted one reaches the service and answers 204 exactly when the e-mail was free; then the users table gains exactly one fresh account under that e-mail, built from the checked fields (bar, client id and secret, address, signature, the hash of `pwd1`, the geocoded coordinates, no Spotify token), and the token table gains exactly its fresh unused creation token; every other row is unchanged |
| UserController.ConfirmTokenLink | gramola/src/main/java/edu/uclm/es/gramola/http/UserController.java:126-148 | the service's refusals pass through unchanged (NOT_FOUND for an unknown e-mail, NOT_ACCEPTABLE without a token or for another token id, GONE for an expired or used token); a 302 to `frontUrl + "/payments?token=" + encoded token` exactly when the confirmation passes and the encoder answers; an encoding failure is a 500 raised with the token already consumed; the token is stamped exactly when the confirmation passes |
| UserController.Confirm | gramola/src/main/java/edu/uclm/es/gramola/http/UserController.java:153-164 | the service's refusals pass through unchanged, as for `confirmToken`; the fixed success map exactly when the confirmation passes; the token is stamped exactly then |
| PaymentService.SeedPlans | gramola/src/main/java/edu/uclm/es/gramola/services/PaymentService.java:64-66 | exactly the plans SONG, MONTHLY and ANNUAL, each under its own code |
| PaymentService.InitStripe | gramola/src/main/java/edu/uclm/es/gramola/services/PaymentService.java:63-67 | an empty price table becomes the seed; a non-empty one is left alone |
| PaymentService.AvailablePlans | gramola/src/main/java/edu/uclm/es/gramola/services/PaymentService.java:73-75 | exactly the stored plans |
| PaymentService.Prepay | gramola/src/main/java/edu/uclm/es/gramola/services/PaymentService.java:83-108 | NOT_FOUND for an unknown plan, the provider's failure passed on; otherwise exactly one new transaction is stored, with the intent's payload and no e-mail |
| PaymentService.PaidStatusIgnoresCase | gramola/src/main/java/edu/uclm/es/gramola/services/PaymentService.java:130 | the acceptance test gives the same answer for statuses that differ only in letter case |
| PaymentService.IsPaidStatus | gramola/src/main/java/edu/uclm/es/gramola/services/PaymentService.java:130 | `"succeeded".equalsIgnoreCase(status) || "requires_capture".equalsIgnoreCase(status)`; characterised in PaidStatusCharacterised |
| PaymentService.PaidStatusCharacterised | gramola/src/main/java/edu/uclm/es/gramola/services/PaymentService.java:130 | a status is accepted exactly when it is present and folds to "succeeded" or "requires_capture" |
| PaymentService.StatusText | gramola/src/main/java/edu/uclm/es/gramola/services/PaymentService.java:132 | `String.valueOf(status)`: the status itself, or "null" |
| PaymentService.ResolveEmail | gramola/src/main/java/edu/uclm/es/gramola/services/PaymentService.java:162-172 | null stays null; a text with '@' is itself; any other text resolves exactly when some user owns it as creation-token id, and then to that user's e-mail |
| PaymentService.Verdict | gramola/src/main/java/edu/uclm/es/gramola/services/PaymentService.java:120-140 | the checks in order: a blank or missing intent id, the provider's failure, an unpaid status (named in the message), an unresolved payer; passes exactly when none applies |
| PaymentService.ConfirmTransaction | gramola/src/main/java/edu/uclm/es/gramola/services/PaymentService.java:117-156 | a failed check writes nothing; once the checks pass the transaction gets the latest payload and the payer and is saved, and only then is the account looked up, NOT_FOUND leaving the update in place |
| PaymentService.FindTransaction | gramola/src/main/java/edu/uclm/es/gramola/services/PaymentService.java:181-183 | the stored transaction with that id, or null exactly when there is none |
| PaymentsController.Prepay | gramola/src/main/java/edu/uclm/es/gramola/http/PaymentsController.java:53-68 | 400 without a plan id before the service; NOT_FOUND passes through; a provider failure becomes 400 with the prefix; success exactly when a plan id is given, the plan exists and the provider returns an intent; the new transaction then has the fresh id, the provider's payload and no e-mail |
| PaymentsController.Confirm | gramola/src/main/java/edu/uclm/es/gramola/http/PaymentsController.java:79-110 | the method may write only the row the request names; a non-string field is 400; 400 without a transaction id and 404 for an unknown one, with no row's payload or e-mail changed; for a stored transaction, every failure of the service's checks becomes 400 with the prefix and its message and changes no row, an unknown payer is NOT_FOUND after the transaction took the new payload and e-mail, and success happens exactly when the checks pass and the payer is a user; every other stored transaction keeps its payload and e-mail; success carries status "succeeded" and the confirmed payer's e-mail |
| MusicService.HistoryAfter | gramola/src/main/java/edu/uclm/es/gramola/services/MusicService.java:45-56 | 500 exactly when there is no SONG plan; otherwise the old history plus one track with the given fields, the clock and the SONG price |
| MusicService.SavedTwiceIsListedTwice | gramola/src/main/java/edu/uclm/es/gramola/services/MusicService.java:52-56 | no deduplication: the same request saved twice adds two tracks at the same price |
| MusicService.SaveTrack | gramola/src/main/java/edu/uclm/es/gramola/services/MusicService.java:42-59 | the history becomes the one described above, or stays as it was on the 500; the plan table is not changed |
| MusicController.FieldOr | gramola/src/main/java/edu/uclm/es/gramola/http/MusicController.java:39-41 | a present field's text, otherwise the default |
| MusicController.ReadTrackRequest | gramola/src/main/java/edu/uclm/es/gramola/http/MusicController.java:38-47 | 400 exactly without an id; title and artist default to "Desconocido", the e-mail to "anonimo", present fields are kept |
| MusicController.MapFailure | gramola/src/main/java/edu/uclm/es/gramola/http/MusicController.java:57-64 | status failures pass through; others become 500 with a fixed text |
| MusicController.AddTrack | gramola/src/main/java/edu/uclm/es/gramola/http/MusicController.java:34-65 | without an id nothing is saved; otherwise the history grows by the one track exactly when saving succeeds |
| SpotyService.TokenToStore | gramola/src/main/java/edu/uclm/es/gramola/services/SpotyService.java:94-97 | a value is stored exactly when the body is an object holding `access_token` whose value casts to a string (JSON null stores null) |
| SpotyService.WrittenCount | gramola/src/main/java/edu/uclm/es/gramola/services/SpotyService.java:100-109 | every found account is written, or those up to and including the one whose save throws |
| SpotyService.GetAuthorizationToken | gramola/src/main/java/edu/uclm/es/gramola/services/SpotyService.java:51-119 | FORBIDDEN without an account and before any exchange; the first account's secret is sent; BAD_GATEWAY for every exchange failure; an OK body is returned and its token stored on the matching accounts (all of them when no save throws), users of other client ids untouched |

## Left out

- SHA-256 (`MessageDigest`) is an uninterpreted parameter; `getBytes()` is folded into it, and the unreachable `NoSuchAlgorithmException` branch is not modelled.
- UUID generation and the clock are parameters (`freshId`, `now`); a fresh id is required not to be a key already.
- Java `long` overflow of the expiry arithmetic and timestamps is not modelled (integers are unbounded).
- The payment provider's SDK (`PaymentIntent.create`/`retrieve`, `Stripe.apiKey`, the `/diag` endpoint) is replaced by the `create` and `retrieve` oracles; the key logging in `initStripe` is left out.
- The amount in cents `(long)(price * 100)` and the paid amount printed after confirmation: floating point; prices and coordinates are opaque values that are only copied.
- JSON parsing and rendering (`org.json`, Jackson): payloads are already decoded maps (`JsonText`); `toString()` of a non-string value is an opaque rendering.
- Json.CastString: the text of a `ClassCastException` message is taken as empty, so the wrapped 400 reason carries only its prefix.
- `URLEncoder.encode` is an oracle that may fail; the reset-link construction in `createResetToken` is not modelled.
- E-mail sending (`EmailService`, `sendResetPasswordEmail`): I/O whose failures `register` swallows; the stored account does not depend on it.
- The login, delete, password-token and password-reset endpoints of `UserController` only forward to the service and build fixed maps; they are not modelled separately (the services they call are).
- `getDevices`, `getPlaylists`, `searchTracks` and the Nominatim request in `fetchCoordinates`: network pass-through; `fetchCoordinates` is the `fetch` oracle.
- PaymentService.ResolveEmail: the `catch` fallback that returns the input when the repository throws is not modelled, since the one-to-one invariant makes `findByCreationTokenId` unique; the reflective `getEmail` call is a plain field read.
- JavaText.EqualsIgnoreCase: only ASCII case folding; Java also folds characters such as 'ſ', 'ı' and 'İ', which provider statuses do not contain.
- SpotyService.GetAuthorizationToken: a save failure is modelled as ending the fan-out after that account's field was set; what the database keeps of earlier rows depends on transaction settings that are not modelled.
- The services' string parameters are never null in the model. Java accepts null there, for example a null `pwd` in `login` or `resetPassword`, which fails inside `encryptPassword` and reaches the caller as a 500. Only endpoints that are not modelled could pass one.
- UserModel.User.constructor: the password field starts as the empty string where Java leaves it null until `setPwd`; every modelled path that creates a user calls `SetPwd` before the account is stored or read.
- `@Transactional` rollback and isolation, and the race of two concurrent confirmations: concurrency.
- Console logging, CORS annotations and the Spring wiring.
- The DAO interfaces are not modelled one by one: their tables are fields of `Database`, `findByCreationTokenId` is a function and `findByClientId` is the `found` parameter.
