# Telegram Mini App boilerplate: authentication core in Dafny

This project models the authentication and session core of a Telegram Mini
App boilerplate, which has an Express API and a Next.js web app:

- **initData validation.** `validateTelegramData` in the auth service checks
  the HMAC-SHA-256 signature Telegram puts on a Mini App's `initData`. It
  also has a development bypass for `mock_…` sentinels.
- **initData parsing.** `parseInitData` reads the envelope, and
  `getMockParsedData` / `hashCode` turn a sentinel into a synthetic user.
- **User store.** `upsertUser`, the two single-row lookups and
  `getReferrals` run against a `users` table. The table is unique on
  `telegram_id` and `referral_code`. `getMockDbUser` is the record
  returned when no database is configured.
- **`POST /auth/login` and `GET /auth/me`.** Login passes four gates in
  order: presence, signature, parse, upsert. The route also classifies a
  user as new when the row's two timestamps are within one second.
- **Telegram middlewares.** `validateTelegramData` and
  `optionalTelegramData` read initData from `Authorization: tma …` or
  `X-Telegram-Init-Data`. They attach the user and the raw data to the
  request. As written, the middleware does not check the signature.
- **CORS.** The API's CORS origin callback, with its default allowed list.
- **Themes.** The web app's theme resolution: a stored preference, then
  Telegram's colour scheme, then the system setting. This includes the
  one-key preference store and the listener guards.
- **TON Connect manifest.** The route that builds the manifest from the
  request's host.

Pure code is modelled as datatypes and functions, with lemmas about them.
Code that changes state is modelled as classes with `modifies` methods,
each proved against those functions:

- `UsersTable` for the `users` table;
- `TelegramRequest` for the fields the middlewares set;
- `Browser` for localStorage and the root element's class list.

Library calls the code cannot see are passed in as function values of a
`Platform`:

- `URLSearchParams` decoding (a query string to key/value pairs);
- `JSON.parse` of the user;
- `decodeURIComponent`;
- HMAC-SHA-256;
- `localeCompare`.

The environment variables are an `Env` value. Storage failures are a
`Faults` value. Clocks are `now`/`nowMs` parameters. The referral code the
database generates for a new row is a parameter.

Several properties of the code as written are stated as lemmas. They are
kept in the model rather than corrected:

- `POST /auth/login` calls `upsertUser` without a referral code, so login
  never attributes a referral.
- A failing lookup by id makes an existing user look new. A referral code
  then overwrites that user's `referrer_id`.
- The service's bypass needs `NODE_ENV` to be exactly `development`. The
  middleware's needs only that it is not `production`.
- The middleware accepts any non-empty `hash`. This includes hashes that
  the service's signature check can never accept.
- The CORS `vercel.app` test is a substring test on the origin.
- A set but empty `ALLOWED_ORIGINS` yields the single entry `""`, not the
  default list.

## Model

| member | source | states |
|---|---|---|
| InitDataValidation.ValidateTelegramData | apps/api/src/services/auth.service.ts:69-132 | The mock bypass always validates. Without the bypass, a missing bot token or a missing or empty `hash` is rejected. |
| InitDataValidation.ValidateTelegramDataIff | apps/api/src/services/auth.service.ts:69-132 | Valid exactly when the bypass applies, or when there is a token and a non-empty hash equal to the expected hex signature. A length mismatch in the comparison reads as invalid. |
| InitDataValidation.MockSentinelIsPrefix | apps/api/src/services/auth.service.ts:71-74 | The sentinel test `=== 'mock_data' \|\| startsWith('mock_')` is the same as `startsWith('mock_')`. |
| InitDataValidation.DataCheckPairsExact | apps/api/src/services/auth.service.ts:96-103 | The signed pairs are every pair not named `hash`, each as often as in the envelope. They are in key order. |
| InitDataValidation.DataCheckStringOrderIndependent | apps/api/src/services/auth.service.ts:96-103 | With distinct keys, the data-check-string does not depend on the order of the parameters. |
| InitDataValidation.DataCheckString | apps/api/src/services/auth.service.ts:99-103 | The `key=value` lines of the signed pairs joined by line feeds: empty when there are none, and split back into exactly those lines when no key or value holds a line feed. |
| InitDataValidation.Signature | apps/api/src/services/auth.service.ts:105-115 | The expected `hash` is lower-case hex of even length that decodes back to the HMAC-SHA-256 digest of the data-check-string, keyed with the secret key (`SecretKey`): HMAC-SHA-256 of the bot token keyed with `WebAppData`. |
| InitDataValidation.TimingSafeEqual | apps/api/src/services/auth.service.ts:118-121 | An error exactly when the buffer lengths differ; otherwise true exactly when the bytes are equal. |
| InitDataValidation.NoBypassOutsideDevelopment | apps/api/src/services/auth.service.ts:71-77 | Outside `development`, a sentinel gets the verdict any string gets. |
| InitDataValidation.ModeIrrelevantForRealData | apps/api/src/services/auth.service.ts:71-84 | A string that is not a sentinel gets the same verdict in every mode. |
| Runtime.IsSupabaseConfigured | apps/api/src/lib/supabase.ts:43-45 | True exactly when both the URL and the service-role key are set and non-empty. |
| Runtime.Get | apps/api/src/services/auth.service.ts:89 | `params.get(key)` is the value of the first pair with that key, and none when no pair has it. |
| Runtime.Delete | apps/api/src/services/auth.service.ts:97 | `params.delete(key)` removes every pair with that key and keeps every other pair as often as it occurred. |
| Runtime.DeleteConcat | apps/api/src/services/auth.service.ts:97 | Deleting from a concatenation deletes from each part, so the kept pairs stay in order. |
| Runtime.DeleteKeeps | apps/api/src/services/auth.service.ts:97 | A pair with another key stays where it was: what came before it stays before it, what came after stays after. |
| InitDataParsing.HashStep | apps/api/src/services/auth.service.ts:236-237 | The shift wrap plus the `& hash` wrap equal one 32-bit wrap of `31 * hash + char`. |
| InitDataParsing.HashCode | apps/api/src/services/auth.service.ts:232-240 | The loop's result is the 32-bit fold `h -> 31h + c` over the UTF-16 code units, and is a signed 32-bit integer. |
| InitDataParsing.StringHash | apps/api/src/services/auth.service.ts:232-240 | The 32-bit fold `h -> 31h + c` that `hashCode` computes; always a signed 32-bit integer, 0 for the empty string. |
| InitDataParsing.MockParsedData | apps/api/src/services/auth.service.ts:185-226 | The mock envelope: a user with last name `User`, language `en`, not premium and no photo; hash `mock_hash`; `auth_date` now in seconds; no query or chat fields; a start parameter exactly when the sentinel contains `\|`. |
| InitDataParsing.MockUserId | apps/api/src/services/auth.service.ts:209 | The derived id lies in `[0, 10^9)`. |
| InitDataParsing.ParseInitData | apps/api/src/services/auth.service.ts:141-173 | A sentinel yields the mock data. Real data without a non-empty `user` yields `null`. |
| InitDataParsing.ParseRealInitData | apps/api/src/services/auth.service.ts:148-168 | Real data is `null` exactly when `user` is missing, empty or not JSON. Otherwise every field is its parameter's value: `auth_date` is `parseInt` of the parameter or 0 when it is missing or empty, `hash` defaults to "", and `query_id`, `chat_instance`, `chat_type` and `start_param` are the parameter when non-empty and absent otherwise. |
| InitDataParsing.AuthDateTrailingIgnored | apps/api/src/services/auth.service.ts:157 | An `auth_date` such as `12abc` is read as its leading digits. |
| InitDataParsing.AuthDateWithoutDigitsIsNaN | apps/api/src/services/auth.service.ts:157 | An `auth_date` that starts with no digit, sign or space, such as `abc`, is read as NaN. |
| InitDataParsing.AuthDateRoundTrip | apps/api/src/services/auth.service.ts:157 | An `auth_date` written in decimal parses back to the same number. |
| InitDataParsing.MockDataUser | apps/api/src/services/auth.service.ts:201-226 | `mock_data`, with or without `\|start`, is user 123456789 `testuser`/`Test` with hash `mock_hash` and `auth_date` of now in seconds. |
| InitDataParsing.MockSentinelParts | apps/api/src/services/auth.service.ts:187-194 | The identifier is what precedes the first `\|`. The start parameter is the piece between the first and second `\|`, or none when there is no `\|`. |
| InitDataParsing.MockNamedIdentifier | apps/api/src/services/auth.service.ts:205-207 | `mock_a_b` (without `\|`) has the user identifier `a_b`. |
| InitDataParsing.MockAnyNamed | apps/api/src/services/auth.service.ts:190-222 | For every named sentinel `mock_<x>` (no `\|` in `x`, not `mock_data`), with or without `\|<start>`, the id is the reduced hash of `x` and the username is `x` with its first `_` removed. |
| InitDataParsing.MockNamedUser | apps/api/src/services/auth.service.ts:205-222 | For `mock_<a>_<b>` with no `_` in `a` and no `\|`: the id is the reduced hash of `a_b`, the username is `ab`, the last name `User`, the language `en`, and premium false. |
| InitDataParsing.DropFirstUnderscore | apps/api/src/services/auth.service.ts:210 | `replace('_', '')` removes only the first underscore. |
| InitDataParsing.MockFirstName | apps/api/src/services/auth.service.ts:211 | The first name is the first character upper-cased, then the rest with its first `_` turned into a space. |
| InitDataParsing.MockIdIgnoresStartParam | apps/api/src/services/auth.service.ts:190-209 | Two sentinels with the same identifier and different start parameters give the same user. |
| UserStore.Single | apps/api/src/services/auth.service.ts:357-370 | `.single()` returns a row only when exactly one row matches. It returns none when no row matches or more than one does. |
| UserStore.SingleFindsUnique | apps/api/src/services/auth.service.ts:357-372 | When only one row matches, that row is returned. |
| UserStore.GetUserByTelegramId | apps/api/src/services/auth.service.ts:349-377 | `null` when unconfigured or failing. A returned row is in the table and holds the id. |
| UserStore.GetUserByReferralCode | apps/api/src/services/auth.service.ts:382-410 | `null` when unconfigured or failing. A returned row is in the table and holds the code. |
| UserStore.GetUserByTelegramIdFinds | apps/api/src/services/auth.service.ts:349-377 | In a table that keeps its constraints, the lookup finds the row with that id. |
| UserStore.GetUserByReferralCodeFinds | apps/api/src/services/auth.service.ts:382-410 | In a table that keeps its constraints, the lookup finds the row with that code. |
| UserStore.ResolveReferrer | apps/api/src/services/auth.service.ts:268-288 | A referrer is set only for a new user with a non-empty code that names another user. |
| UserStore.PayloadOf | apps/api/src/services/auth.service.ts:290-303 | The id, first name and `last_login` are the login's. `username`, `last_name` and `photo_url` are the user's value when non-empty and `null` otherwise; `language_code` defaults to `en`, `is_premium` to false. `referrer_id` is in the payload only for a new user with a non-zero referrer, and is then that referrer. |
| UserStore.Updated | apps/api/src/services/auth.service.ts:290-307 | A conflict overwrites the payload columns, stamps `updated_at`, and keeps `created_at`, `role`, `referral_code` and any unsent `referrer_id`. |
| UserStore.Inserted | apps/api/src/services/auth.service.ts:290-309 | A new row has the payload columns, the role `user`, both timestamps now, and the generated code. |
| UserStore.MockDbUser | apps/api/src/services/auth.service.ts:327-344 | Every profile column is the user's (`username`, `last_name`, `photo_url` null when empty, `language_code` `en` and `is_premium` false by default), the role `user`, all three timestamps now, no referrer, and a code of at most 16 characters starting with `r` (its digits are stated by `MockDbUserCode`, for ids in `[0, 10^15)`). |
| UserStore.MockDbUserCode | apps/api/src/services/auth.service.ts:342 | For ids below 10^15, the mock code is `r` followed by the decimal id, and it reads back as the id. |
| UserStore.UpsertUser | apps/api/src/services/auth.service.ts:254-322 | Unconfigured gives the mock user and an untouched table. A failure leaves the table unchanged. Success either updates the row holding the id in place or appends a row when none holds it. |
| UserStore.UpsertKeepsValid | apps/api/src/services/auth.service.ts:254-322 | The upsert keeps `telegram_id` and `referral_code` unique. |
| UserStore.UpdateKeepsFirstTouchFields | apps/api/src/services/auth.service.ts:290-307 | A found user keeps `created_at`, role, code and referrer whatever code is sent. The row is the old one updated with a returning user's payload, so every profile column (name, username, last name, language, premium flag, photo, last login) is the login's; `updated_at` is now. |
| UserStore.ExistingUserIgnoresCode | apps/api/src/services/auth.service.ts:265-288 | For a found user, the referral code and the code lookup's failure do not affect the outcome. |
| UserStore.NewUserRow | apps/api/src/services/auth.service.ts:290-309 | A new user's row is the insert of a new user's payload with the resolved referrer, the role `user`, both timestamps now and the generated code, and it is appended to the table. |
| UserStore.CodeCollisionFails | apps/api/src/services/auth.service.ts:311-314 | A generated code that is already taken gives `null` and an unchanged table. |
| UserStore.NewUserReferral | apps/api/src/services/auth.service.ts:268-302 | A new user is attributed exactly when the code is non-empty, the code lookup works and a row with a non-zero id holds the code. That row is the referrer, never the user. |
| UserStore.NoCodeNoAttribution | apps/api/src/services/auth.service.ts:271-302 | With no code, or an empty one, nobody is attributed. |
| UserStore.NoSelfReferral | apps/api/src/services/auth.service.ts:275-284 | The upsert never makes a user their own referrer unless the row already was. |
| UserStore.LookupErrorReattributes | apps/api/src/services/auth.service.ts:265-302 | A failing id lookup makes user 1, referred by 2, look new. The code of user 3 then re-attributes user 1 to 3. |
| UserStore.ReferralsOf | apps/api/src/services/auth.service.ts:423-427 | The rows whose `referrer_id` is the given id, in table order. |
| UserStore.InsertNewestFirst | apps/api/src/services/auth.service.ts:427 | Inserting adds exactly the given row (as a multiset). |
| UserStore.InsertNewestFirstSorted | apps/api/src/services/auth.service.ts:427 | Inserting keeps a list ordered by `created_at`, newest first. |
| UserStore.UsersTable.Upsert | apps/api/src/services/auth.service.ts:254-322 | The table and the returned record follow `UpsertUser`, and the constraints hold afterwards. |
| UserStore.UsersTable.GetReferrals | apps/api/src/services/auth.service.ts:415-439 | Empty when unconfigured or failing. Otherwise it returns exactly the referred rows, each as often as in the table, newest first. |
| ApiResponse.ErrorReply | packages/shared/src/types/api.ts:4-18 | A failure envelope: `success` false, no data, and the given code and message. |
| AuthRoutes.LoginGate | apps/api/src/routes/auth.ts:48-94 | Missing initData gives 400 `MISSING_INIT_DATA`, invalid data gives 401 `INVALID_SIGNATURE`, and no user gives 400 `PARSE_ERROR`, checked in that order. |
| AuthRoutes.ReplyToUpsert | apps/api/src/routes/auth.ts:99-127 | No record gives 500 `DATABASE_ERROR`. Otherwise 200 with the record and the new-user flag. |
| AuthRoutes.InternalError | apps/api/src/routes/auth.ts:128-144 | 500 `INTERNAL_ERROR`, with the error's message hidden in production. |
| AuthRoutes.Login | apps/api/src/routes/auth.ts:46-145 | An undefined body is an internal error. A rejection at a gate leaves the table untouched. Past the gates, the result is the upsert's. |
| AuthRoutes.Me | apps/api/src/routes/auth.ts:153-166 | Always 501 `NOT_IMPLEMENTED`. |
| AuthRoutes.MissingInitDataFirst | apps/api/src/routes/auth.ts:51-62 | Missing initData gets the same answer in every environment and on every platform, and the table is untouched. |
| AuthRoutes.BadSignatureSkipsParse | apps/api/src/routes/auth.ts:64-78 | A bad signature gives 401 whatever the user JSON would decode to. |
| AuthRoutes.UnparsedIsParseError | apps/api/src/routes/auth.ts:80-94 | Signed data with no user gives 400 `PARSE_ERROR`. |
| AuthRoutes.LoginIsUpsertWithoutCode | apps/api/src/routes/auth.ts:96-110 | Past the gates, login is an upsert with no referral code. A failed write gives 500. |
| AuthRoutes.LoginNeverAttributes | apps/api/src/routes/auth.ts:97 | Login never sets or changes a referrer. |
| AuthRoutes.IsNewUserClassification | apps/api/src/routes/auth.ts:112-115 | An inserted row is new. An updated row is new exactly when it was created within one second of the login. |
| AuthRoutes.InternalErrorMessage | apps/api/src/routes/auth.ts:128-144 | The thrown message is returned outside production and replaced in production. |
| AuthRoutes.HandleLogin | apps/api/src/routes/auth.ts:46-145 | The reply and the new table are those of `Login`. |
| TelegramMiddleware.ExtractInitData | apps/api/src/middleware/validateTelegramData.ts:25-27 | The Authorization header with its first `tma ` removed, when that is non-empty; otherwise, including when Authorization is absent, the `x-telegram-init-data` header when non-empty; otherwise nothing. |
| TelegramMiddleware.ExtractTmaAuthorization | apps/api/src/middleware/validateTelegramData.ts:25-27 | `tma <data>` yields `<data>`, whatever the other header says. |
| TelegramMiddleware.ExtractPlainAuthorization | apps/api/src/middleware/validateTelegramData.ts:25-27 | An Authorization header without `tma ` is taken whole. |
| TelegramMiddleware.ExtractBareScheme | apps/api/src/middleware/validateTelegramData.ts:25-27 | A bare `tma ` falls back to the custom header. |
| TelegramMiddleware.InvalidInitData | apps/api/src/middleware/validateTelegramData.ts:88-99 | 401 `INVALID_INIT_DATA` "Failed to parse Telegram initData". |
| TelegramMiddleware.AttachInitData | apps/api/src/middleware/validateTelegramData.ts:70-77 | On success initData is attached. Without a user parameter the user is untouched. With one, the rules are: a failure in `decodeURIComponent` or `JSON.parse` gives nothing, a decoded user object is attached, and a falsy JSON value attaches no user. |
| TelegramMiddleware.Authenticate | apps/api/src/middleware/validateTelegramData.ts:19-100 | A rejection is a 401 that attaches nothing; with initData present it is always `INVALID_INIT_DATA` (no hash, or a user that fails to decode). A pass with initData requires a non-empty hash and leaves the request exactly as `AttachInitData` makes it. Without initData: the dev user outside production, 401 `MISSING_INIT_DATA` in production. |
| TelegramMiddleware.AuthenticatePassesIff | apps/api/src/middleware/validateTelegramData.ts:61-87 | With initData, the request passes exactly when the hash is non-empty and the user, if any, decodes. |
| TelegramMiddleware.AuthenticateIgnoresSignature | apps/api/src/middleware/validateTelegramData.ts:61-87 | The outcome does not depend on HMAC, key order or bot token. |
| TelegramMiddleware.OddHashNeverSigned | apps/api/src/services/auth.service.ts:112-121 | The service never accepts a hash of odd length. |
| TelegramMiddleware.MiddlewareAcceptsForgedHash | apps/api/src/middleware/validateTelegramData.ts:61-87 | The middleware passes an odd-length hash that the service rejects. |
| TelegramMiddleware.AttachOptional | apps/api/src/middleware/validateTelegramData.ts:106-131 | Without initData nothing changes. With it, the request is what `AttachInitData` makes it, or unchanged when decoding fails. |
| TelegramMiddleware.OptionalAgreesWithStrict | apps/api/src/middleware/validateTelegramData.ts:106-131 | Where the strict middleware passes initData, the optional one attaches the same. |
| TelegramMiddleware.OptionalNeedsNoHash | apps/api/src/middleware/validateTelegramData.ts:115-124 | Data without a hash is rejected by the strict middleware and still attached by the optional one. |
| TelegramMiddleware.TelegramRequest.ValidateTelegramData | apps/api/src/middleware/validateTelegramData.ts:19-100 | Outcome and request fields as `Authenticate` gives. |
| TelegramMiddleware.TelegramRequest.OptionalTelegramData | apps/api/src/middleware/validateTelegramData.ts:106-131 | Always calls next. The request fields are as `AttachOptional` gives. |
| Cors.AllowedOrigins | apps/api/src/middleware/cors.ts:8-10 | Unset gives `['http://localhost:3000']`. Set gives comma-free entries that join back to the variable. |
| Cors.OriginDecision | apps/api/src/middleware/cors.ts:13-40 | Allowed exactly when: there is no origin, or it is listed, or it contains `vercel.app`, or outside production it mentions a dev host. Denied origins get the message `Origin … not allowed by CORS`. |
| Cors.ProductionIsStricter | apps/api/src/middleware/cors.ts:14-40 | Whatever production allows, another mode with the same list allows too. |
| Cors.DefaultListAllowsLocalFrontend | apps/api/src/middleware/cors.ts:8-21 | With the list unset, `http://localhost:3000` is allowed even in production. |
| Cors.ConfiguredEntriesAllowed | apps/api/src/middleware/cors.ts:8-21 | Every configured entry is allowed verbatim. |
| Cors.EmptyListAllowsOnlyVercelInProduction | apps/api/src/middleware/cors.ts:8-40 | An empty list in production allows only origins containing `vercel.app`. |
| Cors.VercelAnywhereAllowed | apps/api/src/middleware/cors.ts:24-26 | Any origin containing `vercel.app` is allowed in every mode. |
| Cors.UnknownOriginRefused | apps/api/src/middleware/cors.ts:29-40 | An unlisted origin that mentions no allowed host is refused with its name in the message. |
| ThemeProvider.DetermineTheme | apps/web/src/components/providers/TelegramThemeProvider.tsx:15-36 | Dark with no window. A stored light or dark wins. Otherwise Telegram's scheme, then the system setting. |
| ThemeProvider.StoredPreferenceWins | apps/web/src/components/providers/TelegramThemeProvider.tsx:20-22 | A stored theme decides alone, whatever the scheme and the system say. |
| ThemeProvider.ReadPreference | apps/web/src/components/providers/TelegramThemeProvider.tsx:79-85 | Fixed exactly when a window exists and `light` or `dark` is stored. Anything else reads as `system`. |
| ThemeProvider.StoredFor | apps/web/src/components/providers/TelegramThemeProvider.tsx:61-66 | `system` clears the key. A theme stores its name. |
| ThemeProvider.PreferenceRoundTrip | apps/web/src/components/providers/TelegramThemeProvider.tsx:58-85 | Reading after setting returns the preference that was set. |
| ThemeProvider.ThemeFollowsPreference | apps/web/src/components/providers/TelegramThemeProvider.tsx:15-85 | The theme is the fixed preference's, or else what nothing stored would give. |
| ThemeProvider.ReappliedThemeIsSystem | apps/web/src/components/providers/TelegramThemeProvider.tsx:117-125 | When the guard lets a change through, the theme applied is the system's. |
| ThemeProvider.SkippedChangeIsHarmless | apps/web/src/components/providers/TelegramThemeProvider.tsx:117-125 | A change held back by a preference or a Telegram scheme would not have changed the theme. |
| ThemeProvider.OtherStoredValueGoesStale | apps/web/src/components/providers/TelegramThemeProvider.tsx:117-125 | A stored value `system` blocks the re-apply, although the theme then depends on the system. |
| ThemeProvider.Browser.ApplyTheme | apps/web/src/components/providers/TelegramThemeProvider.tsx:41-53 | `dark` is present exactly for the dark theme. No other class changes. No document means no change. |
| ThemeProvider.Browser.SetThemePreference | apps/web/src/components/providers/TelegramThemeProvider.tsx:58-74 | Stores or clears the preference, dispatches one event, reads back as set, and shows the resulting theme. No window means no change. |
| ThemeProvider.Browser.TelegramThemeChanged | apps/web/src/components/providers/TelegramThemeProvider.tsx:106-113 | The scheme is updated and the theme re-applied only when nothing, or `system`, is stored. Only the `dark` class can change, and nothing changes without a document. No preference event is dispatched. |
| ThemeProvider.Browser.SystemThemeChanged | apps/web/src/components/providers/TelegramThemeProvider.tsx:117-125 | The theme is re-applied, and then is the system's, only when nothing is stored and there is no Telegram scheme. Otherwise the classes are untouched, and so they are without a document. No preference event is dispatched. |
| TonConnectManifest.EffectiveHost | apps/web/src/app/tonconnect-manifest.json/route.ts:5-10 | The forwarded host, else the Host header, else the URL's host. Empty headers are skipped. |
| TonConnectManifest.Protocol | apps/web/src/app/tonconnect-manifest.json/route.ts:13 | `http` exactly when the host contains `localhost`, otherwise `https`. |
| TonConnectManifest.Get | apps/web/src/app/tonconnect-manifest.json/route.ts:3-31 | The name is `TMA Boilerplate`. The headers are the three CORS headers, with origin `*`. |
| TonConnectManifest.ManifestLinks | apps/web/src/app/tonconnect-manifest.json/route.ts:14-22 | The URL is `protocol://host`. Each link is that URL plus `/next.svg`, `/terms.txt` or `/privacy.txt`. |
| TonConnectManifest.HostRecoverable | apps/web/src/app/tonconnect-manifest.json/route.ts:13-16 | The host is what follows `protocol://` in the URL. |
| TonConnectManifest.ForwardedProtoIgnored | apps/web/src/app/tonconnect-manifest.json/route.ts:7-14 | `x-forwarded-proto` has no effect on the response. |
| TonConnectManifest.ForwardedHostWins | apps/web/src/app/tonconnect-manifest.json/route.ts:10 | A non-empty forwarded host makes the other headers and the URL irrelevant. |
| TonConnectManifest.LocalDevelopmentIsHttp | apps/web/src/app/tonconnect-manifest.json/route.ts:13-16 | `localhost<port>` is served as `http://localhost<port>`. |
| TonConnectManifest.OtherHostsAreHttps | apps/web/src/app/tonconnect-manifest.json/route.ts:13-16 | Any other host gets an `https://` URL. |

## Left out

- Library internals: URL decoding, JSON, `decodeURIComponent` and
  `localeCompare` are function parameters. HMAC-SHA-256 is uninterpreted.
  Key-order lemmas assume `localeCompare` is a strict total order.
- Constant-time behaviour of `timingSafeEqual` cannot be stated. Only its
  result and its length error are modelled.
- Strings are sequences of Unicode scalar values. `hashCode` runs over an
  explicit UTF-16 encoding. `toUpperCase` is modelled for ASCII letters
  only.
- Numbers are unbounded integers. Double precision and NaN beyond
  `parseInt`'s no-digits case are not modelled. Timestamps are integer
  milliseconds, not ISO strings.
- Supabase is modelled as a sequence of rows with the two unique
  constraints. The query builder, PostgREST error codes, network failures
  and concurrency are not modelled beyond one boolean fault per call.
- The database's generated `referral_code` and its `role` and `created_at`
  defaults are inputs or fixed in the model. The `updated_at` stamp on a
  conflict update is taken to be `now`.
- UserStore.UsersTable.GetReferrals: the order among referrals with the
  same `created_at` is not stated, since the query does not fix it.
- AuthRoutes.Login: of the ways the handler can throw, only destructuring
  an undefined body is modelled. Its message is a parameter. A non-string
  `initData` in the body is not modelled.
- TelegramMiddleware.Authenticate, InitDataParsing.ParseInitData and
  AuthRoutes.LoginGate: a `user` that decodes to a falsy JSON value and
  one never set are both `None`. A `user` that decodes to a truthy value
  that is not an object (`5`, `"x"`, `true`) has no representation:
  `parseUserJson` yields only an error, a falsy value or a user object,
  so such a value is whichever of those the platform function maps it
  to. In the source it is attached by the middleware, returned by
  `parseInitData`, and passes the login's `PARSE_ERROR` gate on its way
  to `upsertUser`; none of that is captured.
- TelegramMiddleware.ExtractInitData: the `x-telegram-init-data` header
  is taken as a single string, not an array.
- ApiResponse.ErrorReply: the optional `details` field of `ApiError` is
  never set by the modelled code and is left out.
- Logging (`console.*`), Express and Next.js wiring, the cors package's
  handling of preflight requests and its `credentials`, `methods` and
  `allowedHeaders` options, React effects and listener
  registration are not modelled. The listener guards are modelled as
  methods.
- Other routes (health), the web app's pages and components, the wallet
  and referral UI, and the TON Connect provider are outside this model.
