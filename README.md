# Office door board: a verified model of its core logic

The system has three parts:

- a Node/Express server (`server.js`) that logs users in through OpenID Connect with PKCE;
- per user, a small board of three people slots and day-by-day statuses that the server keeps;
- an ESP32 e-paper door sign that fetches the board with a bearer key and reads RFID cards.

A React page (`src/ConfigPage.jsx`) edits the board and reads the device's own state.

This project models the parts of that system that are logic rather than plumbing. All of it is verified:

- **`Server`**: the request handlers.
  - Each handler is a method of a `Server` class. The class holds the cached discovery document and the table of per-subject board stores.
  - Each handler also acts on a `Session` object, which holds the pending login values and the logged-in user.
  - Effects on the outside world are returned as a list of `Step`s, in order. These are the deletion of the pending values, the discovery fetch, the token POST and the ID-token check.
  - The identity provider's answers are inputs: the discovery response, the token response and the outcome of `jwt.verify`. So are the random bytes. `Buffer` base64, SHA-256 and the ETag hash are function-typed parameters.
- **`Oidc`**:
  - `toBase64Url`;
  - URLSearchParams `set` semantics;
  - the authorization, token and logout parameter sets;
  - the `/callback` state gate and the nonce check;
  - the session record written on success.
- **`DeviceAuth`**:
  - the `DEVICE_API_KEYS` allow-list;
  - the `^Bearer\s+(.+)$`/i match, with its backtracking made explicit;
  - the `If-None-Match` decision.
- **`Board`**: the store values, and the `people` and `eventsByDate` table updates.
- **`Display`**: the integer geometry of `DisplayManager`.
  - A `DisplayManager` class owns the `statusRects` array and the `contentX`/`contentW` fields.
  - Its methods are `drawLayout`'s and `primeLayout`'s geometry, and the window arithmetic of `showStatusPartial`.
- **`Rfid`**: the `readUID` encoding loop. The reader hardware is reduced to two booleans and the UID bytes.
- **`ConfigPage`**:
  - `normalizeBase`;
  - the reduction of the device's people list to three slots (a `while` loop, as in the page);
  - `updateLocal`.
- **`Text`, `JsValue`, `Common`**: JavaScript `trim`, `split`, the regex replacements and truthiness, and the `Option`/`Result` types.

The code and its own comment disagree in one place. The comment at DisplayManager.cpp:276 says the Display3 branch of `primeLayout` has "same geometry as in draw3()". Yet that branch places each status box at `nameBaseY + 14` (DisplayManager.cpp:291), while `draw3` uses `+ 24` (DisplayManager.cpp:147). The model follows the code. `Display.Display3PrimeDiffersFromDraw` proves that the two placements differ by 10 pixels.

## Model

| member | source | states |
|---|---|---|
| Oidc.ToBase64Url | server.js:40-44 | the result holds no `+` or `/` and does not end in `=` |
| Oidc.ToBase64UrlDropsPadding | server.js:40-44 | on base64 text, the output is as long as the input without its padding, and each character is the URL-safe version of the input's |
| Oidc.Base64UrlRoundTrip | server.js:40-44 | on base64 text, every output character is URL-safe, and restoring `+`, `/` and the padding gives back the input exactly |
| Oidc.Set | server.js:188-198 | `searchParams.set`: afterwards exactly one pair has the name and reads as the new value; every other name reads as before |
| Oidc.RemoveAll | server.js:188-198 | no pair with the name is left; every other name reads as before |
| Oidc.SetAllSetsOne | server.js:188-198 | after a series of `set` calls with distinct names, each name reads as its value |
| Oidc.SetAllKeepsOthers | server.js:188-198 | a series of `set` calls leaves every name it does not set unchanged |
| Oidc.SetAllReads | server.js:188-198 | after a series of `set` calls with distinct names, every name set reads as its value and every other name reads as before |
| Oidc.GetDistinct | server.js:226-232 | in a list with distinct names, each name reads as its own value |
| Oidc.GetAbsent | server.js:226-236 | a name that no pair carries reads as absent |
| Oidc.WellKnownUrl | server.js:50 | the discovery URL ends in `/.well-known/openid-configuration`, and the part before it does not end with `/` |
| Oidc.WellKnownIgnoresTrailingSlashes | server.js:50 | trailing slashes on `ISSUER_BASE_URL` do not change the discovery URL |
| Oidc.AuthorizationUrlSetsOnce | server.js:187-198 | each of the ten parameters occurs exactly once in the authorization URL, whatever the endpoint already carried |
| Oidc.AuthorizationUrl | server.js:187-198 | the authorization URL keeps the endpoint; each of the ten parameters reads as given (`response_type=code`, `code_challenge_method=S256`, `prompt=login`, `max_age=0`); every other existing parameter is kept |
| Oidc.TokenRequestBody | server.js:226-236 | the token form carries grant type, code, redirect URI, client id and verifier (`"undefined"` when there is none); `client_secret` appears only when one is configured; no other field is present and none appears twice (five fields, six with a secret) |
| Oidc.CallbackGate | server.js:211-214 | the gate passes iff code and state are non-empty and the state equals the stored one; a missing code is reported before a bad state |
| Oidc.NoGateWithoutPendingState | server.js:212-221 | once the stored state is deleted, every callback is rejected |
| Oidc.NonceMatches | server.js:279 | the negation of `payload.nonce !== nonce`; it has no contract of its own: `Oidc.NonceMismatchRejected` shows that a missing or different claim fails, and `Server.Server.AcceptTokens` that a failing one gives 401 with no user |
| Oidc.NonceMismatchRejected | server.js:279-281 | a payload without the stored nonce, or with another value, does not match |
| Oidc.IdTokenOf | server.js:251-252 | the ID token is present iff `tokens.id_token` is truthy, and it is that value |
| Oidc.Materialize | server.js:284-289 | the session user holds the payload as claims and the raw ID token; its tokens are the token response without `id_token`, and no other field changes |
| Oidc.LogoutUrl | server.js:323-327 | the logout URL always sets `post_logout_redirect_uri` to the frontend root; it sets `id_token_hint` only for a non-empty hint; all else is kept |
| DeviceAuth.ParseDeviceKeys | server.js:62-65 | every listed key is non-empty; `DeviceAuth.DeviceKeyIsTrimmedSegment` and `DeviceAuth.TrimmedSegmentIsDeviceKey` characterise the list both ways |
| DeviceAuth.KeepNonEmpty | server.js:65 | `.filter(Boolean)` keeps exactly the non-empty strings |
| DeviceAuth.TrimEach | server.js:64 | each part is trimmed, the count is kept |
| DeviceAuth.DeviceKeyIsTrimmedSegment | server.js:62-65 | every listed key is non-empty, trimmed, free of commas, and the trim of some comma-separated segment |
| DeviceAuth.TrimmedSegmentIsDeviceKey | server.js:62-65 | every segment that is non-empty after trimming is listed |
| DeviceAuth.BearerToken | server.js:70-71 | a captured token is non-empty, shorter than the header after `Bearer`, and only follows a header that begins with `Bearer` in any case; `DeviceAuth.BearerTokenSound` and `DeviceAuth.BearerTokenComplete` show it is exactly the regular expression's group |
| DeviceAuth.BearerTokenSound | server.js:69-71 | a captured token is a non-empty suffix of the header, preceded by `Bearer` (any case), whitespace, and no line terminator after it |
| DeviceAuth.BearerTokenComplete | server.js:69-71 | whenever the header matches the pattern at some split, a token is captured; the whitespace run is taken greedily |
| DeviceAuth.BearerOfHeader | server.js:69-71 | `Bearer <token>` yields the token |
| DeviceAuth.DeviceAuthorized | server.js:67-76 | `requireDeviceAuth`'s test, with no contract of its own; `DeviceAuth.AuthorizedHasListedToken` shows what passing means, and `Server.Server.DeviceSnapshot` that failing gives 401 before any store access |
| DeviceAuth.NotModified | server.js:475 | `inm && inm === tag`, with no contract of its own; `Server.Server.DeviceSnapshot` shows that it decides between 304 and 200 |
| DeviceAuth.AuthorizedHasListedToken | server.js:67-76 | a device passes only with a header of the right shape whose token is on the allow-list |
| Board.NewStore | server.js:146-156 | a new store has three empty slots and no events |
| Board.SubjectKey | server.js:145 | the store key is `sub` when it is truthy, `anon` otherwise |
| Board.BoardKey | server.js:80 | the device's store key is `BOARD_USER_SUB` when non-empty, `anon` otherwise |
| Board.AnonymousUsersShareBoard | server.js:80-145 | a user without `sub` shares the store the device reads when `BOARD_USER_SUB` is unset |
| Board.IncomingPerson | server.js:361-363 | the name is the trimmed `name`, or the trimmed `firstname` only when `name` is missing, or `""`; the role is the trimmed `role` or `""` |
| Board.IncomingPersonTrimmed | server.js:362-363 | both stored fields are free of surrounding whitespace |
| Board.SetSlot | server.js:365-379 | the slot becomes the person; the count stays three; the other slots and the events are unchanged; well-formedness is kept |
| Board.ClearOverridesPut | server.js:365-379 | clearing a filled slot is the same as clearing it directly |
| Board.StatusesOn | server.js:428 | the day's list, or `[]` when the table has none for it, with no contract of its own; `Board.AddStatus` and `Board.RemoveStatus` state the updates through it, and `Server.Server.DeviceSnapshot` the `[]` default |
| Board.AddStatus | server.js:406-410 | the day's list gains the status once; an existing status leaves the whole table unchanged; other days are unchanged |
| Board.IndexOf | server.js:429 | the result is -1 iff the value is absent; otherwise it is the first position of the value |
| Board.RemoveFirst | server.js:429-432 | without an occurrence nothing changes; otherwise exactly the first occurrence is removed and the order of the rest is kept |
| Board.RemoveStatus | server.js:428-437 | other days are unchanged; the day keeps its list minus one occurrence, or goes when nothing is left |
| Board.AddStatusWellFormed | server.js:406-410 | adding keeps every list non-empty and free of repeats |
| Board.RemoveStatusWellFormed | server.js:428-437 | removing keeps every list non-empty and free of repeats |
| Board.AddStatusIdempotent | server.js:408-410 | posting the same status twice equals posting it once |
| Board.RemoveStatusRemoves | server.js:428-437 | on a well-formed table the status is gone from the day afterwards |
| Board.RemoveUndoesAdd | server.js:406-437 | removing a status that was just added, where it was absent, restores the table; this holds for any table whose listed days have non-empty lists, so for every well-formed one |
| Server.Discovered | server.js:48-57 | a cached document is kept; without one, a document results iff the response succeeded |
| Server.WithStore | server.js:146-158 | a new subject gets a fresh store; an existing store is returned unchanged; every other store is unchanged |
| Server.Session.IdTokenHint | server.js:318 | the hint exists iff a user is logged in, and it is that user's ID token |
| Server.Server.constructor | server.js:47-65 | the allow-list is parsed once; the cache and the store table start empty |
| Server.Server.GetOidcMeta | server.js:48-57 | a cached document is returned without a fetch; otherwise the well-known URL is fetched once, and only a success is cached; the cache afterwards is `Server.Discovered` of the old cache and the answer |
| Server.Server.EnsureStoreFor | server.js:140-159 | without a user, no store is created (the caller answers 401); otherwise the subject's store exists and nothing else changes |
| Server.Server.GetBoardStore | server.js:79-92 | the device's store exists afterwards; nothing else changes |
| Server.Server.Login | server.js:168-205 | verifier, challenge, state and nonce come from 32, 16 and 16 random bytes; the three pending values are parked in the session; the answer is a redirect to the authorization URL, or 500 when discovery fails or no endpoint is given; the discovery cache is updated as `getOidcMeta` does, and the fetch happens only when it was empty |
| Server.Server.Callback | server.js:208-300 | a rejected gate gives 400 with the session and the discovery cache untouched and no call made; a passed gate deletes the three pending values before any call and updates the discovery cache as `getOidcMeta` does; its calls are exactly the deletion followed by `Server.ExchangeSteps`; 302 happens iff the whole exchange succeeds, and only then is the user stored |
| Server.Server.Exchange | server.js:223-252 | discovery failure or a missing token endpoint give 500; otherwise the code is redeemed at the discovered endpoint: the calls are exactly the discovery fetch when nothing was cached, followed by `Server.RedeemSteps` at the discovered token endpoint with the discovered document (the list `Server.ExchangeSteps` names); the discovery cache is updated as `getOidcMeta` does; the store table is untouched, every token request carries the form, and 302 happens iff discovery, the token answer and the ID token all succeed |
| Server.Server.RedeemCode | server.js:238-249 | the calls are exactly `Server.RedeemSteps`: one POST of the form to the given token endpoint, then, for a JSON answer with a string ID token, one check against the document's issuer and key set; an HTTP error gives 502, an unreadable or missing answer gives 500, and JSON goes on to the ID token checks; the pending values are not touched |
| Server.Server.AcceptTokens | server.js:250-294 | a missing ID token gives 500; a failed verification gives 401; a nonce mismatch gives 401 and no user; otherwise the user is stored and the browser is sent to the frontend; the only call is `Server.VerifySteps`: one check of a string ID token with the discovered issuer and key set, the client id and the allowed algorithms |
| Server.Server.Logout | server.js:315-340 | the session is emptied; the discovery cache is updated as `getOidcMeta` does, and the only call is the discovery fetch when the cache was empty; the answer carries the provider URL only when discovery yields an end-session endpoint, and always the app redirect |
| Server.Server.GetPeople | server.js:345-349 | 401 without a user; otherwise the subject's slots |
| Server.Server.PutPeople | server.js:352-367 | 401 without a user; 400 for a slot outside 1..3, after the store is created; otherwise only that slot changes, to the incoming person |
| Server.Server.WriteSlot | server.js:365-366 | one store's slot is replaced; the answer lists that store's slots |
| Server.Server.DeletePeople | server.js:370-381 | as for PUT, with the slot cleared to empty strings |
| Server.Server.GetEvents | server.js:387-391 | 401 without a user; otherwise the subject's table |
| Server.Server.PostEvents | server.js:394-413 | 401 without a user; 400 when date or status is missing or empty; otherwise the status is added once |
| Server.Server.DeleteEvents | server.js:416-440 | 401 without a user; 400 when date or status is missing or empty; otherwise one occurrence is removed and the empty day is dropped |
| Server.Server.DeviceSnapshot | server.js:460-483 | 401 before any store access for an unauthorised device; otherwise the payload of today's board, with `[]` when today has no statuses and the current time, is hashed; the handler's own test (`inm && inm === tag`) gives 304 with no body iff `If-None-Match` equals the tag, else 200 with the tag and `Cache-Control: no-cache` (Express's own freshness check is listed under "## Left out") |
| Server.Server.ReplayedCallback | server.js:212-221 | a second callback with the same query is answered 400 |
| Server.Server.CallbackAfterLogout | server.js:212-335 | after logout, any callback is answered 400 and no user is logged in |
| Server.ExchangeStepsShape | server.js:223-271 | in the exchange's call list, discovery comes first and only without a cached document; there is at most one token POST, and it goes to the discovered token endpoint; every ID-token check directly follows it and uses the discovered issuer and key set; every call keeps `Server.StepsFollow` |
| Server.ExchangeSteps | server.js:223-271 | the exchange's call list, with no contract of its own; `Server.ExchangeStepsShape` states what it amounts to, and `Server.Server.Callback` (after the deletion) and `Server.Server.Exchange` that the handler makes exactly these calls |
| Server.RedeemSteps | server.js:238-271 | the token POST followed by the ID-token check of a JSON answer, with no contract of its own; `Server.RedeemStepsShape` states its shape |
| Server.RedeemStepsShape | server.js:238-271 | one POST of the form to the given endpoint comes first and is the only one; at most one ID-token check follows, with the document's issuer and key set, the client id and the allowed algorithms |
| Server.VerifySteps | server.js:251-271 | the single `jwt.verify` call for a string ID token, with the document's key set and issuer, with no contract of its own; `Server.Server.AcceptTokens` makes exactly this call |
| Server.StepsFollow | server.js:226-271 | no later step deletes the pending values again; every token request carries the form; every ID-token check uses the client id as audience and the three allowed algorithms |
| Display.CDiv | DisplayManager.cpp:67-83 | C++ integer division truncates toward zero |
| Display.ClearLow3 | DisplayManager.cpp:179-180 | `x & ~7` is the largest multiple of 8 not above `x` |
| Display.MaskRoundsUp | DisplayManager.cpp:180 | `(v + 7) & ~7` rounds `v` up to a multiple of 8 |
| Display.StatusHeight | DisplayManager.cpp:103 | every status height (here and at lines 148, 269 and 292) lies in [34, 60]; it is the gap to the row's end when that gap is in range |
| Display.RowRect | DisplayManager.cpp:83-104 | a row box (as also computed at lines 256-271 and 279-294) starts at the content band's left edge plus the padding, spans the band minus both paddings, and has a clamped height |
| Display.SingleRect | DisplayManager.cpp:66-70 | the single box is 560 by 100 with its top at 270 |
| Display.StandardGeometry | DisplayManager.cpp:237-294 | the standard band is x 121, width 677; it fixes the exact boxes of each layout and of `primeLayout` |
| Display.Display3PrimeDiffersFromDraw | DisplayManager.cpp:147-291 | for Display3 (lines 147 and 291), each primed box is 10 pixels higher than `draw3`'s; the other coordinates are equal and the boxes differ |
| Display.StandardRectsOnScreen | DisplayManager.cpp:245-294 | every box the layouts record lies on the 800 by 480 panel |
| Display.PartialWindow | DisplayManager.cpp:168-187 | no window for an empty box; the left edge is 0 or `x - 8` rounded down to a multiple of 8; the right edge is `x + w + 8` rounded up to a multiple of 8 and capped at the width; the vertical span is `[max(0, y - 2), min(H, y + h + 10))`; the window lies on the panel |
| Display.WindowCoversRect | DisplayManager.cpp:179-187 | for a box on the panel, the window exists and contains the box |
| Display.WindowEmptyIff | DisplayManager.cpp:168-187 | no window exists iff the box is empty or clipping leaves nothing |
| Display.DisplayManager.constructor | DisplayManager.h:53-55 | all boxes and the content band start at zero |
| Display.DisplayManager.SetContentBand | DisplayManager.cpp:237-238 | `contentX = 121`, `contentW = 677` |
| Display.DisplayManager.RecordSingle | DisplayManager.cpp:247-250 | box 0 becomes the single box; the others are unchanged |
| Display.DisplayManager.RecordRows | DisplayManager.cpp:262-295 | the row loop writes box `i` of each row; the others are unchanged |
| Display.DisplayManager.DrawLayout | DisplayManager.cpp:16-162 | the geometry `drawLayout` records for each layout; boxes a layout does not use keep their value |
| Display.DisplayManager.PrimeLayout | DisplayManager.cpp:236-297 | all boxes are zeroed first; Display1 sets box 0 only; Display2 sets the same boxes as `draw2`; Display3 sets boxes at `+ 14` |
| Display.DisplayManager.StatusWindow | DisplayManager.cpp:165-187 | nothing for an index outside 0..2; otherwise exactly the window `PartialWindow` describes |
| Display.DisplayManager.PrimedWindowCovers | DisplayManager.cpp:165-297 | after `primeLayout`, a partial refresh of any used box redraws a window covering the box |
| Rfid.HexByte | RFIDManager.cpp:25-28 | a byte becomes two upper-case hex digits |
| Rfid.Hex | RFIDManager.cpp:24-28 | the text is twice as long as the UID and only holds `0-9A-F` |
| Rfid.HexAt | RFIDManager.cpp:24 | byte `i` is encoded at positions `2i` and `2i + 1`, in index order |
| Rfid.UnhexHex | RFIDManager.cpp:24-28 | reading the text as two-digit hex recovers the bytes |
| Rfid.HexInjective | RFIDManager.cpp:24-28 | different UIDs give different texts |
| Rfid.UpperCasePaddedByte | RFIDManager.cpp:25-28 | the padding `0`, then `String(b, HEX)`, upper-cased, is the byte's two digits |
| Rfid.UpperCase | RFIDManager.cpp:28 | `toUpperCase` upper-cases each ASCII letter and keeps everything else, length included |
| Rfid.ReadUid | RFIDManager.cpp:18-33 | without a card or a serial read, false and `uidOut` unchanged; otherwise true and `uidOut` replaced by the hex text of the UID |
| ConfigPage.InitialPeople | src/ConfigPage.jsx:78-82 | three empty `{name: "", role: ""}` slots |
| ConfigPage.WithField | src/ConfigPage.jsx:33-39 | only `field` of entry `idx` changes, to the value; the length, the other entries and the other fields stay |
| ConfigPage.WithFieldLastWins | src/ConfigPage.jsx:33-39 | two edits of the same field keep only the last |
| ConfigPage.WithFieldCommutes | src/ConfigPage.jsx:33-39 | edits of different fields or slots commute |
| ConfigPage.ConfigPage.constructor | src/ConfigPage.jsx:7-82 | both lists start as three empty slots |
| ConfigPage.ConfigPage.UpdateLocal | src/ConfigPage.jsx:33-39 | `people` gets the single-field update; `devicePeople` is unchanged |
| ConfigPage.HasScheme | src/ConfigPage.jsx:89 | `/^https?:\/\//i`, with no contract of its own; `ConfigPage.NormalizeBaseNeverDoubles` shows that an address that has one is not prefixed again, and `ConfigPage.NormalizeBaseKeepsScheme` that every non-blank result has one |
| ConfigPage.NormalizeBase | src/ConfigPage.jsx:86-91 | the result never ends with `/` |
| ConfigPage.NormalizeBaseEmptyIff | src/ConfigPage.jsx:87-88 | the result is empty iff the address is missing or blank |
| ConfigPage.NormalizeBaseKeepsScheme | src/ConfigPage.jsx:89-90 | the result of a non-blank address begins with `http:` or `https:` |
| ConfigPage.NormalizeBaseNeverDoubles | src/ConfigPage.jsx:87-90 | for an address whose trimmed form already has a scheme, the result is that trimmed form with its trailing slashes removed: a prefix of it, with only `/` cut and no second scheme; without a scheme, it is `http://` plus the trimmed form, stripped |
| ConfigPage.NormalizeBaseOfClean | src/ConfigPage.jsx:87-90 | a trimmed address without trailing slashes only gains its scheme |
| ConfigPage.StateUrlJoin | src/ConfigPage.jsx:94-102 | the request URL has exactly one slash where the base meets `/api/state` |
| ConfigPage.FieldOr | src/ConfigPage.jsx:106-107 | the field of an object when it is truthy, `""` for anything else |
| ConfigPage.DeviceEntry | src/ConfigPage.jsx:105-108 | each entry has exactly `name` and `role`, each taken by the rule above |
| ConfigPage.DeviceEntryEmptyIff | src/ConfigPage.jsx:106-107 | an element maps to an empty slot exactly when neither its `name` nor its `role` is truthy |
| ConfigPage.NormalizeDevicePeople | src/ConfigPage.jsx:105-109 | exactly three entries; the first up to three come from the response, the rest are empty; a non-array truthy `people` throws |
| ConfigPage.ConfigPage.LoadDevicePeople | src/ConfigPage.jsx:104-114 | on success the list is replaced by three slots: the first up to three come from the response's elements, the rest are empty; on a throw it is unchanged; `people` is unchanged |
| Text.Trim | server.js:64 | the result is the input minus a leading and a trailing whitespace run, and neither end is whitespace |
| Text.TrimEmptyIffAllSpace | server.js:64 | the trim is empty iff the text is all whitespace |
| Text.ReplaceChar | server.js:43 | `replace(/x/g, y)` for one character: same length, each `x` becomes `y`, every other character stays |
| Text.StripTrailing | server.js:50 | `replace(/c+$/, '')` removes the whole trailing run of `c` and nothing else |
| Text.Split | server.js:63 | at least one part, none holding the separator |
| Text.JoinSplit | server.js:63 | joining the parts again gives back the input |

## Left out

- Login takes its random bytes with the lengths the source draws: 32 for the verifier, 16 each for state and nonce. Since `Buffer` base64 is a parameter, the 43-character verifier length that RFC 7636 section 4.1 requires is not derived.
- Cryptographic primitives are not modelled: `crypto.randomBytes`, SHA-256, the SHA-1 of `etagFor` and `Buffer` base64 encoding. Random bytes and the provider's answers are method inputs. The three functions are function-typed parameters about which nothing is assumed: `base64`, `sha256` and `etagFor`.
- `jwt.verify` and `jwks-rsa` are not modelled: signature, issuer, audience, expiry and algorithm checks happen inside the library. The model records the audience, issuer and algorithms the check is asked for, and takes its outcome as an input.
- Response headers other than `ETag` and the snapshot's `Cache-Control: no-cache` are not modelled: `Content-Type` and the session cookie are left out.
- Network I/O is not modelled: the discovery fetch, the token POST and the page's `fetch` calls. Their results are inputs.
- `todayYMD` (time zones through `Intl`) and `Date.now()` are not modelled: `/device/snapshot` takes the date string and the time as parameters.
- Server.Server.DeviceSnapshot does not model Express's freshness check inside `res.json` (server.js:482). That check turns the 200 answer into a 304 with an empty body for `If-None-Match: *`, for a comma list that holds the tag, and for the weak form `W/<tag>`, unless the request carries `Cache-Control: no-cache`. The model gives 304 only on the handler's own `===` test (server.js:475) and 200 otherwise. The check belongs to the framework's `fresh` module, not to the repository.
- Express plumbing is not modelled: routing, CORS, the session middleware, `app.listen`, the global error handler and the start-up warning.
- The error path of `session.destroy` (500) is not modelled: the session is simply emptied.
- The `/health`, `/userinfo` and `/me` routes are not modelled. `/health` only reports `NODE_ENV`; `/userinfo` and `/me` only read the session.
- The commented-out device-shadow API (server.js:490-565) is not code, so it is not modelled.
- Concurrency is not modelled: each handler is one atomic step on the shared state. Interleavings of the async handlers are not captured.
- Store aliasing is not represented: the stores are values in the `userStores` map and are written back by reassignment. Nothing in the server keeps a second reference to a store across requests.
- `Number(req.params.slot)` is not modelled: the slot comes in already parsed, with `None` for a segment that is not a number.
- Non-string JSON fields and prototype keys are not modelled.
  - Fields of request bodies that are not strings are not modelled: `.toString()` and `String(...)` conversions are taken to be the identity on strings.
  - Dates that collide with `Object.prototype` names are not modelled either.
- URL parsing and serialisation are not modelled: a URL is its base plus a list of query pairs. The model does not capture `new URL` throwing on a malformed endpoint, nor the percent-encoding of `toString()`. In `/login` such a throw gives 500. In `/logout` it happens inside the `session.destroy` callback (server.js:324), outside the `try`: no response is sent and the promise rejection goes unhandled, which stops the process on current Node versions.
- A token response whose JSON is not an object is not modelled. Neither are array-valued query parameters.
- An unset `CLIENT_ID` or `BOARD_USER_SUB` is the empty string in the model: the configuration holds strings. The source instead sends the literal string `"undefined"` as `client_id` in the authorization URL and the token form (server.js:187, 230), and `jwt.verify` with `audience: undefined` (server.js:269) skips the audience check.
- The firmware's drawing is not modelled: GxEPD2 calls, fonts, `textCenteredInRect` (font metrics), `begin`, `showDatePartial`, the page loops, the separator lines and the text of `draw1`/`draw2`/`draw3`. Only the geometry they record is modelled.
- DisplayManager.cpp:277 holds a stray `()` that does not compile. The block after it is modelled as the Display3 branch of `primeLayout`.
- Inside `showStatusPartial` the panel size comes from `display.width()`/`display.height()`. The model takes it as parameters.
- Display.DisplayManager.StatusWindow does not model 32-bit `int` overflow, because every value involved is a screen coordinate far from the limits.
- The hardware side of the RFID reader is not modelled: `PCD_Init`, `PICC_HaltA`, `PCD_StopCrypto1`, `pinMode` and Serial output. `isCardDetected` is the predicate `Rfid.CardDetected` over the two answers of the reader.
- The page's `people` loading and saving, `fetch` and `localStorage` are not modelled. Neither are the React UI and the rest of `src/` (App.js, MyCalendar.js, header.js).
- ConfigPage.WithField requires `idx` within the array: out-of-range indices, which the page never passes, would make a sparse array.
