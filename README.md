# Captcha token service — issuing and checking tokens

This project models the two API routes at the heart of the captcha service:

- `POST /api/captcha/generateToken` draws 32 random bytes and hex-encodes them into a
  64-character token. It records the client's address and user agent, and inserts a row
  into the `captcha_tokens` table. It answers 201 with the row's id, token and expiry.
  The table's `token` column is UNIQUE. When the insert fails on that constraint, the
  handler draws a new token, up to three attempts in all. Any other failure, or a third
  collision, answers 500 with the database's message. Other methods get 405 with
  `Allow: POST`.
- `GET|POST /api/captcha/check` reads the token from the query (GET) or the body (POST).
  It answers 200 with the row's `solved` flag, 200 `false` when there is no such row or
  the lookup reports an error, 400 when the token is missing or not a string, 500 when
  the lookup throws, and 405 for other methods.

Layout:

- `common.dfy`: `Option` and `Result`.
- `text.dfy`: the JavaScript string operations the handlers use.
  - `split(',')[0]` and `trim()`, with the ECMAScript white-space set.
  - A case-insensitive regular-expression test.
  - `Buffer.toString('hex')` and its inverse.
- `http.dfy`: requests and responses.
- `store.dfy`: the table. It has rows, the insert as a function (`InsertRow`) and the live
  table as a class (`TokenTable`) whose `Insert` method updates it in place.
- `generate_token.dfy`: the issuing route.
  - `Generate` and `Attempts` are the specification functions.
  - The `Handler` method and its retry loop `InsertWithRetries` work on a `TokenTable`.
    They are proved to produce exactly what `Generate` says.
- `check.dfy`: the check route. It is a pure function of the request, the table and the
  lookup's failure mode.
- `issue_then_check.dfy`: how the two routes meet on the shared table.

In `pages/api/captcha/check.js` the comment at line 28 says a solved token answers
`false`. The code at line 29 returns `Boolean(data.solved)`, which is `true` for a solved
token. The model follows the code: `CheckApi.Check` answers `true` exactly for a stored,
solved token.

## Model

| member | source | states |
|---|---|---|
| Text.FirstSegment | pages/api/captcha/generateToken.js:20 | `split(',')[0]`: the result is a prefix of the input and contains no comma. It is followed by a comma or by the end of the input. |
| Text.FirstSegmentOfJoin | pages/api/captcha/generateToken.js:20 | Whatever follows the first comma has no effect on the first segment. |
| Text.Trim | pages/api/captcha/generateToken.js:20 | `trim()`: the result is a slice of the input with only ECMAScript white space or line terminators around it and none at either end. It is empty exactly when the input is blank. |
| Text.TrimOfUnique | pages/api/captcha/generateToken.js:20 | At most one string fits that description, so it pins down `trim()` completely. |
| Text.ContainsIgnoringCase | pages/api/captcha/generateToken.js:55 | The `/…/i` test: true if and only if the pattern occurs at some position, ignoring ASCII case. |
| Text.HexEncode | pages/api/captcha/generateToken.js:7 | `toString('hex')` gives exactly two lower-case hex digits per byte. |
| Text.HexRoundTrip | pages/api/captcha/generateToken.js:6-7 | Decoding the hex text gives back the bytes. |
| Text.HexEncodeInjective | pages/api/captcha/generateToken.js:7 | Different byte strings give different hex strings. |
| Store.InsertRow | pages/api/captcha/generateToken.js:39-43 | The insert succeeds if and only if the database raises no other fault and the token is not yet in the table. On success, exactly the new row is added under its token, unsolved and expiring 15 minutes after `now`. A failure leaves the table unchanged. A taken token fails with the unique-constraint error. The table stays keyed by token. |
| Store.TokenTable.constructor | pages/docs.jsx:42-51 | A new table is empty and keyed by token. |
| Store.TokenTable.Insert | pages/api/captcha/generateToken.js:39-43 | The in-place insert returns the result `InsertRow` gives and leaves the table as `InsertRow` says. It logs the payload and keeps the table keyed. |
| GenerateTokenApi.GenerateToken | pages/api/captcha/generateToken.js:5-8 | A token is 64 lower-case hex characters. |
| GenerateTokenApi.GenerateTokenDecodes | pages/api/captcha/generateToken.js:5-8 | The random draw can be read back from its token. |
| GenerateTokenApi.TokensDifferForDifferentDraws | pages/api/captcha/generateToken.js:4-7 | Different draws give different tokens, so a collision needs a repeated draw. |
| GenerateTokenApi.ClientIp | pages/api/captcha/generateToken.js:19-20 | The address is null exactly when the first comma-separated entry is blank. Otherwise it is that entry, trimmed: non-empty and without a comma. |
| GenerateTokenApi.ClientIpIgnoresLaterHops | pages/api/captcha/generateToken.js:20 | Only the first hop of `x-forwarded-for` counts. |
| GenerateTokenApi.ClientIpPrefersForwardedFor | pages/api/captcha/generateToken.js:19 | A non-empty `x-forwarded-for` header wins over the socket address. |
| GenerateTokenApi.IsUniqueViolation | pages/api/captcha/generateToken.js:54-55 | A failure is retried if and only if its message is a string that contains "duplicate key" or "unique constraint", in any ASCII case. |
| GenerateTokenApi.TokenCollisionIsUniqueViolation | pages/api/captcha/generateToken.js:53-55 | The error the table raises for a taken token is one the handler classifies as retryable. |
| GenerateTokenApi.Attempts | pages/api/captcha/generateToken.js:28-29 | The loop makes at most three attempts. |
| GenerateTokenApi.AttemptsEffect | pages/api/captcha/generateToken.js:29-59 | The loop ends in either of two ways. (1) 201 with `Cache-Control: no-store`, for a token that was absent before. The table gains exactly that row. The row holds the returned id and token and the request's `ip_address` and `user_agent`. It was created at `now`, is unsolved, and expires 15 minutes later. The token is 64 lower-case hex characters. (2) 500 "Failed to create token", with the table unchanged. |
| GenerateTokenApi.IssueKeepsKeyed | pages/api/captcha/generateToken.js:39-51 | Such an outcome keeps every row under its own token. |
| GenerateTokenApi.Generate | pages/api/captcha/generateToken.js:10-14 | A method other than POST gets 405 "Method Not Allowed" with `Allow: POST` and no `Cache-Control`. No attempt is made and the table is unchanged. A POST makes one to three attempts. |
| GenerateTokenApi.GenerateEffect | pages/api/captcha/generateToken.js:16-59 | A POST either adds exactly one fresh, unsolved row (201) or leaves the table alone (500). The new row records the request's client address (`ClientIp`) and user agent. The table stays keyed by token. |
| GenerateTokenApi.AttemptsTrace | pages/api/captcha/generateToken.js:29-59 | Every attempt before the last failed on the token constraint. The last attempt is not retried. The answer is 201 exactly when the last attempt succeeded. A 500 carries `details` taken from the last error (`error.message \|\| error`). |
| GenerateTokenApi.GenerateOutcomes | pages/api/captcha/generateToken.js:28-63 | A POST ends in exactly one of three ways: 201 after a successful insert; 500 at once on a failure that is not a token collision; or 500 after the third collision. |
| GenerateTokenApi.FreshFirstDrawSucceeds | pages/api/captcha/generateToken.js:29-51 | When the first token is free and the database raises nothing, the first attempt answers 201. |
| GenerateTokenApi.Handler | pages/api/captcha/generateToken.js:10-64 | The handler's response and the table afterwards are those `Generate` specifies. It makes as many insert calls as `Generate` counts attempts. It keeps the table keyed. |
| GenerateTokenApi.InsertWithRetries | pages/api/captcha/generateToken.js:28-63 | The retry loop produces exactly the response, table and attempt count of `Attempts`. The final "Unexpected error" return is proved unreachable. |
| CheckApi.TokenOf | pages/api/captcha/check.js:9-14 | The parameter is accepted if and only if it is a non-empty string, and then it is that string. |
| CheckApi.Check | pages/api/captcha/check.js:3-32 | Status 405 "Method Not Allowed" (with `Allow: GET, POST`) if and only if the method is neither GET nor POST. Otherwise 400 "Missing token" if and only if the token is not a non-empty string. Otherwise 500 "Server error" if and only if the lookup throws. Every other answer is 200 with a boolean. That boolean is `true` if and only if the token's row exists, the lookup succeeds and the row is solved. |
| CheckApi.CheckReportsStoredFlag | pages/api/captcha/check.js:16-29 | A stored token answers 200 with its row's `solved` flag. |
| CheckApi.CheckFalseWithoutRow | pages/api/captcha/check.js:23-26 | A token without a row, or a lookup that reports an error, answers 200 `false`. |
| CheckApi.CheckReadsOnlyItsRow | pages/api/captcha/check.js:16-21 | The answer depends on the table only through whether the requested token has a row and that row's `solved` flag. |
| IssueThenCheck.IssuedTokenChecksUnsolved | pages/api/captcha/check.js:16-29 | A token the issuing route has just returned is reported as not solved, whether it is checked by GET or by POST. |
| IssueThenCheck.IssueLeavesOtherChecksAlone | pages/api/captcha/check.js:16-21 | Issuing a token changes no answer the check route gives for any other token. |

## Left out

- Randomness: `randomBytes(32)` is a parameter. Each attempt gets its 32 bytes from a `Draw`. Cryptographic strength is not modelled.
- Generate: requires a sequence of at least three draws. The real handler asks for a new draw only when it retries, and three draws cover every run.
- GenerateToken: only the default size of 32 bytes is modelled, because the handler never passes another size.
- Database-assigned values are parameters: the UUID `id` comes from each `Draw`, and the clock is `now`. Times are integer seconds, not ISO timestamps, and JSON serialisation of the bodies is not modelled.
- Database failures other than the token constraint are an opaque per-attempt `fault`. Examples are a lost connection, a refused row, or an `ip_address` that is not a valid INET value. The model does not say which inputs cause them.
- `created_at` is set to `now`; `solved_at` starts absent.
- The commented-out TTL parameter (generateToken.js lines 23-25 and 36) is not modelled.
- Concurrency: each request is applied to the table atomically. Interleaved requests are not modelled.
- Header values are strings. A header sent several times is taken as already joined by the HTTP layer, so the array form that `toString()` would flatten is not modelled.
- DetailsOf: a `message` that is not a string is treated as absent, so `details` falls back to the whole error. The source would return such a message itself when it is truthy.
- The check route's lookup failures are reduced to `LookupFault`: it reports an error, or it throws. "No data without an error" behaves like a missing row.
- The supabase client (lib/supabaseClient.js) is not part of this model. The other routes are not part of it either: solve, revoke, status, exist and forceRemove under pages/api/captcha, the captcha page and the docs page.
