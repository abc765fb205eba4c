# Bluestock backend: credentials, password reset and the IPO table

A Dafny model of `backend/index.js`, the Express server of the Bluestock IPO
tracker. Two MySQL tables sit behind its routes. The first is `users`:
signup, login, forgot-password and reset-password work on it. The second is
`ipo_info`: registration, listing, delete by id and gain/loss statistics work
on it. Every route runs one or a few parameterised SQL statements.

In the model, both tables are sequences of rows held in primary-key order by
the class `Backend.Store`, next to their auto-increment counters. Each SQL
statement is a function on those sequences (module `Users` for `users`,
module `Ipos` for `ipo_info`):

- a `SELECT ... WHERE` is a filter;
- an `INSERT` is an append;
- an `UPDATE ... WHERE` is a pointwise rewrite;
- a `DELETE ... WHERE` is a removal.

Each route handler is a method of the store that returns a `Http.Response`:
a status code, the `success` flag, the message and the JSON payload. Request
bodies are datatypes whose fields are `Option`s. `Requests.Truthy` stands for
JavaScript's `!x`: a field counts as missing when it is absent, null or
empty.

The store's invariant `Valid()` says three things. Ids are positive. Ids
increase along each table and stay below the next auto-increment value. A
user's reset token and its expiry are both set or both NULL. Every handler
keeps this invariant.

Foreign pieces are inputs or small models:

- **bcrypt** (module `Bcrypt`). `Hash(password, salt)` takes as an argument the
  salt that bcrypt draws at random. It lays out the cost prefix `$2a$10$`, the
  22-character salt and a digest. `Compare` fails closed on malformed input.
  The contract of `Hash` says that the hash is never the raw password and that
  `Compare` accepts it for exactly that password. The digest is modelled as
  the password itself, so the model is not one-way.
- **`crypto.randomBytes(32).toString('hex')`** (module `Hex`). The 32 random
  bytes are an input. Their lower-case hex encoding is modelled and proved
  invertible, so a token is 64 hex characters and determines its bytes.
- **`Date.now()` and MySQL `NOW()`**: one parameter `now`, in milliseconds,
  per request.
- **A thrown store or hashing error** (every `catch` that answers 500): a
  parameter `fault`. Each handler writes at most once, as its last statement,
  so a fault leaves both tables unchanged.

Where the code departs from the documented design, the model follows the code:

- Signup never checks whether the email is already registered. It appends a
  second row, and login and forgot-password then use the first row or all
  rows with that email. A unique key in the schema would make such an insert
  fail, which is the `fault` outcome.
- The reset-password `UPDATE` clears the token on every row holding it,
  whether that row's expiry has passed or not. The preceding `SELECT` only
  requires one live row.

## Model

| member | source | states |
|---|---|---|
| `Backend.Store.Signup` | backend/index.js:27-48 | a missing or empty name, email or password gives 400 "All fields are required" and leaves `users` alone; a fault gives 500; otherwise exactly one row is appended, under the next id, with password `Hash(password)` (never the raw password) and no token pair, and the answer is 201; the invariant is kept |
| `Backend.Store.RegisterIpo` | backend/index.js:51-90 | any of company_name, price_band, issue_size, issue_type, status missing or empty gives 400 and inserts nothing; otherwise one row with all sixteen fields is appended under the next id and 201 returns that id |
| `Backend.Store.ListIpos` | backend/index.js:93-106 | without a fault, 404 "No IPOs found" exactly when the table is empty, otherwise 200 with every row |
| `Backend.Store.DeleteIpo` | backend/index.js:109-124 | the new table is the old one without rows of that id; 404 exactly when no row had the id, otherwise 200 and the table lost exactly that one row, the rest in order |
| `Backend.Store.IpoStats` | backend/index.js:126-147 | 200 with total = number of rows, gain = rows with listing_gain > 0, loss = rows with listing_gain < 0, gain + loss <= total, and 0/0/0 on an empty table |
| `Backend.Store.Login` | backend/index.js:149-187 | missing field gives 400; an unknown email and a wrong password for the first row with that email both give the very same 401 "Invalid email or password" response; success gives 200 with only id, name and email of that first row; the store is not modified |
| `Backend.Store.ForgotPassword` | backend/index.js:190-228 | empty email gives 400; 404 exactly when no row has the email, and then nothing changes; otherwise every row with the email gets the token and expiry now + 3600000 together (overwriting any earlier pair), and 200 returns the 64-character token as debug_token |
| `Backend.Store.ResetPassword` | backend/index.js:231-264 | missing field gives 400; 200 exactly when some row holds the token with expiry later than now; otherwise 400 "Invalid or expired reset token" and the store is unchanged, so an expired token stays in place; on success every row holding the token gets `Hash(newPassword)` and a cleared pair, other rows are untouched, and no row holds the token any more |
| `Hex.Encode` | backend/index.js:206 | two lower-case hex digits per byte |
| `Hex.Digit` | backend/index.js:206 | a nibble becomes a lower-case hex digit that reads back as the same nibble |
| `Hex.DigitValue` | backend/index.js:206 | exactly the lower-case hex digits have a value, and it is below 16 |
| `Hex.DecodeEncode` | backend/index.js:206 | decoding the hex encoding gives back the bytes |
| `Hex.EncodeInjective` | backend/index.js:206 | distinct random bytes give distinct tokens |
| `Hex.Token` | backend/index.js:206 | a reset token is 64 lower-case hex characters and decodes to its 32 random bytes |
| `Bcrypt.Hash` | backend/index.js:36 | the stored hash differs from the password, and `Compare` accepts it for that password and for no other |
| `Bcrypt.SaltsSeparate` | backend/index.js:250 | hashing one password with two different salts gives two different hashes |
| `Users.AppendKeepsWellFormed` | backend/index.js:37-40 | a signup row under the next id with no token pair keeps ids increasing and pairs consistent |
| `Users.FirstWithEmail` | backend/index.js:166 | the index of the first row with the email: its email matches, no earlier row's does, and None exactly when no row has it |
| `Users.WithEmail` | backend/index.js:160 | the rows with the email; empty exactly when there is no first match, and its head is the first matching row |
| `Users.WithLiveToken` | backend/index.js:240-243 | exactly the rows that hold the token with an expiry later than now |
| `Users.SetResetToken` | backend/index.js:210-213 | rows with the email get the new token pair, whatever they held before; other rows are unchanged; length kept |
| `Users.ClearResetToken` | backend/index.js:253-256 | rows holding the token get the new hash and a cleared pair; other rows are unchanged; length kept |
| `Users.ClearedTokenIsDead` | backend/index.js:253-256 | after the clearing update no row holds the token, so it is live at no later time: a reset token is single-use |
| `Users.SetResetTokenKeepsWellFormed` | backend/index.js:210-213 | setting a token pair keeps ids and sets token and expiry together |
| `Users.ClearResetTokenKeepsWellFormed` | backend/index.js:253-256 | clearing a token pair keeps ids and clears token and expiry together |
| `Users.SignupKeepsFirst` | backend/index.js:37-40 | a row appended for an email that is already registered leaves the earlier row as the first match |
| `Users.HoldsLiveToken` | backend/index.js:241 | holds iff the row's reset token is the given token and its expiry is set and later than now |
| `Users.SummaryOf` | backend/index.js:177-181 | the login payload: the row's id, name and email, and no password hash or token |
| `Requests.Truthy` | backend/index.js:31 | holds iff the field is present, not null and not the empty string (the negation of JavaScript's `!x` on a string) |
| `Requests.SignupComplete` | backend/index.js:31 | holds iff name, email and password are all present and non-empty |
| `Requests.IpoComplete` | backend/index.js:62 | holds iff company_name, price_band, issue_size, issue_type and status are all present and non-empty |
| `Requests.LoginComplete` | backend/index.js:154 | holds iff email and password are both present and non-empty |
| `Requests.ForgotComplete` | backend/index.js:193 | holds iff email is present and non-empty |
| `Requests.ResetComplete` | backend/index.js:234 | holds iff token and newPassword are both present and non-empty |
| `Bcrypt.Compare` | backend/index.js:167 | holds iff the hash has the `$2a$10$` prefix, a 22-character salt and a digest that matches the password; false on any malformed hash |
| `Ipos.CountGain` | backend/index.js:132 | the number of rows whose listing_gain is set and positive; NULL is not counted |
| `Ipos.CountLoss` | backend/index.js:135 | the number of rows whose listing_gain is set and negative; NULL is not counted |
| `Users.FirstWithEmailFollowsEmails` | backend/index.js:160-166 | tables with the same emails row by row have the same first row for every email |
| `Users.SignupIsFound` | backend/index.js:37-40 | a row appended for an email no row had is the first row a login for that email finds |
| `Users.ResetChangesLogin` | backend/index.js:253-256 | after a reset through a token held by the first row for an email, that row is still the first, and its hash accepts the new password and no other |
| `Users.ForgotMakesTokenLive` | backend/index.js:206-213 | after forgot-password, the first row for the email holds the new token, live until the expiry, and a reset finds it |
| `Users.ForgotSupersedes` | backend/index.js:210-213 | a second forgot-password with a different token leaves the earlier token live on no row |
| `Ipos.RemoveId` | backend/index.js:113 | the rows without that id; the table itself when no row has it |
| `Ipos.RemoveOnlyThatRow` | backend/index.js:113-119 | with unique ids, deleting row k's id removes row k and keeps the rest in order |
| `Ipos.DeleteCases` | backend/index.js:113-119 | the affected-row count is zero exactly when no row had the id; otherwise one row was removed; the table stays well formed |
| `Ipos.DropKeepsWellFormed` | backend/index.js:113 | removing one row keeps ids increasing |
| `Ipos.AppendKeepsWellFormed` | backend/index.js:82 | a row under the next id keeps ids increasing |
| `Ipos.StatsPartition` | backend/index.js:129-135 | every row is exactly one of gain, loss, or zero/NULL, so gain + loss + rest = total and gain + loss <= total |
| `Ipos.CountsAppend` | backend/index.js:129-135 | registering one row raises gain or loss by that row's own sign only |
| `Ipos.CountsRemove` | backend/index.js:129-135 | deleting never raises the gain or loss count |
| `Scenarios.AliceScenario` | backend/index.js:27-264 | signup, right login, wrong login, forgot, reset, login with old password, login with new password give 201, 200, 401, 200, 200, 401, 200 |
| `Scenarios.AliceSignsUp` | backend/index.js:27-187 | the first half of that scenario on an empty store |
| `Scenarios.AliceResets` | backend/index.js:190-264 | the second half, from the store that signup left |
| `Scenarios.StatsScenario` | backend/index.js:126-147 | stats of an empty table are 0/0/0, and 2/1/1 after registering a listing with gain 5 and one with gain -2 |
| `Scenarios.SignupThenLogin` | backend/index.js:27-187 | for any non-empty name, password and unregistered email, signup gives 201 and login with that password gives 200 with the new id, that name and that email |
| `Scenarios.DuplicateSignupCannotLogin` | backend/index.js:27-187 | signup with an already registered email still gives 201, but login with the new password gives the 401 response whenever the earlier row's hash rejects it |
| `Scenarios.TokenIsSingleUse` | backend/index.js:231-264 | once a reset with a token succeeded, a second reset with it is refused with 400 at any time |
| `Scenarios.ForgotResetLogin` | backend/index.js:190-264 | for any registered email, forgot-password and then a reset within the hour let the new password log in as that user and turn the old password away with 401 |

## Left out

- Express, body-parser and CORS wiring, `app.listen`, and the port constant (backend/index.js:1-13, 279-281): HTTP plumbing.
- The MySQL pool configuration and the SIGINT drain-and-exit (backend/index.js:16-24, 267-276): I/O and process lifecycle.
- All `console.log` and `console.error` output: it has no effect on behaviour.
- Row order of a `SELECT` without `ORDER BY`: the model takes primary-key order. Login takes `users[0]` (backend/index.js:160, 166) and `GET /registerIpo` returns `rows` (backend/index.js:95, 101) in that order; MySQL does not promise it.
- Concurrency between requests: each handler is one atomic step. In the source, the three counting queries of `/ipo-stats` are separate statements. So are the `SELECT` and the `UPDATE` of forgot-password and of reset-password. A concurrent request could interleave between them.
- Why a statement throws: any thrown error is the `fault` input. The model also does not capture that a failed insert may still use up an auto-increment value.
- `Bcrypt.Hash`: does not model bcrypt's one-way digest, its cost, or its cut-off at 72 bytes. The model is an ideal hash: it accepts exactly its own password.
- SQL string comparison is exact equality in the model. With MySQL's default collation, `email = ?` and `reset_token = ?` ignore letter case.
- Time is an integer count of milliseconds. The model does not capture DATETIME rounding to whole seconds, time zones, or skew between the server clock and the database clock.
- `Backend.Store.DeleteIpo`: the path parameter is taken as an integer. MySQL's conversion of a non-numeric string id is not modelled.
- Fields that are not strings: JSON numbers and booleans in a request body are not modelled, so JavaScript's falsy `0` and `false` are not modelled either. `listing_gain` is an optional integer, because `/ipo-stats` only looks at its sign. The other figures are kept as uninterpreted strings.
- The mysql2 driver refuses `undefined` bind values. The model treats a missing optional IPO field as NULL.
- Columns that are not email, password or token in `users` (e.g. creation timestamps): the schema is not part of this model.
