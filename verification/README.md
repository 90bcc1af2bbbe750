# Member vault: token capture, renewal and replay

This project models the core of a small FastAPI service that keeps Discord
OAuth token pairs so it can later add the same users back to a guild. The
service has four jobs:

- **Capture.** `GET /callback` exchanges an authorization code for a token
  pair. It then fetches the user with `/users/@me` and upserts one `members`
  row keyed by the Discord user id.
- **Renewal.** `refresh_user_tokens`, started from `POST /admin/sync`,
  selects every row whose `expires_at` falls before `now + 7 days`. It tries
  to refresh each one on its own and counts how many were refreshed and how
  many failed.
- **Replay.** `POST /admin/restore` sends every stored access token to the
  guild-join endpoint. It counts 201 and 204 as restored and everything else
  as failed.
- **Database configuration.** The service defaults `DATABASE_URL`, rewrites
  `postgres://` to `postgresql://`, and picks the SQLite engine when
  "sqlite" appears anywhere in the URL.

Files:

- `wrappers.dfy`: `Option`, for JSON keys that may be missing and for
  environment variables that may be unset.
- `database.dfy` (module `Database`): the `Member` row, the unique-user-id
  invariant, Python's `startswith`, `in` and `replace(…, 1)` on strings,
  URL normalisation and engine choice.
- `vault.dfy` (module `Vault`):
  - the handlers of `main.py`, as methods of the class `MemberStore`, whose
    field `members: map<string, Member>` is the table;
  - the pure functions that specify those methods;
  - the lemmas about those functions.

Every HTTP call to Discord is an input to the model:

- the token endpoint's reply (`TokenReply`: an exception, or a status and
  a JSON body whose keys may be missing);
- the `/users/@me` payload (`UserInfo`);
- for a batch, a function that gives each record's reply (`exchange`,
  `put`).

Time is integer seconds. Each handler reads the clock once, as `now`.

The batch loops iterate over the selected user ids as a set, in an order
the model leaves open, because the query has no `ORDER BY`. Their counters
are specified as cardinalities of id sets. For example, `refreshed` is the
number of selected records whose reply was a full grant with a
representable expiry (`Renews`).

## Behaviour as written

The model follows the code where it differs from what one might expect of
such a vault:

- **Partial writes in renewal** (`main.py:120-123`). A 200 reply whose body
  lacks `refresh_token` raises `KeyError` after `access_token` has already
  been assigned. A body that lacks `expires_in`, or whose `now + expires_in`
  falls outside the datetime range (`OverflowError`), raises after both
  tokens have been assigned. The record counts as failed, yet the batch's
  `commit` at line 131 persists the partial write. `RenewMember` models those
  assignments in order; `PartialWriteOnMissingRefreshToken` and
  `PartialWriteWithoutExpiry` show the results.
- **`last_updated` on re-capture** (`main.py:66-71`). Re-capture does not
  touch `last_updated`. Only the insert default (`database.py:20`) and a
  successful renewal (`main.py:124`) set it. Re-capture also keeps the old
  `avatar`.
- **Callback failures** (`main.py:48-60`). Only a non-200 status from the
  token endpoint shows the 400 "Failed to verify" page. An exception from
  either request, a body that is not JSON, a missing key, or an expiry
  outside the datetime range is not caught,
  so the reply is a server error (`ServerError`). In every one of these
  cases the table is left unchanged, because the session is closed without
  a commit.
- **Engine choice** (`database.py:36`). The choice is a substring test, so a
  PostgreSQL URL whose path contains "sqlite" gets the SQLite engine
  (`SqliteMarkerAnywhere`).

## Model

| member | source | states |
|---|---|---|
| `Database.UniqueUserIds` | database.py:12 | The `unique=True` user-id column: every row of the table sits under its own user id, so no two rows share one. Every handler that writes keeps it. |
| `Database.StartsWith` | database.py:30 | Python's `startswith`: true exactly when the prefix occurs at index 0. |
| `Database.Contains` | database.py:36 | Python's `in` on strings: true exactly when the pattern occurs at some index, anywhere in the string. |
| `Database.FindFrom` | database.py:36 | The result is the leftmost index at or after `from` where the pattern occurs, with no occurrence before it. None means the pattern occurs nowhere from `from` on. This is the search behind Python's `in` and `replace`. |
| `Database.ReplaceFirst` | database.py:31 | `replace(target, replacement, 1)`: the leftmost occurrence (as `FindFrom` finds it) is replaced and everything before and after it is kept, so later occurrences stay as they are. When the string starts with `target`, the result is `replacement` followed by the untouched rest. A string with no occurrence is returned unchanged. |
| `Database.NormalizeUrl` | database.py:30-31 | A URL starting with `postgres://` becomes `postgresql://` followed by the original suffix. Any other URL is left unchanged. |
| `Database.NormalizeIdempotent` | database.py:30-31 | A normalised URL never starts with `postgres://`, so normalising twice gives the same URL as normalising once. |
| `Database.ConfigureEngine` | database.py:27-40 | The engine URL is the normalised `DATABASE_URL`, or `sqlite:///./vault.db` when the variable is unset. The SQLite engine is chosen exactly when "sqlite" occurs at some position of that URL; otherwise the PostgreSQL engine is chosen. Unset gives the SQLite default. |
| `Database.SqliteMarkerAnywhere` | database.py:36-40 | `postgres://db.example/sqlite_archive` gets the SQLite engine. The test is a substring test, not a prefix test. |
| `Vault.InDatetimeRange` | main.py:64 | A timestamp between `datetime.min` and `datetime.max`; adding a `timedelta` that leaves this range raises `OverflowError`, both at capture (line 64) and at renewal (line 123). |
| `Vault.IsFullGrant` | main.py:119-123 | A token reply with status 200, a JSON body, and all three keys `access_token`, `refresh_token` and `expires_in` present. |
| `Vault.Renews` | main.py:119-125 | The renewal success condition: a full grant whose `now + expires_in` is representable, so the loop reaches `refreshed += 1` without an exception. |
| `Vault.CaptureMember` | main.py:48-84 | A non-200 exchange gives the failure page and writes nothing. A token request that raised gives a server error and writes nothing. Every other failure writes nothing either. Conversely, a full 200 grant for a user with an id, a username, a representable expiry and, on a first capture, an avatar key, is captured. On success exactly one record sits under the user's id, carrying the new tokens, `expires_at = now + expires_in`, the username and the client address, and every other record is unchanged. Re-capture changes only those five fields. A first capture inserts the avatar, no discriminator and `last_updated = now`. The unique-user-id invariant is kept. |
| `Vault.RecaptureKeepsOneRecord` | main.py:63-82 | Two successful captures of the same user leave the same key set and the same number of records. The record carries the second grant's tokens, expiry and username, and the first capture's avatar and `last_updated`. |
| `Vault.CaptureScenario` | main.py:50-84 | Tokens "A1" and "R1" valid for 604800 seconds, captured at time `t` from 1.2.3.4, are stored with `expires_at = t + 604800` and the success page is shown. |
| `Vault.MemberStore.Callback` | main.py:37-86 | The handler's response and the new table are those given by `CaptureMember` on the old table. The unique-user-id invariant is kept. |
| `Vault.RenewMember` | main.py:117-129 | A full 200 grant with a representable expiry replaces both tokens and sets `expires_at = now + expires_in` and `last_updated = now`, using the batch clock. Any failure keeps `expires_at` and `last_updated`. An exception, a non-200 status, a non-JSON body or a missing access token leave the record identical. Nothing but the two tokens, `expires_at` and `last_updated` can ever change. |
| `Vault.ExpiringSoon` | main.py:102-104 | The batch's selection: the ids of the records whose `expires_at` is strictly before `now` plus seven days, with one `now` for the whole batch. |
| `Vault.WindowPolicy` | main.py:102-104 | A record expiring six days ahead is selected. Records expiring exactly seven or eight days ahead are not, because the comparison is strict. |
| `Vault.CountsPartitionSelection` | main.py:106-129 | The refreshed ids and the failed ids are disjoint, and together they are exactly the selected ids, so `refreshed + failed` equals the number of selected records. |
| `Vault.RenewalIsolation` | main.py:109-131 | A batch keeps the key set. What it does to a record depends only on that record and its own reply, so it is the same as renewing that record alone. Unselected records are untouched. An exception or a non-200 status leaves the record unchanged. A refreshed record carries both new tokens, the new expiry and `last_updated = now`. |
| `Vault.RenewalKeepsUniqueIds` | main.py:119-124 | Renewal never changes a user id, so the unique constraint still holds after a batch. |
| `Vault.PartialWriteOnMissingRefreshToken` | main.py:120-123 | A 200 reply without `refresh_token` leaves the record counted as failed. Its access token has nevertheless been replaced, while the old refresh token and expiry remain. |
| `Vault.PartialWriteWithoutExpiry` | main.py:121-123 | A 200 reply with both tokens but no `expires_in`, or with an expiry outside the datetime range, counts as failed, yet the record ends up with both new tokens and its old expiry and `last_updated`. |
| `Vault.MemberStore.RefreshUserTokens` | main.py:98-132 | The new table is `RenewedStore` of the old one. `refreshed` is the number of selected records whose reply renews them (`Renews`). `failed` is the number of the remaining selected records. The two add up to the number of records expiring before `now + 7 days`. The unique-user-id invariant is kept. |
| `Vault.MemberStore.AdminPanel` | main.py:90-96 | A missing or wrong password gives Unauthorized. Otherwise the dashboard gets every record and their number. The method cannot modify the table. |
| `Vault.MemberStore.SyncTokens` | main.py:134-140 | A wrong password gives Unauthorized and leaves the table unchanged. The right password starts a batch, which leaves the table as `RenewedStore` describes, and the response is an acknowledgement. |
| `Vault.IsRestored` | main.py:164-169 | A guild-join reply counts as restored exactly when it is a status of 201 or 204; any other status, or an exception, is a failure. |
| `Vault.MemberStore.RestoreMembers` | main.py:142-171 | A wrong password gives Unauthorized. Otherwise `restored` counts the records whose reply was 201 or 204, `failed` counts all the others, and the two add up to the number of records. The method cannot modify the table. |

## Left out

- The FastAPI app is not modelled. This covers the routes' HTTP plumbing,
  the Jinja templates, static mounting, the landing page and the `/login`
  redirect URL (`main.py:12-35`). They are presentation only.
- The `requests` calls to Discord are left out, with their headers, client
  id, client secret, redirect URI and bot token (`main.py:40-48`, 59, 110-118,
  152-163). Their outcomes are model inputs instead. In the two batches the
  requests carry `timeout=5`, and a timeout is one more exception.
- The SQLAlchemy session, `commit`, `get_db`, `init_db` and `create_all` are
  not modelled (`main.py:19-24`, `database.py:42-49`). The table is a map
  keyed by user id. The surrogate integer primary key `id` and the row order
  are not modelled.
- `BackgroundTasks` dispatch (`main.py:139`): `SyncTokens` runs the batch
  to completion before it acknowledges. The batch's counts are discarded,
  as in the source.
- The callback's two requests (`main.py:48`, 59) pass no timeout and can
  block indefinitely. The model gives every request an outcome, so it does
  not capture a callback that never returns.
- Concurrent batches and a capture racing a renewal are not modelled. Every
  handler is one sequential step on the table.
- `config.py` is not modelled. The admin password is a parameter.
- `print` logging, `load_dotenv` and the `uvicorn` startup are not modelled.
- The wall clock is not modelled. `now` is an integer-seconds parameter,
  read once per handler. The insert default for `last_updated` takes the
  same `now`, while the source reads the clock again when the row is
  flushed. Sub-second precision is dropped, so the datetime-range test can
  differ from the source within one second of `datetime.max`.
- Payload types are simplified. `expires_in` is an integer. Token values and
  `id` are strings. A JSON field of the wrong type, a JSON body that is not
  an object, and a request with no client address are not modelled.
- AdminPanel: the dashboard rows are returned as a set of records. The list
  order and the password echoed into the template are not modelled.
- AdminPanel, SyncTokens and RestoreMembers: "no store read and no external
  call before the gate" cannot be written as a contract on a method. The
  contracts state only that a wrong password returns Unauthorized, changes
  nothing and runs no batch.
