# Account store of the work-distributor server

The server in `main.py` keeps a `users` table and answers three form posts
against it:

- `/signup` inserts a new account under a username that must not be taken.
  It stores the SHA-256 digest of the password, role 2 and `approved = false`.
- `/approve_user` sets one account's `approved` flag. The approver must be an
  existing account that is approved and has role 1.
- `/login` looks the username up, then checks the account is approved, then
  compares the stored digest with the digest of the given password. On
  success it returns the username, role and name.

The model has three modules:

- `Accounts` (accounts.dfy) holds the row type, the table (a map from
  username to row), the error outcomes and the three handlers as functions.
  Each function's contract states the handler's outcome and the exact new
  table.
- `Server` (store.dfy) holds the class `UserStore`, which keeps the table in a
  mutable field. Its methods run the handlers step by step: sign-up inserts,
  approval updates one row in place, and login only reads. Each method is
  proved against the matching `Accounts` function.
- `History` (history.dfy) replays any sequence of requests and proves what
  holds across all of them. Usernames stay unique. No account is removed.
  No account's digest, name, phone or role ever changes. Approval is never
  withdrawn. The set of role-1 accounts is fixed. A login that succeeds keeps
  succeeding.

The password digest is the parameter `hash` (a Dafny function value). It is
deterministic, and nothing else about its output is assumed. The rows already
in the database file when the server starts are a parameter of the
`UserStore` constructor.

Facts about the code that the model keeps:

- A duplicate sign-up is HTTP 400.
- There is no bootstrap administrator: no handler ever gives an account
  role 1. Roles are plain integers.
- The unknown-user, unapproved and bad-password logins are all HTTP 401.
  They stay three distinct errors here, as their detail strings are distinct.

One consequence of the code is proved as `History.NoApproverStaysSo`. Start
from a table with no approved role-1 account, for example the empty table.
Then no sequence of requests ever approves anyone. An approver has to be put
into the database by other means.

The model handles requests one at a time, each against the table the
previous one left. This is a modelling choice; the server itself may run
requests concurrently (see "Left out").

## Model

| member | source | states |
|---|---|---|
| `Accounts.KeyedByUsername` | main.py:25 | a table whose rows are stored under their own usernames has no two rows with the same username |
| `Accounts.NewUser` | main.py:41-42 | the inserted row carries the given username, name and phone, the digest of the password, role 2 and `approved = false` |
| `Accounts.Signup` | main.py:36-45 | fails with Duplicate exactly when the username is taken; otherwise adds exactly one row (keys grow by that username, size by one), the new row is the sign-up row, and every other row is unchanged |
| `Accounts.IsApprover` | main.py:50 | on a table keyed by username, the key lookup agrees with the query for a row with that username, `approved` true and role 1 |
| `Accounts.Approve` | main.py:47-58 | Forbidden exactly when the approver is not an approved role-1 account (checked first); NotFound exactly when the approver is valid and the target is missing; otherwise only the target's `approved` becomes true, the same keys remain, and no other row changes |
| `Accounts.Login` | main.py:60-71 | succeeds iff the user exists, is approved and the stored digest equals the digest of the password; on success returns username, role and name; every failure is one of the three login errors |
| `Accounts.LoginRejectionOrder` | main.py:63-70 | an unknown username fails as UnknownUser and an unapproved account as Unapproved for every password; an approved account with a non-matching digest fails as BadPassword |
| `Accounts.QueryIsLookup` | main.py:39 | on a table keyed by username, the `filter_by(username=…)` query finds a row iff the name is a key, and it finds that key's row |
| `Accounts.SignupKeepsKeying` | main.py:39-44 | a successful sign-up keeps every row stored under its own username |
| `Accounts.ApproveKeepsKeying` | main.py:53-57 | a successful approval keeps every row stored under its own username |
| `Accounts.ApproveIdempotent` | main.py:50-57 | approving the same user again with the same approver succeeds and leaves the table as the first approval left it |
| `Server.UserStore.constructor` | main.py:17-20 | the store opens on the rows already in the database file and the shared digest function |
| `Server.UserStore.SignUp` | main.py:36-45 | the outcome and the new table are those of `Accounts.Signup`; a refused sign-up leaves the table unchanged; the table stays keyed by username |
| `Server.UserStore.ApproveUser` | main.py:47-58 | the outcome and the new table are those of `Accounts.Approve`; a refused approval leaves the table unchanged; the table stays keyed by username |
| `Server.UserStore.LogIn` | main.py:60-71 | does not modify the store; unknown user gives UnknownUser, an unapproved account gives Unapproved whatever the password; succeeds iff the account exists, is approved and the digests match; the result is that of `Accounts.Login` |
| `History.Apply` | main.py:36-71 | one request never removes an account and adds at most one; only a sign-up adds one; a login leaves the table exactly as it was; a refused request leaves the table unchanged |
| `History.ApplyKeepsAccounts` | main.py:36-71 | one request removes no account and changes no account's username, digest, name, phone or role, and never withdraws approval |
| `History.ReplayKeepsAccounts` | main.py:36-71 | the same holds across any sequence of requests |
| `History.ReplayKeepsKeying` | main.py:39-44 | usernames stay unique: every table reachable from a keyed table is keyed by username |
| `History.ReplayKeepsAdmins` | main.py:42-56 | no sequence of requests changes the set of role-1 accounts |
| `History.LoginStaysSuccessful` | main.py:63-71 | a login that succeeds keeps succeeding, with the same profile, after any further requests |
| `History.SignupApproveLogin` | main.py:36-71 | a sign-up of a fresh username followed by its approval by an approver lets that username log in with its password, with role 2 and its name |
| `History.NoApproverStaysSo` | main.py:50-52 | from a table with no approved role-1 account, no request sequence creates one, and every account approved afterwards was approved before |
| `History.NoneApprovedStaysSo` | main.py:50-52 | from a table with no approved account, no request sequence approves anyone and every login fails |

## Left out

- The WebSocket endpoint and its `active_connections` registry (main.py:34, 73-84): asynchronous connection handling and I/O.
- The FastAPI application, CORS middleware, routing and `read_root` (main.py:8-15, 86-88): transport.
- The SQLAlchemy engine, sessions and table creation (main.py:17-20, 32): the table is an in-memory map. The autoincrement `id` column and the indexes are not modelled.
- Concurrent requests: the server runs these handlers in a thread pool, so two requests can interleave. Two sign-ups of the same fresh username can both pass the check at main.py:39. The second commit at main.py:44 then fails on the unique index of main.py:25, which gives an HTTP 500 rather than a duplicate error. The model handles requests one at a time and does not capture this race.
- SHA-256 (main.py:41, 68): a library call, modelled as an arbitrary deterministic function. Two passwords with the same digest are therefore equally accepted, as in the code.
- HTTP status codes and the response and detail strings: success is `Ok`, failures are the `Error` constructors.
- FastAPI rejects a form with a missing field, and treats an empty field as missing, with HTTP 422 before any handler runs. This is not modelled: the model accepts `""` as a username, password, name, phone or approver.
