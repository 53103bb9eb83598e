# Role-based app backend: accounts, tokens and role checks

This project models, in Dafny, the account and access-control logic of a small Express
service (`index.js`). The service keeps its accounts in an in-memory `users` array seeded with
an `admin` and an `alice` account. `POST /api/register` validates the body, refuses a taken
username, hashes the password with bcrypt and appends a row whose id is the table length plus
one. `POST /api/login` looks the user up, checks the password and returns a signed JSON Web
Token. The middleware `authenticateToken` takes the token from the `Authorization` header and
verifies it; `authorizeRole(role)` lets a request through on an exact role match. The
protected routes `GET /api/profile` and `GET /api/admin/dashboard` are built from the two
middleware functions.

Layout, one module per file:

- `base.dfy` (`Base`): the `Option` type, used for absent JSON fields and headers.
- `text.dfy` (`Text`): JavaScript's `split` with a one-character separator, its inverse `Join`,
  an escaping that keeps dots and spaces out of token fields, and decimal numerals.
- `crypto.dfy` (`Crypto`): stand-ins for bcrypt and `jsonwebtoken`. `Hash`/`Check` replace
  `bcrypt.hash`/`bcrypt.compare`, and `Sign`/`Verify` replace `jwt.sign`/`jwt.verify`. They are
  deterministic functions. The rest of the model relies on proved laws: a password checks
  against its own hash and against no other password's hash, `Verify(k, Sign(k, c)) == Some(c)`,
  and a token that verifies to `c` is `Sign(k, c)`. The last law holds for the stand-in, where
  each claims value has exactly one token. It does not hold for `jsonwebtoken`, where tokens for
  the same claims can differ in `iat`, `exp` or algorithm and all verify.
- `http.dfy` (`Http`): the replies (status code and JSON body, or a rejected handler promise).
- `accounts.dfy` (`Accounts`): the user table as a class `UserStore` with a `seq` field, the
  register handler as a method on it, and login as a function over the table.
- `middleware.dfy` (`Middleware`): token extraction, `authenticateToken` as a method that writes
  `req.user`, `authorizeRole` as a pure function, and the two protected routes.
- `scenarios.dfy` (`Scenarios`): properties spanning routes, such as register, then login, then
  the admin dashboard.

Where the code departs from the usual design of a token service, the model follows the code:

- A token that fails verification gets 403, not 401 (index.js:140).
- The client-chosen `role` is stored as given, and `'user'` is used only when the field is
  absent (index.js:42, 61).
- The first word of the `Authorization` header is never compared with `Bearer` (index.js:132).
- Expired and forged tokens are not told apart: both get the same 403.
- The signing secret is the constant `'Hades'` (index.js:9).

## Model

| member | source | states |
|---|---|---|
| `Text.Split` | index.js:132 | `split(' ')` semantics: at least one piece, no piece contains the separator, joining the pieces gives the input back, and a string without the separator is its own single piece |
| `Text.SplitJoin` | index.js:132 | splitting undoes joining when no field contains the separator |
| `Text.UnescapeEscape` | index.js:83-87 | a claim string written into a token is read back unchanged |
| `Text.EscapeUnescape` | index.js:138 | a token field is accepted only when it is the one encoding of the string it decodes to |
| `Text.ParseNatDigits` | index.js:84 | the numeric `id` claim written into a token is read back unchanged |
| `Text.DigitsParseNat` | index.js:138 | a numeral is accepted only in its canonical form |
| `Crypto.Hash` | index.js:55 | every stored hash starts with the bcrypt marker `$2a$10$` |
| `Crypto.Check` | index.js:78 | `bcrypt.compare` accepts the hash of the given password, and nothing without the bcrypt marker |
| `Crypto.CheckHash` | index.js:78 | a password is accepted by the hash made from it |
| `Crypto.CheckRejectsOther` | index.js:78 | for the stand-in, a password is accepted by the hash of another password exactly when the two are equal (bcrypt's 72-byte truncation is not modelled) |
| `Crypto.Sign` | index.js:83-87 | a signed token is non-empty and contains no space, so it survives the header split |
| `Crypto.VerifySign` | index.js:83-87 | verifying a token signed with the same secret yields exactly the signed claims |
| `Crypto.Verify` | index.js:138-142 | `jwt.verify`: a token that verifies is the signature of the claims it yields, so nothing else is accepted (one token per claims value in the stand-in) |
| `Crypto.VerifyIffSigned` | index.js:138-142 | both laws together: `Verify(k, t) == Some(c)` if and only if `t == Sign(k, c)` |
| `Accounts.Seed` | index.js:21-24 | the two seed rows have distinct usernames and ids 1 and 2, and contain `admin` and `alice` |
| `Accounts.SeedRows` | index.js:21-24 | the seed rows satisfy both table invariants whatever their password hashes are |
| `Accounts.FirstMatch` | index.js:49 | `users.find`: finds nothing exactly when no row has the name; otherwise the first row with that exact, case-sensitive name |
| `Accounts.Lookup` | index.js:77 | the row found has the requested name and is in the table; when usernames are unique it is the one row with that name |
| `Accounts.Registration` | index.js:41-71 | 400 exactly when username or password is missing or empty; 409 exactly when both are present and the name is taken; on both errors the table is unchanged; on 201 exactly one row is appended after the unchanged old rows, with id old length + 1, the given name, `Hash(password)` and the given role or `'user'`; the 201 body is `{message, username, role}` only; unique names and `id == position + 1` are preserved |
| `Accounts.UserStore.constructor` | index.js:21-24 | the table starts as the two seed rows and satisfies the invariant |
| `Accounts.UserStore.Find` | index.js:49 | the linear scan returns the same row as `Lookup` |
| `Accounts.UserStore.Register` | index.js:41-71 | updates the table in place exactly as `Registration` says and keeps the table invariant |
| `Accounts.Login` | index.js:74-96 | an unknown or absent username and a wrong password give the identical 401 `Invalid credentials`; a known name with no password makes bcrypt throw; a known name with a password that checks always gets 200; a 200 carries a token signing exactly `{id, username, role}` of the found row (built by the helper `ClaimsOf`) and `user: {username, role}` with no password; the table is only read |
| `Middleware.TokenOf` | index.js:131-136 | a token is found only in a present header; it is non-empty and has no space; a header without a space yields none |
| `Middleware.TokenOfSchemeAndToken` | index.js:132 | for any first word at all, `<word> <token>` yields the token |
| `Middleware.TokenOfSecondWord` | index.js:132-136 | for every header with a space: the token is the second space-separated word, whatever follows it (`"Bearer t x"` gives `t`); an empty second word (`"Bearer "`, `"Bearer  t"`) gives no token |
| `Middleware.Authentication` | index.js:130-145 | 401 `Access token required` exactly when there is no token; 403 `Invalid or expired token` exactly when the token does not verify; a token that verifies passes with the claims it verifies to, and the passed claims' signature is the token |
| `Middleware.AuthenticateSigned` | index.js:138-143 | a header carrying a token signed with the secret passes with the signed claims |
| `Middleware.AuthenticateToken` | index.js:130-145 | on success sets `req.user` to the verified claims and calls `next`; otherwise answers as `Authentication` says and leaves `req.user` as it was |
| `Middleware.AuthorizeRole` | index.js:148-155 | passes exactly when the claims' role equals the required role; otherwise 403 `Forbidden: insufficient role` |
| `Middleware.ProfileRoute` | index.js:103-105 | the profile route answers 200, 401 or 403; 401 (`Access token required`) exactly when there is no token; 403 `Invalid or expired token` exactly when the token fails verification; a 200 echoes claims whose signature is the header's token |
| `Middleware.AdminDashboard` | index.js:108-118 | the admin route answers the dashboard, 401, 403 `Invalid or expired token` or 403 `Forbidden: insufficient role`; 401 exactly when there is no token; `Invalid or expired token` exactly when the token fails verification; `Forbidden: insufficient role` exactly when it verifies to a role other than `admin`; the dashboard only for a token signed for role `admin` |
| `Middleware.ServeProfile` | index.js:103-105 | running the middleware and then the handler on a request object gives the reply of the profile route |
| `Middleware.ServeAdminDashboard` | index.js:108-118 | running both middleware functions and the handler on a request object gives the reply of the admin route |
| `Middleware.AdminDashboardAccess` | index.js:108-118 | the dashboard answers 200 exactly when the header's second word is a token signed with the service secret for claims with role `admin` |
| `Middleware.ProfileAccess` | index.js:103-105 | the profile route answers 200 with claims `c` exactly when the header's token is the signature of `c` |
| `Scenarios.RegisterThenLogin` | index.js:41-96 | registering a fresh name and then logging in with the same password gives 200 and a token for id old length + 1, that name and the role stored |
| `Scenarios.LoginThenDashboard` | index.js:83-118 | a login token sent as `Bearer <token>` opens the admin dashboard exactly when the account's role is `admin`, and gets 403 otherwise |
| `Scenarios.SeedAccounts` | index.js:21-24 | the seed admin's token opens the dashboard; alice's token gets 403 |
| `Scenarios.DuplicateRegistration` | index.js:49-52 | registering the same name twice: the second attempt gets 409, the table is unchanged and keeps one row for the name |

## Left out

- Express plumbing: CORS, JSON body parsing, static files, route registration, `app.listen` and
  logging (index.js:7-18, 161-166). These are framework I/O with no logic. The public route
  `GET /api/content/guest` (index.js:121-123) returns a constant and is not modelled.
- bcrypt internals: salting, the cost factor, constant-time comparison and the randomness of
  `hash`. `Hash` is a deterministic stand-in, and `Check` compares against it. Because the salt
  is not modelled, two hashes of the same password are equal here.
- Crypto.Hash: one-wayness is not stated. The stand-in is an injective, readable encoding of the
  whole password. bcryptjs keys its cipher with only the first 72 bytes of the UTF-8 password,
  so two passwords that agree on those bytes always hash alike there.
- Crypto.CheckRejectsOther: holds only for the stand-in. Under bcrypt, a different password that
  agrees with the stored one on its first 72 UTF-8 bytes is accepted. A login with it gets 200
  at index.js:78-95, where the model's `Login` answers 401.
- The seed re-hash check (index.js:31-34) is not modelled. Whether its condition holds depends on
  the bcrypt variant, which the source does not pin. Either way, it replaces the two seed hashes
  with fresh hashes of the same passwords, so nothing observable changes.
- JWT internals: the HMAC, base64url and JSON encoding, and the `iat`/`exp` claims with the
  one-hour expiry (index.js:83-87, 138).
- Crypto.Verify: in the stand-in each claims value has exactly one token. A real JWT for the same
  claims can differ in `iat`, `exp` or algorithm and still verify. Time is not modelled, so no token expires, and the
  claims echoed by the profile route lack `iat` and `exp`. `Sign` and `Verify` are
  deterministic stand-ins over an escaped, dot-separated encoding with a digest as MAC.
- Concurrency: two registers of one name can interleave between the check (index.js:49) and the
  push (index.js:64), because `bcrypt.hash` is awaited in between. Register is modelled as atomic.
- Request bodies are modelled as `Option<string>` fields. JSON values that are not strings are
  not modelled: numbers, objects and `null`. A `null` role is stored as `null` in the source. A
  missing `req.body` is not modelled either.
- Accounts.Login: a rejected handler promise is modelled as `Unhandled`. What follows depends on
  the Express version, which the source does not pin. Express 5 passes the error to its error
  handler, which answers 500. Express 4 never answers, and newer Node versions may stop the
  process. None of this is modelled.
- `authorizeRole` used without `authenticateToken` before it would throw on `req.user.role`.
  The only route that uses it runs `authenticateToken` first, so this case is not modelled.
- Header handling by the framework: duplicate `Authorization` headers and header-name casing.
- JavaScript strings are UTF-16 code-unit sequences; the model uses Dafny `char` sequences.
- `public/script.js` is not part of this model: it is browser UI, `fetch`, `localStorage` and
  `alert`.
