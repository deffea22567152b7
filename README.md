# rpars-backend login protocol, modelled in Dafny

This project models the SCRAM-style login of the rpars backend (RFC 5802,
sections 3 and 5). The model covers these parts of `src/session.ts`:

- `session_login_init`, which issues a challenge;
- `session_login_fini`, which consumes the challenge, unmasks the client's proof and opens a session;
- `check_session`, which validates and renews a session token;
- `session_logout`;
- the byte helpers `hex_to_array`, `array_to_hex` and `random_string_bogus`.

It also covers `check_parameters` and `HEX_REX` from `src/util.ts`.

The model has one file per module:

| file | module | contents |
|---|---|---|
| `wrappers.dfy` | `Wrappers` | `Option` |
| `hex.dfy` | `Hex` | `HEX_REX`, `parseInt(pair, 16)`, `hex_to_array` (a method filling an array), `array_to_hex`, byte XOR, their round trips |
| `crypto.dfy` | `Crypto` | constants of `src/constants.ts`, abstract `hash`/`hmac`/seeded generator, `bogus_prng`, `random_string_bogus` |
| `http.dfy` | `Http` | the part of a Koa response the handlers set |
| `params.dfy` | `Params` | request bodies as JavaScript values, `typeof`, `check_parameters` |
| `store.dfy` | `Store` | the user, challenge and session tables, the entity-manager calls, the schema's uniqueness constraints as an invariant |
| `session.dfy` | `Sessions` | one specification function per handler, with the handler as a method proved against it |
| `properties.dfy` | `Protocol` | what the protocol promises, proved about those functions |

Each handler is an imperative method over a `Database` object and a `Response` object.
Its postcondition says that the new tables and response are a function of the old ones
(`InitOutcome`, `FiniOutcome`, `CheckOutcome`, `LogoutOutcome`).
The `Protocol` lemmas are about those functions:

- a malformed request changes nothing;
- a challenge is burnt as soon as fini finds it, so a replay is refused;
- every status code is decided in both directions;
- an unknown fingerprint gets stable decoys and never authenticates;
- a client that holds the key is let in, end to end;
- sessions are renewed and deleted one at a time;
- no handler breaks the schema's uniqueness of keys, challenge tuples and tokens.

The `hash`, `hmac`, seeded-stream and jitter primitives are function-valued fields of a
`Config` record. The record also holds `SERVER_HASH_SALT` and `CLIENT_HASH_SALT`.
Digests and nonces are subset types of 128 lower-case hex characters.

These are parameters of the model:

- the clock (`Date.now()`);
- the caller's address (`ctx.request.ip`);
- the `Authorization` header;
- the output of `random_string(NONCE_LENGTH)`, which is the server nonce in init and the session token in fini.

The code is followed where it departs from what the protocol is usually said to do:

- The `if` at `src/session.ts:118` has no braces. The `client_proof` format check therefore
  runs only when `iterations` is not a non-negative whole number, and a proof of any shape reaches
  `hex_to_array`. `hex_to_array` is therefore modelled on arbitrary strings, including
  `parseInt`'s leading white space, sign, upper-case digits and `NaN` stored as 0.
- Setting the body makes Koa answer 200 only when no status was set before. A logout whose
  `check_session` failed therefore answers 401, with the logout body. A repeated logout does
  not succeed: it changes nothing and answers 401.
- A `save` of a challenge whose (client nonce, server nonce, address) is taken is rejected by the
  unique constraint. The rejection is not caught, so Koa answers 500.

## Model

| member | source | states |
|---|---|---|
| Hex.HexRexRejectsEmptyAndUpperCase | src/util.ts:5 | a string `HEX_REX` accepts is non-empty and holds no upper-case letter |
| Hex.DigitChar | src/session.ts:346 | `toString(16)` of a digit below 16 is a lower-case hex digit |
| Hex.Radix16Value | src/session.ts:340 | the value of a radix-16 digit is below 16 |
| Hex.DigitRoundTrip | src/session.ts:340-346 | parsing the digit `toString(16)` writes gives the value back |
| Hex.LowerDigitRoundTrip | src/session.ts:340-346 | writing the value of a lower-case hex digit gives the digit back |
| Hex.ParseInt16Pair | src/session.ts:339-340 | `parseInt(pair, 16)` of any two characters is `NaN` or lies between -15 and 255 |
| Hex.ToUint8Stores | src/session.ts:340 | a `Uint8Array` keeps a byte as is, wraps a value from -255 to -1 by 256, and stores `NaN` as 0 |
| Hex.HexToBytes | src/session.ts:336-343 | `hex_to_array` yields `hex.length / 2` bytes, rounded down |
| Hex.HexToArray | src/session.ts:336-343 | the loop fills a new array of `hex.length / 2` bytes with the parsed pairs |
| Hex.BytesToHex | src/session.ts:345-347 | `array_to_hex` writes two lower-case hex digits per byte |
| Hex.BytesToHexAt | src/session.ts:345-347 | digits 2i and 2i+1 are the high and low nibble of byte i (the `padStart`) |
| Hex.BytesToHexAppend | src/session.ts:345-347 | `array_to_hex` of two arrays in a row is the two hex strings in a row |
| Hex.BytesToHexMatchesHexRex | src/session.ts:345-347 | the hex of a non-empty array passes `HEX_REX` |
| Hex.ByteToHexParses | src/session.ts:339-340 | `parseInt` of the two digits written for a byte is that byte |
| Hex.HexToBytesOfBytesToHex | src/session.ts:336-347 | `hex_to_array(array_to_hex(a))` is `a` |
| Hex.BytesToHexOfHexToBytes | src/session.ts:336-347 | `array_to_hex(hex_to_array(s))` is `s` for even-length lower-case hex |
| Hex.LowerPairRoundTrip | src/session.ts:339-346 | a pair of lower-case hex digits survives parsing and writing back |
| Hex.BitXorBound | src/session.ts:191 | the XOR of two k-bit numbers has k bits |
| Hex.XorCancels | src/session.ts:191 | `(x ^ y) ^ y == x` on bytes |
| Crypto.BogusBytes | src/session.ts:316-319 | `random_string_bogus` draws exactly n bytes, each `int32() & 0xff` |
| Crypto.DecoyShape | src/session.ts:311-321 | a decoy is 2n lower-case hex digits and, for n > 0, passes `HEX_REX` |
| Crypto.BogusBytesConsecutive | src/session.ts:163-165 | two draws in a row read the stream as one draw of the summed length |
| Crypto.Prng.Int32 | src/session.ts:318 | `int32()` returns the stream at the current position and advances it by one |
| Crypto.BogusPrng | src/session.ts:307-309 | `bogus_prng(seed)` is a fresh generator on `hash(seed, SERVER_HASH_SALT)` at position 0 |
| Crypto.RandomStringBogus | src/session.ts:311-321 | the result depends only on the seed and position, and the generator advances by `bytes` |
| Crypto.RandomIterationsBogus | src/session.ts:327-334 | one draw, a count within 2.5% of `PASSWORD_ITERATIONS` |
| Http.Fail | src/session.ts:201-202 | the status and message are set and the body is kept |
| Http.Respond | src/session.ts:76 | the body is set, and the status becomes 200 only if no status was set before |
| Http.Response.SetBody | src/session.ts:76 | the response becomes `Respond` of the old response |
| Params.TypeOf | src/util.ts:22-24 | `typeof` is "undefined" exactly when the key is absent |
| Params.ProblemOf | src/util.ts:22-28 | one entry of `required` adds at most one problem |
| Params.Join | src/util.ts:32 | joining no parts gives the empty string; otherwise the first part starts the result |
| Params.BadRequest | src/util.ts:32 | the 400 message starts with "Bad request: " and goes on with the first problem |
| Params.ProblemOfReports | src/util.ts:22-28 | an entry is reported iff it does not conform: as "missing K param" when absent, otherwise as "K param must be T" |
| Params.ProblemsEmptyIff | src/util.ts:21-30 | no problem is found iff every required key is present with the required `typeof` |
| Params.ProblemsAppend | src/util.ts:21-29 | problems are listed in the order of `required` |
| Params.ProblemsCount | src/util.ts:21-29 | there is exactly one problem per offending entry |
| Params.CheckParameters | src/util.ts:17-36 | true iff no problem, with the response untouched; otherwise false, 400 and "Bad request: " with the problems joined by ", " |
| Store.Filter | src/session.ts:129-136 | `find` returns rows of the table that match, and every row that matches |
| Store.UsersWithHash | src/session.ts:126 | the users found have the fingerprint, and every user with it is found |
| Store.MatchingChallenges | src/session.ts:129-136 | the challenges found match address and nonces, and every matching challenge is found |
| Store.WithoutChallenge | src/session.ts:146 | deleting by key keeps exactly the rows with other keys |
| Store.WithoutSession | src/session.ts:224 | deleting by key keeps exactly the rows with other keys |
| Store.FindSession | src/session.ts:236-239 | a session found is stored with that token; finding none means no row has it |
| Store.UpdateSession | src/session.ts:246-247 | `save` of a loaded session replaces the rows with its key and no other |
| Store.InsertChallenge | src/session.ts:52-59 | a saved challenge is appended with the next key and the key counter moves on; a refused save leaves the tables as they were; nothing but the challenge table and its counter changes |
| Store.DeleteChallenge | src/session.ts:146 | only the challenge table changes, and it does not grow |
| Store.DeleteChallengeShrinks | src/session.ts:146 | deleting a stored challenge makes the table shorter |
| Store.InsertSession | src/session.ts:206-210 | a token no row holds is appended as a session with the next key, and the counter moves on; a token already held leaves the tables as they were; nothing but the session table and its counter changes |
| Store.DeleteSession | src/session.ts:224 | only the session table changes, and it does not grow |
| Store.SaveSession | src/session.ts:247 | only the session table changes, and it keeps its length |
| Store.InsertChallengeSaves | src/entity/Challenge.ts:7 | a challenge is saved iff no stored challenge has its (nonces, address) tuple |
| Store.EmptyTablesWellFormed | src/entity/Challenge.ts:7 | empty tables satisfy the schema's uniqueness constraints |
| Store.InsertChallengeWellFormed | src/session.ts:59 | saving a challenge keeps keys and tuples unique |
| Store.DeleteChallengeWellFormed | src/session.ts:146 | deleting a challenge keeps the invariant and removes the row with that key |
| Store.InsertSessionWellFormed | src/session.ts:210 | saving a new session keeps keys and tokens unique |
| Store.DeleteSessionWellFormed | src/session.ts:224 | deleting a session keeps the invariant and removes the row with that key |
| Store.SaveSessionWellFormed | src/session.ts:247 | saving a renewed session keeps the invariant |
| Store.AtMostOneMatch | src/entity/Challenge.ts:7 | in well-formed tables at most one challenge matches a tuple |
| Store.BurntChallengeIsGone | src/session.ts:144-155 | once the only matching challenge is deleted, none matches |
| Store.FindSessionUnique | src/entity/Session.ts:7 | in well-formed tables a token finds the one session stored with it |
| Store.Database.SaveChallenge | src/session.ts:59 | `save(challenge)` inserts with the next key, or is refused on a tuple clash |
| Store.Database.RemoveChallenge | src/session.ts:146 | `delete(Challenge, id)` |
| Store.Database.SaveNewSession | src/session.ts:210 | `save(client_session)` inserts with the next key unless the token is taken |
| Store.Database.RemoveSession | src/session.ts:224 | `delete(Session, id)` |
| Store.Database.SaveLoadedSession | src/session.ts:247 | `save(Session, session)` of a loaded row |
| Sessions.LoginInit | src/session.ts:20-77 | the handler's new tables and response are `InitOutcome` of the old ones |
| Sessions.InitUser | src/session.ts:45-46 | a bound user is stored, has the fingerprint, and the fingerprint is not `EMPTY_HASH`; a fingerprint nobody has binds no user |
| Sessions.InitDecoySalt | src/session.ts:48-49 | the decoy salt of an unknown fingerprint is `NONCE_LENGTH` bytes of hex, shaped like a real salt |
| Sessions.InitOutcome | src/session.ts:20-77 | init changes only the challenge table and its counter; when it changes anything, the body passed `check_parameters` and exactly one challenge was appended for this server nonce and address, with a body in the answer |
| Sessions.InitIssue | src/session.ts:44-76 | the same past the input checks; when nothing is stored the answer is 500 |
| Sessions.IssueChallenge | src/session.ts:44-76 | the part after the input checks is `InitIssue` |
| Sessions.GuardPassesWholeCounts | src/session.ts:118 | the guard is false exactly for non-negative whole counts (and positive infinity); `NaN`, fractions and negative infinity trip it |
| Sessions.FiniUser | src/session.ts:126-127 | the user fini resolves is the sentinel or a stored user with the fingerprint; a fingerprint nobody has resolves to the sentinel |
| Sessions.FiniDecoySalt | src/session.ts:163-164 | the sentinel's decoy salt is `HASH_LENGTH` bytes of hex |
| Sessions.FiniDecoyKey | src/session.ts:163-165 | the sentinel's decoy key is `HASH_LENGTH` bytes of hex |
| Sessions.FiniDecoysAreOneDraw | src/session.ts:163-165 | the decoy salt and key are one draw of 2 * `HASH_LENGTH` bytes from the seeded generator, salt first |
| Sessions.FiniCredentials | src/session.ts:158-181 | `pass` holds iff the user is not the sentinel, the fingerprints are equal and the counts are equal; a real user's salt and keys are used; for the sentinel the client and server key are one 128-digit decoy |
| Sessions.AuthMessage | src/session.ts:185 | `auth` is the four fields and three commas |
| Sessions.AuthMessageBindsExchange | src/session.ts:185 | with the first three fields of fixed length, `auth` determines all four fields |
| Sessions.Mix | src/session.ts:190-192 | the XOR keeps the length of the proof |
| Sessions.ClientCheck | src/session.ts:196 | `client_check` is 128 hex digits, the shape of a stored client key |
| Sessions.MixCancels | src/session.ts:190-192 | masking twice with the same key gives the proof back |
| Sessions.MixInPlace | src/session.ts:190-192 | the XOR loop leaves `proof_bytes` equal to `Mix` of the old bytes |
| Sessions.VerifyProof | src/session.ts:187-196 | `client_check` is `ClientCheck` of the proof, key and `auth` |
| Sessions.LoginFini | src/session.ts:82-217 | the handler's new tables and response are `FiniOutcome` of the old ones |
| Sessions.FiniOutcome | src/session.ts:82-217 | fini never touches the users, the sentinel or the challenge counter, never adds a challenge, and changes the sessions only for a body that passed `check_parameters` and by burning a challenge |
| Sessions.FiniConsume | src/session.ts:125-216 | the same shape past the input checks |
| Sessions.FiniAuthenticate | src/session.ts:158-216 | the tables stay as they were or get the session saved; credentials without `pass` are answered 403 and change nothing |
| Sessions.ConsumeChallenge | src/session.ts:125-156 | the challenge lookup and its deletes are `FiniConsume` |
| Sessions.Authenticate | src/session.ts:158-216 | the credential check and the new session are `FiniAuthenticate` |
| Sessions.SessionToken | src/session.ts:235 | the argument when non-empty, otherwise the header; empty only if both are |
| Sessions.CheckOutcome | src/session.ts:234-250 | only the session table changes and it keeps its length; no session means 401 and no change; a session returned carries the presented token, expires `now + SESSION_EXPIRATION`, is stored, and the response is left alone |
| Sessions.CheckSession | src/session.ts:234-250 | the new tables, response and result are `CheckOutcome` |
| Sessions.LogoutOutcome | src/session.ts:221-230 | logout changes only the session table, never grows it, and always answers the logout body |
| Sessions.Logout | src/session.ts:221-230 | the new tables and response are `LogoutOutcome` |
| Protocol.InitRejectsMalformed | src/session.ts:21-42 | init answers 400 iff the body fails `check_parameters` or a field is not 128 hex digits, and then stores nothing |
| Protocol.InitIssuesChallenge | src/session.ts:52-76 | a well-formed init stores exactly one challenge, bound to the address, both nonces, the user or the sentinel, and `now + CHALLENGE_EXPIRATION`, and answers 200 with it; it answers 500 on a taken tuple |
| Protocol.InitUserIsUnique | src/session.ts:45-46 | init binds a user iff the fingerprint is not `EMPTY_HASH` and names exactly one user, and then it is that user |
| Protocol.InitAnswersSaltAndIterations | src/session.ts:61-74 | a known user gets their own salt and count; others get the decoys drawn from their fingerprint, a 128-digit hex salt and a count within 2.5% of 131072 |
| Protocol.InitDecoysAreStable | src/session.ts:48-50 | the decoys depend on the fingerprint alone |
| Protocol.InitIssueKeepsWellFormed | src/session.ts:52-59 | issuing a challenge keeps the schema's invariant |
| Protocol.InitKeepsWellFormed | src/session.ts:20-77 | every init keeps the schema's invariant |
| Protocol.FiniStatusCodes | src/session.ts:83-204 | fini answers 400, 408, 403 or 200, each iff its condition holds |
| Protocol.FiniOpensSession | src/session.ts:199-216 | an accepted fini burns the challenge, saves the session expiring `now + SESSION_EXPIRATION` (a no-op when the token is already held), and answers `hmac(server_key, auth)` and the admin flag; any other fini leaves the sessions alone and sends no body |
| Protocol.FiniAccepted | src/session.ts:199-216 | the accepted case of `FiniOpensSession` |
| Protocol.FiniRefused | src/session.ts:83-204 | a fini that is not accepted leaves the session table and its counter alone and sends no body |
| Protocol.FiniChallengeTable | src/session.ts:139-156 | fini deletes the found challenge and only it, and only past the input checks |
| Protocol.ConsumeChallengeTable | src/session.ts:139-156 | the lookup deletes the single matching challenge on every branch |
| Protocol.AuthenticateKeepsChallenges | src/session.ts:158-216 | the credential check touches only the session table |
| Protocol.FiniBurnsChallenge | src/session.ts:139-156 | after any fini past the input checks, no challenge matches the tuple, and none is added |
| Protocol.FiniUnmatched | src/session.ts:128-148 | without exactly one matching challenge fini answers 400 and changes nothing |
| Protocol.ProofFormatCheckedOnlyUnderGuard | src/session.ts:118-123 | the proof-format error is answered iff `iterations` is not a non-negative whole number and the proof is malformed |
| Protocol.ConsumeNeverBlamesProof | src/session.ts:139-204 | past the format checks no answer carries the proof-format message |
| Protocol.FiniReplayIsRejected | src/session.ts:139-156 | a fini replayed from the same address is refused with 400 and changes nothing |
| Protocol.UnknownFingerprintNeverAuthenticates | src/session.ts:158-181 | a fingerprint that is `EMPTY_HASH` or does not name exactly one user never opens a session, given the sentinel has `EMPTY_HASH` |
| Protocol.SentinelOkFindsOne | src/entity/User.ts:8 | under the unique index on `email_hash`, every stored user is the only one found for its fingerprint |
| Protocol.HandlersKeepSentinel | src/database.ts:48-68 | what the bootstrap sets up (sentinel stored with `EMPTY_HASH`, fingerprints unique) survives every handler |
| Protocol.HonestProofChecks | src/session.ts:187-197 | a client key masked with `hmac(hash(key), auth)` is 128 hex digits and unmasks to a key whose hash is the stored one |
| Protocol.HonestInit | src/session.ts:20-77 | init for a provisioned user stores a challenge for that user and answers the user's salt and count |
| Protocol.HonestClientLogsIn | src/session.ts:20-217 | a client that answers init's challenge in time with an honest proof gets 200 and the server proof; a fresh token is appended as a new session, and a token already held leaves the session table as it was |
| Protocol.InsertSessionCases | src/session.ts:210 | the session table after a save, for a fresh token and for a held one |
| Protocol.AnsweredFini | src/session.ts:82-217 | answering a just-issued challenge in time with a checking proof burns it, saves the session (a no-op for a held token) and answers 200 with the server proof |
| Protocol.ConsumeAnswered | src/session.ts:139-156 | a unique, matching challenge answered in time is deleted and the credentials decide |
| Protocol.AuthenticateAccepts | src/session.ts:158-216 | correct credentials save the session (a no-op for a held token) and answer 200 with the server proof |
| Protocol.FiniReachesConsume | src/session.ts:83-123 | past the input checks fini is the challenge lookup |
| Protocol.CheckSessionDecides | src/session.ts:234-250 | a session is returned iff the token is live; it is renewed to `now + SESSION_EXPIRATION` and no other row changes; otherwise 401 and nothing changes |
| Protocol.CheckKeepsWellFormed | src/session.ts:234-250 | `check_session` keeps the schema's invariant |
| Protocol.RenewThenDelete | src/session.ts:221-230 | renewing then deleting a session removes exactly the rows with its token |
| Protocol.LogoutEndsSession | src/session.ts:221-230 | logout always answers the logout body; 200 iff the token was live, and then only that session is deleted; otherwise 401 and nothing changes |
| Protocol.SecondLogoutChangesNothing | src/session.ts:221-230 | a second logout with the same token changes nothing and answers 401 |
| Protocol.ConsumeCases | src/session.ts:139-210 | after the lookup the tables are the old ones, or the found challenge deleted, possibly with the session saved |
| Protocol.ConsumeKeepsWellFormed | src/session.ts:125-216 | the challenge lookup and credential check keep the schema's invariant |
| Protocol.FiniKeepsWellFormed | src/session.ts:82-217 | every fini keeps the schema's invariant |

## Left out

- `src/oauth.ts`, `src/member.ts`, `src/script.ts`, `src/answer.ts`, `src/cipher.ts`, `src/httpclient.ts`: the other handlers, which do network I/O or plain ORM CRUD, are not part of this model.
- `src/database.ts`: connection set-up and sentinel bootstrapping are not modelled. `EMPTY_HASH` (`src/database.ts:12`) is `Crypto.EmptyHash`, and the sentinel row is a given field of the tables; what the bootstrap guarantees about it is the predicate `Protocol.SentinelOk`, which every handler keeps.
- `src/server.ts`, `src/adduser.ts`, `src/script_wrap.ts`: routing, user provisioning (`pbkdf2`) and browser code. The user rows are given.
- SHA-512, HMAC-SHA-512 and seedrandom are kept abstract: arbitrary functions with the right output shapes. No property that depends on their internals is claimed, for example that two fingerprints get different decoys.
- `crypto.randomBytes`, `Date.now()`, the caller's address and the `Authorization` header are parameters.
- Crypto.RandomIterationsBogus: the floating-point jitter and `Math.round` are not modelled. The count is an abstract function of the seed and position, constrained to the range those can produce.
- The `save` at `src/session.ts:210` is not awaited. The model completes it before the response, and concurrency between requests is not modelled.
- Store.InsertSession: a session `save` whose token is already taken is modelled as storing nothing, since the unique constraint rejects it; the rejection itself goes unobserved, because the `save` is not awaited. Fini then still answers 200 with that token, and the session it names is the earlier one. The model does not assume tokens are fresh: the lemmas about a successful login state both cases.
- Sessions.FiniAuthenticate: `Date.now()` is read twice in fini, for the expiry check (`src/session.ts:149`) and for the session's expiry (`src/session.ts:209`). The model reads one instant `now` for both, so it does not capture the time that passes between them.
- Sessions.CheckOutcome: `Date.now()` is read twice in `check_session`, for the expiry check (`src/session.ts:241`) and for the renewal (`src/session.ts:246`). The model reads one instant `now` for both.
- `JSON.stringify` is not modelled: a body is the record that would be stringified.
- `expiration` columns are `bigint` strings in the schema. The model keeps them as integers and compares `expiration.toString()` as integer equality, so digits beyond 2^53 are not modelled.
- JavaScript strings are UTF-16, and `.length` counts code units; here a string is a sequence of characters.
- A challenge's `user` relation is kept as the user's `user_id`. Authentication reads the `user` row resolved from the fingerprint, which the lookup has just checked has that id; user ids are assumed unique.
- `findOne` with several matching rows returns the first in table order; with the token's unique constraint there is never more than one.
- Koa's default status message is not modelled: a response that is never given a message keeps an empty one.
