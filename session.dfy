/**
  The request handlers of src/session.ts: `session_login_init` issues a challenge,
  `session_login_fini` consumes it and checks the client's SCRAM proof (RFC 5802,
  section 3), `check_session` validates and renews a session token, and
  `session_logout` tears one down.

  Each handler is a method over the Database and the Koa Response, and its
  postcondition ties the new tables and response to a function of the old ones
  (InitOutcome, FiniOutcome, CheckOutcome, LogoutOutcome); the protocol's
  properties are proved about those functions in module Protocol.
  The clock (`Date.now()`), the caller's address (`ctx.request.ip`), the
  `Authorization` header and the output of `random_string` are parameters.
*/
module Sessions {
  import opened Wrappers
  import opened Hex
  import opened Crypto
  import opened Http
  import opened Params
  import opened Store

  const InitParams: seq<(string, ParamType)> :=
    [("email_hash", StringType), ("client_nonce", StringType)]

  const FiniParams: seq<(string, ParamType)> :=
    [("email_hash", StringType), ("client_nonce", StringType), ("server_nonce", StringType),
     ("iterations", NumberType), ("challenge_expiration", NumberType), ("client_proof", StringType)]

  // The messages interpolate `Constants.HASH_LENGTH * 2` and `Constants.NONCE_LENGTH * 2`, both 128.
  const EmailHashMessage := "Bad request: email_hash must be a hex string of length 128"
  const ClientNonceMessage := "Bad request: client_nonce must be a hex string of length 128"
  const ServerNonceMessage := "Bad request: server_nonce must be a hex string of length 128"
  const ClientProofMessage := "Bad request: client_proof must be a hex string of length 128"
  const NoChallengeMessage := "Bad request: no matching challenge"
  const ExpiredMessage := "Challenge expired"
  const InvalidCredentialsMessage := "Invalid credentials"
  const UnauthorizedMessage := "Unauthorized"
  /** What Koa's default error handler answers when a handler throws (here: a rejected `save`). */
  const InternalErrorMessage := "Internal Server Error"

  /** A string field of the body; only read once `check_parameters` has accepted the body. */
  function StringParam(body: Request, key: string): string {
    if key in body && body[key].JsString? then body[key].s else ""
  }

  /** A number field of the body; only read once `check_parameters` has accepted the body. */
  function NumberParam(body: Request, key: string): Number {
    if key in body && body[key].JsNumber? then body[key].n else NaN
  }

  /** `Math.round(n) !== n || n < 0`, the guard at session.ts:118. */
  predicate NotWholeOrNegative(n: Number) {
    match n
    case Num(v) => v.Floor as real != v || v < 0.0
    case NaN => true
    case Infinity(negative) => negative
  }

  /**
    The guard lets through exactly the non-negative whole numbers, and positive
    infinity (`Math.round(Infinity) === Infinity`); NaN, fractions and negatives trip it.
  */
  lemma GuardPassesWholeCounts(k: int, v: real)
    ensures !NotWholeOrNegative(Num(k as real)) <==> k >= 0
    ensures v.Floor as real != v ==> NotWholeOrNegative(Num(v))
    ensures NotWholeOrNegative(NaN) && NotWholeOrNegative(Infinity(true)) && !NotWholeOrNegative(Infinity(false))
  {
    assert (k as real).Floor == k;
  }

  /** `n === k`, and equally `n.toString() === k.toString()`, for an integer k. */
  predicate NumberIs(n: Number, k: int) {
    n == Num(k as real)
  }

  // ---------------------------------------------------------------- login_init

  /** The user `session_login_init` binds: the only user with that fingerprint, never the sentinel's. */
  function InitUser(cfg: Config, t: Tables, emailHash: string): (r: Option<User>)
    ensures r.Some? ==> emailHash != EmptyHash(cfg) && r.value in t.users && r.value.email_hash == emailHash
    ensures (forall u :: u in t.users ==> u.email_hash != emailHash) ==> r.None?
  {
    var users := UsersWithHash(t.users, emailHash);
    if emailHash != EmptyHash(cfg) && |users| == 1 then Some(users[0]) else None
  }

  /** The seed of `bogus_prng(hash(email_hash, SERVER_HASH_SALT))`. */
  function InitDecoySeed(cfg: Config, emailHash: string): string {
    BogusSeed(cfg, cfg.hash(emailHash, cfg.serverHashSalt))
  }

  /** The salt made up for a fingerprint nobody has: a well-formed nonce, like a real one. */
  function InitDecoySalt(cfg: Config, emailHash: string): (r: string)
    ensures IsHexField(r, 2 * NONCE_LENGTH)
  {
    DecoyShape(cfg, InitDecoySeed(cfg, emailHash), 0, NONCE_LENGTH);
    DecoyHex(cfg, InitDecoySeed(cfg, emailHash), 0, NONCE_LENGTH)
  }

  function InitDecoyIterations(cfg: Config, emailHash: string): JitteredIterations {
    cfg.jitter(InitDecoySeed(cfg, emailHash), NONCE_LENGTH)
  }

  /** One challenge appended, for this server nonce and address, and the reply carries a body. */
  predicate IssuedOne(t: Tables, out: (Tables, Reply), serverNonce: string, ip: string) {
    && |out.0.challenges| == |t.challenges| + 1
    && out.0.challenges[..|t.challenges|] == t.challenges
    && out.0.challenges[|t.challenges|].server_nonce == serverNonce
    && out.0.challenges[|t.challenges|].remote_ip == ip
    && out.1.body.Some?
  }

  /** The new tables and response after `session_login_init` (session.ts:20-77). */
  function InitOutcome(cfg: Config, t: Tables, r: Reply, body: Request, ip: string, now: int, serverNonce: Nonce): (out: (Tables, Reply))
    ensures out.0 == t.(challenges := out.0.challenges, nextChallengeId := out.0.nextChallengeId)
    ensures out.0 != t ==> Problems(body, InitParams) == [] && IssuedOne(t, out, serverNonce, ip)
  {
    var problems := Problems(body, InitParams);
    if problems != [] then (t, Fail(r, 400, BadRequest(problems)))
    else
      var emailHash, clientNonce := StringParam(body, "email_hash"), StringParam(body, "client_nonce");
      if !IsHexField(emailHash, 2 * HASH_LENGTH) then (t, Fail(r, 400, EmailHashMessage))
      else if !IsHexField(clientNonce, 2 * NONCE_LENGTH) then (t, Fail(r, 400, ClientNonceMessage))
      else InitIssue(cfg, t, r, emailHash, clientNonce, ip, now, serverNonce)
  }

  /** The part of `session_login_init` after the input checks: store the challenge, answer it. */
  function InitIssue(cfg: Config, t: Tables, r: Reply, emailHash: string, clientNonce: string, ip: string, now: int, serverNonce: Nonce): (out: (Tables, Reply))
    ensures out.0 == t.(challenges := out.0.challenges, nextChallengeId := out.0.nextChallengeId)
    ensures out.0 != t ==> IssuedOne(t, out, serverNonce, ip)
    ensures out.0 == t ==> out.1 == Fail(r, 500, InternalErrorMessage)
  {
    var user := InitUser(cfg, t, emailHash);
    var userId := if user.Some? then user.value.user_id else t.emptyUser.user_id;
    var expiration := now + CHALLENGE_EXPIRATION;
    var (t', saved) := InsertChallenge(t, clientNonce, serverNonce, ip, userId, expiration);
    if !saved then (t, Fail(r, 500, InternalErrorMessage))
    else
      var salt := if user.Some? then user.value.client_salt else InitDecoySalt(cfg, emailHash);
      var iterations := if user.Some? then user.value.iterations else InitDecoyIterations(cfg, emailHash);
      (t', Respond(r, InitBody(clientNonce, serverNonce, expiration, salt, iterations)))
  }

  /** `session_login_init`. */
  method LoginInit(cfg: Config, db: Database, res: Response, body: Request, ip: string, now: int, serverNonce: Nonce)
    modifies db, res
    ensures (db.Snapshot(), res.Snapshot()) == InitOutcome(cfg, old(db.Snapshot()), old(res.Snapshot()), body, ip, now, serverNonce)
  {
    var ok := CheckParameters(res, body, InitParams);
    if !ok {
      return;
    }
    var emailHash, clientNonce := StringParam(body, "email_hash"), StringParam(body, "client_nonce");
    if !IsHexField(emailHash, 2 * HASH_LENGTH) {
      res.SetStatus(400);
      res.SetMessage(EmailHashMessage);
      return;
    }
    if !IsHexField(clientNonce, 2 * NONCE_LENGTH) {
      res.SetStatus(400);
      res.SetMessage(ClientNonceMessage);
      return;
    }
    IssueChallenge(cfg, db, res, emailHash, clientNonce, ip, now, serverNonce);
  }

  method IssueChallenge(cfg: Config, db: Database, res: Response, emailHash: string, clientNonce: string, ip: string, now: int, serverNonce: Nonce)
    modifies db, res
    ensures (db.Snapshot(), res.Snapshot()) == InitIssue(cfg, old(db.Snapshot()), old(res.Snapshot()), emailHash, clientNonce, ip, now, serverNonce)
  {
    ghost var t := db.Snapshot();
    var users := UsersWithHash(db.users, emailHash);
    var user: Option<User> := if emailHash != EmptyHash(cfg) && |users| == 1 then Some(users[0]) else None;
    assert user == InitUser(cfg, t, emailHash);

    var noise := BogusPrng(cfg, cfg.hash(emailHash, cfg.serverHashSalt));
    var bogusSalt := RandomStringBogus(noise, NONCE_LENGTH);
    var bogusIterations := RandomIterationsBogus(noise);
    assert bogusSalt == InitDecoySalt(cfg, emailHash) && bogusIterations == InitDecoyIterations(cfg, emailHash);

    var userId := if user.Some? then user.value.user_id else db.emptyUser.user_id;
    var expiration := now + CHALLENGE_EXPIRATION;
    var saved := db.SaveChallenge(clientNonce, serverNonce, ip, userId, expiration);
    assert (db.Snapshot(), saved) == InsertChallenge(t, clientNonce, serverNonce, ip, userId, expiration);
    if !saved {
      res.SetStatus(500);
      res.SetMessage(InternalErrorMessage);
      return;
    }

    var salt, iterations;
    if user.Some? {
      salt, iterations := user.value.client_salt, user.value.iterations;
    } else {
      salt, iterations := bogusSalt, bogusIterations;
    }
    res.SetBody(InitBody(clientNonce, serverNonce, expiration, salt, iterations));
  }

  // ---------------------------------------------------------------- login_fini

  /** The user `session_login_fini` resolves: the only user with that fingerprint, else the sentinel. */
  function FiniUser(t: Tables, emailHash: string): (r: User)
    ensures r == t.emptyUser || (r in t.users && r.email_hash == emailHash)
    ensures (forall u :: u in t.users ==> u.email_hash != emailHash) ==> r == t.emptyUser
  {
    var users := UsersWithHash(t.users, emailHash);
    if |users| == 1 then users[0] else t.emptyUser
  }

  /** The seed of `bogus_prng(SERVER_HASH_SALT)`. */
  function FiniDecoySeed(cfg: Config): string {
    BogusSeed(cfg, cfg.serverHashSalt)
  }

  /** The salt the sentinel is verified with: shaped like a real user's. */
  function FiniDecoySalt(cfg: Config): (r: string)
    ensures IsHexField(r, 2 * HASH_LENGTH)
  {
    DecoyShape(cfg, FiniDecoySeed(cfg), 0, HASH_LENGTH);
    DecoyHex(cfg, FiniDecoySeed(cfg), 0, HASH_LENGTH)
  }

  /** The key the sentinel is verified with, drawn after the salt: shaped like a real user's. */
  function FiniDecoyKey(cfg: Config): (r: string)
    ensures IsHexField(r, 2 * HASH_LENGTH)
  {
    DecoyShape(cfg, FiniDecoySeed(cfg), HASH_LENGTH, HASH_LENGTH);
    DecoyHex(cfg, FiniDecoySeed(cfg), HASH_LENGTH, HASH_LENGTH)
  }

  /** The sentinel's salt and key are one draw of 2 * HASH_LENGTH bytes from the seeded stream, salt first. */
  lemma FiniDecoysAreOneDraw(cfg: Config)
    ensures FiniDecoySalt(cfg) + FiniDecoyKey(cfg) == DecoyHex(cfg, FiniDecoySeed(cfg), 0, 2 * HASH_LENGTH)
  {
    var seed := FiniDecoySeed(cfg);
    BogusBytesConsecutive(cfg.stream, seed, 0, HASH_LENGTH, HASH_LENGTH);
    BytesToHexAppend(BogusBytes(cfg.stream, seed, 0, HASH_LENGTH), BogusBytes(cfg.stream, seed, HASH_LENGTH, HASH_LENGTH));
  }

  /** `pass`, `client_salt`, `client_key` and `server_key` before the proof is checked. */
  datatype Credentials = Credentials(pass: bool, salt: string, clientKey: string, serverKey: string)

  /** session.ts:158-181: the user's values, or decoys (and no pass) for the sentinel. */
  function FiniCredentials(cfg: Config, user: User, emailHash: string, iterations: Number): (r: Credentials)
    ensures r.pass <==> user.email_hash != EmptyHash(cfg) && emailHash == user.email_hash && NumberIs(iterations, user.iterations)
    ensures user.email_hash != EmptyHash(cfg) ==>
      r.salt == user.client_salt && r.clientKey == user.client_key && r.serverKey == user.server_key
    ensures user.email_hash == EmptyHash(cfg) ==>
      r.clientKey == r.serverKey && IsHexField(r.salt, 2 * HASH_LENGTH) && IsHexField(r.clientKey, 2 * HASH_LENGTH)
  {
    if user.email_hash != EmptyHash(cfg) then
      Credentials(emailHash == user.email_hash && NumberIs(iterations, user.iterations),
                  user.client_salt, user.client_key, user.server_key)
    else
      Credentials(false, FiniDecoySalt(cfg), FiniDecoyKey(cfg), FiniDecoyKey(cfg))
  }

  /** The `auth` string both sides prove knowledge of (session.ts:185). */
  function AuthMessage(emailHash: string, clientNonce: string, serverNonce: string, salt: string): (r: string)
    ensures |r| == |emailHash| + |clientNonce| + |serverNonce| + |salt| + 3
  {
    emailHash + "," + clientNonce + "," + serverNonce + "," + salt
  }

  /**
    Fields of fixed lengths are recovered from the `auth` string, so a proof over one
    exchange is a proof over nothing else; in the protocol the first three fields are
    128 hex digits each.
  */
  lemma AuthMessageBindsExchange(e1: string, c1: string, s1: string, a1: string, e2: string, c2: string, s2: string, a2: string)
    requires |e1| == |e2| && |c1| == |c2| && |s1| == |s2|
    requires AuthMessage(e1, c1, s1, a1) == AuthMessage(e2, c2, s2, a2)
    ensures e1 == e2 && c1 == c2 && s1 == s2 && a1 == a2
  {
    var m := AuthMessage(e1, c1, s1, a1);
    var i := |e1| + 1;
    var j := i + |c1| + 1;
    var k := j + |s1| + 1;
    assert m == e1 + ("," + (c1 + ("," + (s1 + ("," + a1)))));
    assert m == e2 + ("," + (c2 + ("," + (s2 + ("," + a2)))));
    assert e1 == m[..|e1|] == e2;
    assert c1 == m[i..i + |c1|] == c2;
    assert s1 == m[j..j + |s1|] == s2;
    assert a1 == m[k..] == a2;
  }

  /** `auth_bytes[i]`; past the end it is `undefined`, which `^` reads as 0. */
  function KeyByte(key: seq<byte>, i: nat): byte {
    if i < |key| then key[i] else 0
  }

  /** `proof_bytes` after `for (i < HASH_LENGTH) proof_bytes[i] ^= auth_bytes[i]`. */
  function Mix(proof: seq<byte>, key: seq<byte>): (r: seq<byte>)
    ensures |r| == |proof|
  {
    seq(|proof|, i requires 0 <= i < |proof| => if i < HASH_LENGTH then Xor(proof[i], KeyByte(key, i)) else proof[i])
  }

  /** Masking twice with the same key gives the proof back: the client masks, the server unmasks. */
  lemma MixCancels(proof: seq<byte>, key: seq<byte>)
    ensures Mix(Mix(proof, key), key) == proof
  {
    var once := Mix(proof, key);
    forall i | 0 <= i < |proof| && i < HASH_LENGTH
      ensures Mix(once, key)[i] == proof[i]
    {
      XorCancels(proof[i], KeyByte(key, i));
    }
  }

  /** The loop at session.ts:190-192; writes past the end of a Uint8Array are dropped. */
  method MixInPlace(proofBytes: array<byte>, authBytes: seq<byte>)
    modifies proofBytes
    ensures proofBytes[..] == Mix(old(proofBytes[..]), authBytes)
  {
    for i := 0 to HASH_LENGTH
      invariant forall k :: 0 <= k < proofBytes.Length ==>
        proofBytes[k] == if k < i then Mix(old(proofBytes[..]), authBytes)[k] else old(proofBytes[k])
    {
      if i < proofBytes.Length {
        proofBytes[i] := Xor(proofBytes[i], KeyByte(authBytes, i));
      }
    }
  }

  /** `client_check`: the hash of the client key recovered from the proof. */
  function ClientCheck(cfg: Config, proof: string, clientKey: string, auth: string): (r: string)
    ensures IsHexField(r, 2 * HASH_LENGTH)
  {
    cfg.hash(BytesToHex(Mix(HexToBytes(proof), HexToBytes(cfg.hmac(clientKey, auth)))), "")
  }

  /** The fields of a `session_login_fini` body, once `check_parameters` has accepted it. */
  datatype FiniRequest = FiniRequest(
    emailHash: string,
    clientNonce: string,
    serverNonce: string,
    iterations: Number,
    expiration: Number,
    clientProof: string)

  function FiniFields(body: Request): FiniRequest {
    FiniRequest(StringParam(body, "email_hash"), StringParam(body, "client_nonce"), StringParam(body, "server_nonce"),
                NumberParam(body, "iterations"), NumberParam(body, "challenge_expiration"), StringParam(body, "client_proof"))
  }

  /** The format checks of session.ts:103-123, with the proof checked only under the guard of line 118. */
  predicate FiniFormatOk(q: FiniRequest) {
    && IsHexField(q.emailHash, 2 * HASH_LENGTH)
    && IsHexField(q.clientNonce, 2 * NONCE_LENGTH)
    && IsHexField(q.serverNonce, 2 * NONCE_LENGTH)
    && (NotWholeOrNegative(q.iterations) ==> IsHexField(q.clientProof, 2 * HASH_LENGTH))
  }

  /**
    What `session_login_fini` may change: it never touches the users or the challenge counter,
    never adds a challenge, and opens a session only by burning one.
  */
  predicate FiniShape(t: Tables, t': Tables) {
    && t'.users == t.users
    && t'.emptyUser == t.emptyUser
    && t'.nextChallengeId == t.nextChallengeId
    && |t'.challenges| <= |t.challenges|
    && (t'.sessions != t.sessions ==> |t'.challenges| < |t.challenges|)
  }

  /** The new tables and response after `session_login_fini` (session.ts:82-217). */
  function FiniOutcome(cfg: Config, t: Tables, r: Reply, body: Request, ip: string, now: int, token: Nonce): (out: (Tables, Reply))
    ensures FiniShape(t, out.0)
    ensures out.0.sessions != t.sessions ==> Problems(body, FiniParams) == []
  {
    var problems := Problems(body, FiniParams);
    if problems != [] then (t, Fail(r, 400, BadRequest(problems)))
    else
      var q := FiniFields(body);
      if !IsHexField(q.emailHash, 2 * HASH_LENGTH) then (t, Fail(r, 400, EmailHashMessage))
      else if !IsHexField(q.clientNonce, 2 * NONCE_LENGTH) then (t, Fail(r, 400, ClientNonceMessage))
      else if !IsHexField(q.serverNonce, 2 * NONCE_LENGTH) then (t, Fail(r, 400, ServerNonceMessage))
      else if NotWholeOrNegative(q.iterations) && !IsHexField(q.clientProof, 2 * HASH_LENGTH) then
        (t, Fail(r, 400, ClientProofMessage))
      else FiniConsume(cfg, t, r, q, ip, now, token)
  }

  /** session.ts:126-156: find the challenge, burn it, and reject a mismatch or a late answer. */
  function FiniConsume(cfg: Config, t: Tables, r: Reply, q: FiniRequest, ip: string, now: int, token: Nonce): (out: (Tables, Reply))
    ensures FiniShape(t, out.0)
  {
    var user := FiniUser(t, q.emailHash);
    var found := MatchingChallenges(t.challenges, ip, q.clientNonce, q.serverNonce);
    if |found| != 1 || found[0].user_id != user.user_id || !NumberIs(q.expiration, found[0].expiration) then
      (if |found| == 1 then DeleteChallenge(t, found[0].challenge_id) else t, Fail(r, 400, NoChallengeMessage))
    else
      var t1 := DeleteChallenge(t, found[0].challenge_id);
      DeleteChallengeShrinks(t, found[0]);
      if now > found[0].expiration then (t1, Fail(r, 408, ExpiredMessage))
      else FiniAuthenticate(cfg, t1, r, user, q, now, token)
  }

  /** session.ts:158-216: verify the proof, then open a session and prove the server to the client. */
  function FiniAuthenticate(cfg: Config, t: Tables, r: Reply, user: User, q: FiniRequest, now: int, token: Nonce): (out: (Tables, Reply))
    ensures out.0 == t || out.0 == InsertSession(t, token, user.user_id, now + SESSION_EXPIRATION)
    ensures !FiniCredentials(cfg, user, q.emailHash, q.iterations).pass ==>
      out == (t, Fail(r, 403, InvalidCredentialsMessage))
  {
    var cred := FiniCredentials(cfg, user, q.emailHash, q.iterations);
    var auth := AuthMessage(q.emailHash, q.clientNonce, q.serverNonce, cred.salt);
    if !(cred.pass && ClientCheck(cfg, q.clientProof, cred.clientKey, auth) == cred.clientKey) then
      (t, Fail(r, 403, InvalidCredentialsMessage))
    else
      (InsertSession(t, token, user.user_id, now + SESSION_EXPIRATION),
       Respond(r, FiniBody(cfg.hmac(cred.serverKey, auth), token, SESSION_EXPIRATION, user.admin)))
  }

  /** `session_login_fini`. */
  method LoginFini(cfg: Config, db: Database, res: Response, body: Request, ip: string, now: int, token: Nonce)
    modifies db, res
    ensures (db.Snapshot(), res.Snapshot()) == FiniOutcome(cfg, old(db.Snapshot()), old(res.Snapshot()), body, ip, now, token)
  {
    var ok := CheckParameters(res, body, FiniParams);
    if !ok {
      return;
    }
    var q := FiniFields(body);
    if !IsHexField(q.emailHash, 2 * HASH_LENGTH) {
      res.SetStatus(400);
      res.SetMessage(EmailHashMessage);
      return;
    }
    if !IsHexField(q.clientNonce, 2 * NONCE_LENGTH) {
      res.SetStatus(400);
      res.SetMessage(ClientNonceMessage);
      return;
    }
    if !IsHexField(q.serverNonce, 2 * NONCE_LENGTH) {
      res.SetStatus(400);
      res.SetMessage(ServerNonceMessage);
      return;
    }
    // No braces in the source: the proof format is checked only under this guard.
    if NotWholeOrNegative(q.iterations) {
      if !IsHexField(q.clientProof, 2 * HASH_LENGTH) {
        res.SetStatus(400);
        res.SetMessage(ClientProofMessage);
        return;
      }
    }
    ConsumeChallenge(cfg, db, res, q, ip, now, token);
  }

  method ConsumeChallenge(cfg: Config, db: Database, res: Response, q: FiniRequest, ip: string, now: int, token: Nonce)
    modifies db, res
    ensures (db.Snapshot(), res.Snapshot()) == FiniConsume(cfg, old(db.Snapshot()), old(res.Snapshot()), q, ip, now, token)
  {
    ghost var t := db.Snapshot();
    var users := UsersWithHash(db.users, q.emailHash);
    var user := if |users| == 1 then users[0] else db.emptyUser;
    assert user == FiniUser(t, q.emailHash);
    var challenges := MatchingChallenges(db.challenges, ip, q.clientNonce, q.serverNonce);
    var challenge: Option<Challenge> := if |challenges| == 1 then Some(challenges[0]) else None;

    if challenge.None? || challenge.value.user_id != user.user_id || !NumberIs(q.expiration, challenge.value.expiration) {
      res.SetStatus(400);
      res.SetMessage(NoChallengeMessage);
      if challenge.Some? {
        db.RemoveChallenge(challenge.value.challenge_id);
      }
    } else if now > challenge.value.expiration {
      res.SetStatus(408);
      res.SetMessage(ExpiredMessage);
      db.RemoveChallenge(challenge.value.challenge_id);
    } else {
      db.RemoveChallenge(challenge.value.challenge_id);
      Authenticate(cfg, db, res, user, q, now, token);
    }
  }

  method Authenticate(cfg: Config, db: Database, res: Response, user: User, q: FiniRequest, now: int, token: Nonce)
    modifies db, res
    ensures (db.Snapshot(), res.Snapshot()) == FiniAuthenticate(cfg, old(db.Snapshot()), old(res.Snapshot()), user, q, now, token)
  {
    // The challenge's user is the row with this user_id, that is `user`.
    var pass := user.email_hash != EmptyHash(cfg);
    var noise := BogusPrng(cfg, cfg.serverHashSalt);
    var bogusSalt := RandomStringBogus(noise, HASH_LENGTH);
    var bogusKey := RandomStringBogus(noise, HASH_LENGTH);
    var clientSalt, clientKey, serverKey;
    if pass {
      clientSalt, clientKey, serverKey := user.client_salt, user.client_key, user.server_key;
      pass := pass && q.emailHash == user.email_hash && NumberIs(q.iterations, user.iterations);
    } else {
      // Decoys are verified all the same, so that an unknown fingerprint takes the same path.
      clientSalt, clientKey, serverKey := bogusSalt, bogusKey, bogusKey;
      pass := false;
    }

    var auth := AuthMessage(q.emailHash, q.clientNonce, q.serverNonce, clientSalt);
    var clientCheck := VerifyProof(cfg, q.clientProof, clientKey, auth);
    pass := pass && clientCheck == clientKey;

    if !pass {
      res.SetStatus(403);
      res.SetMessage(InvalidCredentialsMessage);
      return;
    }

    db.SaveNewSession(token, user.user_id, now + SESSION_EXPIRATION);
    res.SetBody(FiniBody(cfg.hmac(serverKey, auth), token, SESSION_EXPIRATION, user.admin));
  }

  /** session.ts:187-196: unmask the client key with the HMAC of `auth` and hash it. */
  method VerifyProof(cfg: Config, clientProof: string, clientKey: string, auth: string) returns (clientCheck: string)
    ensures clientCheck == ClientCheck(cfg, clientProof, clientKey, auth)
  {
    var proofBytes := HexToArray(clientProof);
    var authBytes := HexToArray(cfg.hmac(clientKey, auth));
    MixInPlace(proofBytes, authBytes[..]);
    clientCheck := cfg.hash(BytesToHex(proofBytes[..]), "");
  }

  // ---------------------------------------------------------------- sessions

  /** `session_id || ctx.get('Authorization')`: the argument when given, otherwise the header. */
  function SessionToken(sessionId: string, authorization: string): (r: string)
    ensures r == sessionId || r == authorization
    ensures sessionId != "" ==> r == sessionId
    ensures r == "" <==> sessionId == "" && authorization == ""
  {
    if sessionId != "" then sessionId else authorization
  }

  /**
    The new tables, response and result of `check_session(ctx, sessionId)` (session.ts:234-250);
    an empty `sessionId` stands for the omitted argument, and the `Authorization` header is used.
  */
  function CheckOutcome(t: Tables, r: Reply, sessionId: string, authorization: string, now: int): (out: (Tables, Reply, Option<Session>))
    ensures out.0 == t.(sessions := out.0.sessions) && |out.0.sessions| == |t.sessions|
    ensures out.2.None? ==> out.0 == t && out.1 == Fail(r, 401, UnauthorizedMessage)
    ensures out.2.Some? ==>
      && out.1 == r
      && out.2.value.session_token == SessionToken(sessionId, authorization) != ""
      && out.2.value.expiration == now + SESSION_EXPIRATION
      && out.2.value in out.0.sessions
  {
    var token := SessionToken(sessionId, authorization);
    var found := if token == "" then None else FindSession(t.sessions, token);
    if found.None? || found.value.expiration < now then (t, Fail(r, 401, UnauthorizedMessage), None)
    else
      var renewed := found.value.(expiration := now + SESSION_EXPIRATION);
      (SaveSession(t, renewed), r, Some(renewed))
  }

  /** `check_session`. */
  method CheckSession(db: Database, res: Response, sessionId: string, authorization: string, now: int)
    returns (session: Option<Session>)
    modifies db, res
    ensures (db.Snapshot(), res.Snapshot(), session) == CheckOutcome(old(db.Snapshot()), old(res.Snapshot()), sessionId, authorization, now)
  {
    var token := SessionToken(sessionId, authorization);
    var found := if token == "" then None else FindSession(db.sessions, token);
    if found.None? || found.value.expiration < now {
      res.SetStatus(401);
      res.SetMessage(UnauthorizedMessage);
      return None;
    }
    var renewed := found.value.(expiration := now + SESSION_EXPIRATION);
    db.SaveLoadedSession(renewed);
    return Some(renewed);
  }

  /** The new tables and response after `session_logout` (session.ts:221-230). */
  function LogoutOutcome(t: Tables, r: Reply, authorization: string, now: int): (out: (Tables, Reply))
    ensures out.0 == t.(sessions := out.0.sessions) && |out.0.sessions| <= |t.sessions|
    ensures out.1.body == Some(LogoutBody("", 0))
  {
    var (t1, r1, session) := CheckOutcome(t, r, "", authorization, now);
    var t2 := if session.Some? then DeleteSession(t1, session.value.session_id) else t1;
    (t2, Respond(r1, LogoutBody("", 0)))
  }

  /** `session_logout`. */
  method Logout(db: Database, res: Response, authorization: string, now: int)
    modifies db, res
    ensures (db.Snapshot(), res.Snapshot()) == LogoutOutcome(old(db.Snapshot()), old(res.Snapshot()), authorization, now)
  {
    var session := CheckSession(db, res, "", authorization, now);
    if session.Some? {
      db.RemoveSession(session.value.session_id);
    }
    res.SetBody(LogoutBody("", 0));
  }
}
