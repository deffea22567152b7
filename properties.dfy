/**
  What the login protocol promises, proved about the handler functions of module
  Sessions: malformed requests change nothing, a challenge is single-use and
  short-lived, an unknown fingerprint is answered with stable decoys and never
  authenticates, an honest client is let in, and sessions are renewed and ended
  one at a time. Every request starts from Koa's fresh response.
*/
module Protocol {
  import opened Wrappers
  import opened Hex
  import opened Crypto
  import opened Http
  import opened Params
  import opened Store
  import opened Sessions

  // ---------------------------------------------------------------- login_init

  /** The checks `session_login_init` makes before it touches the store. */
  predicate InitInputOk(body: Request) {
    && Problems(body, InitParams) == []
    && IsHexField(StringParam(body, "email_hash"), 2 * HASH_LENGTH)
    && IsHexField(StringParam(body, "client_nonce"), 2 * NONCE_LENGTH)
  }

  /** A malformed init request, and only that, is answered 400; it stores nothing and sends no body. */
  lemma InitRejectsMalformed(cfg: Config, t: Tables, body: Request, ip: string, now: int, serverNonce: Nonce)
    ensures var (t', r') := InitOutcome(cfg, t, Fresh, body, ip, now, serverNonce);
      && (!InitInputOk(body) <==> r'.status == 400)
      && (!InitInputOk(body) ==> t' == t && r'.body == None)
  {
  }

  /**
    A well-formed init request stores exactly one challenge, bound to the caller's
    address, both nonces, the user found (or the sentinel) and an expiration two
    minutes ahead, and answers 200 with it; when the same address and nonces already
    have a challenge, it answers 500 and stores nothing.
  */
  lemma InitIssuesChallenge(cfg: Config, t: Tables, body: Request, ip: string, now: int, serverNonce: Nonce)
    requires InitInputOk(body)
    ensures var emailHash, clientNonce := StringParam(body, "email_hash"), StringParam(body, "client_nonce");
      var user := InitUser(cfg, t, emailHash);
      var (t', r') := InitOutcome(cfg, t, Fresh, body, ip, now, serverNonce);
      var c := Challenge(t.nextChallengeId, clientNonce, serverNonce, ip,
                         if user.Some? then user.value.user_id else t.emptyUser.user_id, now + CHALLENGE_EXPIRATION);
      if exists c0 :: c0 in t.challenges && SameTuple(c0, ip, clientNonce, serverNonce) then
        t' == t && r'.status == 500 && r'.body == None
      else
        && t' == t.(challenges := t.challenges + [c], nextChallengeId := t.nextChallengeId + 1)
        && r'.status == 200
        && r'.body.Some? && r'.body.value.InitBody?
        && r'.body.value.client_nonce == clientNonce && r'.body.value.server_nonce == serverNonce
        && r'.body.value.challenge_expiration == now + CHALLENGE_EXPIRATION
  {
    var emailHash, clientNonce := StringParam(body, "email_hash"), StringParam(body, "client_nonce");
    var user := InitUser(cfg, t, emailHash);
    InsertChallengeSaves(t, clientNonce, serverNonce, ip, if user.Some? then user.value.user_id else t.emptyUser.user_id, now + CHALLENGE_EXPIRATION);
  }

  /**
    The user init binds is the one user with that fingerprint, and never for the
    sentinel's fingerprint, which `Database.EMPTY_HASH` reserves.
  */
  lemma InitUserIsUnique(cfg: Config, t: Tables, emailHash: string)
    ensures InitUser(cfg, t, emailHash).Some? <==> emailHash != EmptyHash(cfg) && |UsersWithHash(t.users, emailHash)| == 1
    ensures InitUser(cfg, t, emailHash).Some? ==>
      var u := InitUser(cfg, t, emailHash).value;
      u in t.users && u.email_hash == emailHash && UsersWithHash(t.users, emailHash) == [u]
  {
  }

  /**
    A known user gets their own salt and iteration count; an unknown fingerprint gets
    decoys shaped like a real salt and count (128 lower-case hex digits, about 2^17
    iterations).
  */
  lemma InitAnswersSaltAndIterations(cfg: Config, t: Tables, body: Request, ip: string, now: int, serverNonce: Nonce)
    requires InitInputOk(body)
    ensures var emailHash := StringParam(body, "email_hash");
      var user := InitUser(cfg, t, emailHash);
      var (t', r') := InitOutcome(cfg, t, Fresh, body, ip, now, serverNonce);
      r'.body.Some? ==>
        && r'.body.value.InitBody?
        && (user.Some? ==> r'.body.value.client_salt == user.value.client_salt && r'.body.value.iterations == user.value.iterations)
        && (user.None? ==> && r'.body.value.client_salt == InitDecoySalt(cfg, emailHash)
                           && r'.body.value.iterations == InitDecoyIterations(cfg, emailHash)
                           && IsHexField(r'.body.value.client_salt, 2 * NONCE_LENGTH)
                           && 127795 <= r'.body.value.iterations <= 134349)
  {
  }

  /**
    The decoys depend on the fingerprint alone: two init requests for the same unknown
    fingerprint get the same salt and count, whatever the tables, address, time and nonces.
  */
  lemma InitDecoysAreStable(cfg: Config, t1: Tables, body1: Request, ip1: string, now1: int, serverNonce1: Nonce,
                                         t2: Tables, body2: Request, ip2: string, now2: int, serverNonce2: Nonce)
    requires InitInputOk(body1) && InitInputOk(body2)
    requires StringParam(body1, "email_hash") == StringParam(body2, "email_hash")
    requires InitUser(cfg, t1, StringParam(body1, "email_hash")).None?
    requires InitUser(cfg, t2, StringParam(body2, "email_hash")).None?
    ensures var r1 := InitOutcome(cfg, t1, Fresh, body1, ip1, now1, serverNonce1).1;
      var r2 := InitOutcome(cfg, t2, Fresh, body2, ip2, now2, serverNonce2).1;
      r1.body.Some? && r2.body.Some? ==>
        r1.body.value.client_salt == r2.body.value.client_salt && r1.body.value.iterations == r2.body.value.iterations
  {
  }

  // ---------------------------------------------------------------- login_fini

  /** The checks `session_login_fini` makes on the body alone (session.ts:83-123). */
  predicate FiniInputOk(body: Request) {
    Problems(body, FiniParams) == [] && FiniFormatOk(FiniFields(body))
  }

  /**
    The challenge is answered: exactly one challenge is stored for this address and
    these nonces, it was issued to the user the fingerprint resolves to, and the
    expiration it was issued with is echoed back.
  */
  predicate ChallengeAnswered(t: Tables, body: Request, ip: string) {
    var q := FiniFields(body);
    var found := MatchingChallenges(t.challenges, ip, q.clientNonce, q.serverNonce);
    |found| == 1 && found[0].user_id == FiniUser(t, q.emailHash).user_id && NumberIs(q.expiration, found[0].expiration)
  }

  /** The challenge answered, if any. */
  function AnsweredChallenge(t: Tables, body: Request, ip: string): Challenge
    requires ChallengeAnswered(t, body, ip)
  {
    var q := FiniFields(body);
    MatchingChallenges(t.challenges, ip, q.clientNonce, q.serverNonce)[0]
  }

  /** The answered challenge has not expired. */
  predicate ChallengeLive(t: Tables, body: Request, ip: string, now: int)
    requires ChallengeAnswered(t, body, ip)
  {
    now <= AnsweredChallenge(t, body, ip).expiration
  }

  /** The `auth` string of the exchange, over the salt of the user the fingerprint resolves to. */
  function FiniAuth(t: Tables, body: Request): string {
    var q := FiniFields(body);
    AuthMessage(q.emailHash, q.clientNonce, q.serverNonce, FiniUser(t, q.emailHash).client_salt)
  }

  /**
    The credentials hold: the fingerprint resolves to a real user (not the owner of
    the empty fingerprint) with this iteration count, and the proof, unmasked with the
    HMAC of the exchange under the stored client key, hashes to that stored key.
  */
  predicate CredentialsHold(cfg: Config, t: Tables, body: Request) {
    var q := FiniFields(body);
    var user := FiniUser(t, q.emailHash);
    && user.email_hash != EmptyHash(cfg)
    && q.emailHash == user.email_hash
    && NumberIs(q.iterations, user.iterations)
    && ClientCheck(cfg, q.clientProof, user.client_key, FiniAuth(t, body)) == user.client_key
  }

  /** Everything `session_login_fini` demands before it opens a session. */
  predicate FiniAccepts(cfg: Config, t: Tables, body: Request, ip: string, now: int) {
    && FiniInputOk(body)
    && ChallengeAnswered(t, body, ip)
    && ChallengeLive(t, body, ip, now)
    && CredentialsHold(cfg, t, body)
  }

  /**
    Which status fini answers, in both directions: 400 for a malformed body or an
    unmatched challenge, 408 for an expired one, 403 for bad credentials, 200 otherwise.
  */
  lemma FiniStatusCodes(cfg: Config, t: Tables, body: Request, ip: string, now: int, token: Nonce)
    ensures var r' := FiniOutcome(cfg, t, Fresh, body, ip, now, token).1;
      && (r'.status == 400 <==> !FiniInputOk(body) || !ChallengeAnswered(t, body, ip))
      && (r'.status == 408 <==> FiniInputOk(body) && ChallengeAnswered(t, body, ip) && !ChallengeLive(t, body, ip, now))
      && (r'.status == 403 <==> FiniInputOk(body) && ChallengeAnswered(t, body, ip) && ChallengeLive(t, body, ip, now)
                                 && !CredentialsHold(cfg, t, body))
      && (r'.status == 200 <==> FiniAccepts(cfg, t, body, ip, now))
  {
  }

  /**
    An accepted fini burns the challenge, saves the session for the user that expires
    in 15 minutes (unless a row already holds that token, when the save changes nothing),
    and proves the server with the HMAC of the exchange under the server key; any
    other fini leaves the sessions alone and sends no body.
  */
  lemma FiniOpensSession(cfg: Config, t: Tables, body: Request, ip: string, now: int, token: Nonce)
    ensures var (t', r') := FiniOutcome(cfg, t, Fresh, body, ip, now, token);
      if FiniAccepts(cfg, t, body, ip, now) then
        var user := FiniUser(t, FiniFields(body).emailHash);
        && t' == InsertSession(DeleteChallenge(t, AnsweredChallenge(t, body, ip).challenge_id), token, user.user_id, now + SESSION_EXPIRATION)
        && r'.body == Some(FiniBody(cfg.hmac(user.server_key, FiniAuth(t, body)), token, SESSION_EXPIRATION, user.admin))
      else
        t'.sessions == t.sessions && t'.nextSessionId == t.nextSessionId && r'.body == None
  {
    if FiniAccepts(cfg, t, body, ip, now) {
      FiniAccepted(cfg, t, body, ip, now, token);
    } else {
      FiniRefused(cfg, t, body, ip, now, token);
    }
  }

  lemma FiniAccepted(cfg: Config, t: Tables, body: Request, ip: string, now: int, token: Nonce)
    requires FiniAccepts(cfg, t, body, ip, now)
    ensures var (t', r') := FiniOutcome(cfg, t, Fresh, body, ip, now, token);
      var user := FiniUser(t, FiniFields(body).emailHash);
      && t' == InsertSession(DeleteChallenge(t, AnsweredChallenge(t, body, ip).challenge_id), token, user.user_id, now + SESSION_EXPIRATION)
      && r'.body == Some(FiniBody(cfg.hmac(user.server_key, FiniAuth(t, body)), token, SESSION_EXPIRATION, user.admin))
  {
    var q := FiniFields(body);
    var c := AnsweredChallenge(t, body, ip);
    assert MatchingChallenges(t.challenges, ip, q.clientNonce, q.serverNonce) == [c];
    FiniReachesConsume(cfg, t, Fresh, body, ip, now, token);
    ConsumeAnswered(cfg, t, Fresh, q, ip, now, token, c);
    AuthenticateAccepts(cfg, DeleteChallenge(t, c.challenge_id), FiniUser(t, q.emailHash), q, now, token);
  }

  lemma FiniRefused(cfg: Config, t: Tables, body: Request, ip: string, now: int, token: Nonce)
    requires !FiniAccepts(cfg, t, body, ip, now)
    ensures var (t', r') := FiniOutcome(cfg, t, Fresh, body, ip, now, token);
      t'.sessions == t.sessions && t'.nextSessionId == t.nextSessionId && r'.body == None
  {
  }

  /** What fini does to the challenge table: it deletes the one challenge found, if any. */
  lemma FiniChallengeTable(cfg: Config, t: Tables, body: Request, ip: string, now: int, token: Nonce)
    ensures var t' := FiniOutcome(cfg, t, Fresh, body, ip, now, token).0;
      var q := FiniFields(body);
      var found := MatchingChallenges(t.challenges, ip, q.clientNonce, q.serverNonce);
      && t'.users == t.users && t'.emptyUser == t.emptyUser && t'.nextChallengeId == t.nextChallengeId
      && t'.challenges == (if FiniInputOk(body) && |found| == 1 then WithoutChallenge(t.challenges, found[0].challenge_id) else t.challenges)
      && (!FiniInputOk(body) ==> t' == t)
  {
    if FiniInputOk(body) {
      ConsumeChallengeTable(cfg, t, Fresh, FiniFields(body), ip, now, token);
    }
  }

  lemma ConsumeChallengeTable(cfg: Config, t: Tables, r: Reply, q: FiniRequest, ip: string, now: int, token: Nonce)
    ensures var t' := FiniConsume(cfg, t, r, q, ip, now, token).0;
      var found := MatchingChallenges(t.challenges, ip, q.clientNonce, q.serverNonce);
      && t'.users == t.users && t'.emptyUser == t.emptyUser && t'.nextChallengeId == t.nextChallengeId
      && t'.challenges == (if |found| == 1 then WithoutChallenge(t.challenges, found[0].challenge_id) else t.challenges)
  {
    var found := MatchingChallenges(t.challenges, ip, q.clientNonce, q.serverNonce);
    if |found| == 1 {
      var t1 := DeleteChallenge(t, found[0].challenge_id);
      AuthenticateKeepsChallenges(cfg, t1, r, FiniUser(t, q.emailHash), q, now, token);
    }
  }

  /** The proof check and the new session touch only the session table. */
  lemma AuthenticateKeepsChallenges(cfg: Config, t: Tables, r: Reply, user: User, q: FiniRequest, now: int, token: Nonce)
    ensures var t' := FiniAuthenticate(cfg, t, r, user, q, now, token).0;
      t'.(sessions := t.sessions, nextSessionId := t.nextSessionId) == t
  {
  }

  /**
    Fini burns the challenge on every branch past the input checks: no challenge for
    this address and these nonces is left, and no challenge is added.
  */
  lemma FiniBurnsChallenge(cfg: Config, t: Tables, body: Request, ip: string, now: int, token: Nonce)
    requires WellFormed(t)
    ensures var t' := FiniOutcome(cfg, t, Fresh, body, ip, now, token).0;
      var q := FiniFields(body);
      && t'.users == t.users && t'.emptyUser == t.emptyUser && t'.nextChallengeId == t.nextChallengeId
      && (forall c :: c in t'.challenges ==> c in t.challenges)
      && (FiniInputOk(body) ==> MatchingChallenges(t'.challenges, ip, q.clientNonce, q.serverNonce) == [])
      && (!FiniInputOk(body) ==> t' == t)
  {
    var q := FiniFields(body);
    var found := MatchingChallenges(t.challenges, ip, q.clientNonce, q.serverNonce);
    AtMostOneMatch(t, ip, q.clientNonce, q.serverNonce);
    FiniChallengeTable(cfg, t, body, ip, now, token);
    if |found| == 1 {
      DeleteChallengeWellFormed(t, found[0].challenge_id);
      BurntChallengeIsGone(t.challenges, ip, q.clientNonce, q.serverNonce);
    }
  }

  /** Without exactly one challenge to answer, fini is refused with 400 and changes nothing. */
  lemma FiniUnmatched(cfg: Config, t: Tables, body: Request, ip: string, now: int, token: Nonce)
    requires var q := FiniFields(body);
      !FiniInputOk(body) || |MatchingChallenges(t.challenges, ip, q.clientNonce, q.serverNonce)| != 1
    ensures var (t', r') := FiniOutcome(cfg, t, Fresh, body, ip, now, token);
      t' == t && r'.status == 400 && r'.body == None
  {
  }

  /**
    The `if` at session.ts:118 has no braces, so the proof's format is checked only
    for an iteration count that is not a non-negative whole number: past the other
    checks, the proof error is answered exactly then, and a well-formed count lets
    any proof through to the challenge lookup.
  */
  lemma ProofFormatCheckedOnlyUnderGuard(cfg: Config, t: Tables, body: Request, ip: string, now: int, token: Nonce)
    requires Problems(body, FiniParams) == []
    requires var q := FiniFields(body);
      IsHexField(q.emailHash, 2 * HASH_LENGTH) && IsHexField(q.clientNonce, 2 * NONCE_LENGTH) && IsHexField(q.serverNonce, 2 * NONCE_LENGTH)
    ensures var q := FiniFields(body);
      && (FiniOutcome(cfg, t, Fresh, body, ip, now, token) == (t, Fail(Fresh, 400, ClientProofMessage))
          <==> NotWholeOrNegative(q.iterations) && !IsHexField(q.clientProof, 2 * HASH_LENGTH))
      && (!NotWholeOrNegative(q.iterations) ==> FiniOutcome(cfg, t, Fresh, body, ip, now, token) == FiniConsume(cfg, t, Fresh, q, ip, now, token))
  {
    var q := FiniFields(body);
    if !(NotWholeOrNegative(q.iterations) && !IsHexField(q.clientProof, 2 * HASH_LENGTH)) {
      ConsumeNeverBlamesProof(cfg, t, q, ip, now, token);
    }
  }

  /** Past the format checks no answer names the proof's format. */
  lemma ConsumeNeverBlamesProof(cfg: Config, t: Tables, q: FiniRequest, ip: string, now: int, token: Nonce)
    ensures FiniConsume(cfg, t, Fresh, q, ip, now, token).1.message != ClientProofMessage
  {
    var m := FiniConsume(cfg, t, Fresh, q, ip, now, token).1.message;
    var found := MatchingChallenges(t.challenges, ip, q.clientNonce, q.serverNonce);
    if |found| == 1 {
      AuthenticateMessages(cfg, DeleteChallenge(t, found[0].challenge_id), FiniUser(t, q.emailHash), q, now, token);
    }
    assert m == NoChallengeMessage || m == ExpiredMessage || m == InvalidCredentialsMessage || m == "";
    assert |ClientProofMessage| == 60;
  }

  lemma AuthenticateMessages(cfg: Config, t: Tables, user: User, q: FiniRequest, now: int, token: Nonce)
    ensures var m := FiniAuthenticate(cfg, t, Fresh, user, q, now, token).1.message;
      m == InvalidCredentialsMessage || m == ""
  {
  }

  /** A fini replayed with the same body from the same address is refused with 400 and changes nothing. */
  lemma FiniReplayIsRejected(cfg: Config, t: Tables, body: Request, ip: string, now: int, token: Nonce, later: int, token': Nonce)
    ensures var (t1, r1) := FiniOutcome(cfg, t, Fresh, body, ip, now, token);
      var (t2, r2) := FiniOutcome(cfg, t1, Fresh, body, ip, later, token');
      t2 == t1 && r2.status == 400 && r2.body == None
  {
    var q := FiniFields(body);
    var found := MatchingChallenges(t.challenges, ip, q.clientNonce, q.serverNonce);
    var t1 := FiniOutcome(cfg, t, Fresh, body, ip, now, token).0;
    if FiniInputOk(body) && |found| == 1 {
      FiniChallengeTable(cfg, t, body, ip, now, token);
      BurntChallengeIsGone(t.challenges, ip, q.clientNonce, q.serverNonce);
    } else {
      FiniUnmatched(cfg, t, body, ip, now, token);
    }
    FiniUnmatched(cfg, t1, body, ip, later, token');
  }

  /**
    With the sentinel given the empty fingerprint (part of SentinelOk, which the
    bootstrap establishes and every handler keeps), a fingerprint that does not name
    exactly one user, or that is the empty one, never authenticates.
  */
  lemma UnknownFingerprintNeverAuthenticates(cfg: Config, t: Tables, body: Request, ip: string, now: int, token: Nonce)
    requires t.emptyUser.email_hash == EmptyHash(cfg)
    requires var emailHash := FiniFields(body).emailHash;
      |UsersWithHash(t.users, emailHash)| != 1 || emailHash == EmptyHash(cfg)
    ensures var (t', r') := FiniOutcome(cfg, t, Fresh, body, ip, now, token);
      r'.status != 200 && t'.sessions == t.sessions
  {
    var emailHash := FiniFields(body).emailHash;
    var users := UsersWithHash(t.users, emailHash);
    FiniStatusCodes(cfg, t, body, ip, now, token);
    FiniOpensSession(cfg, t, body, ip, now, token);
    FirstTwo(users);
  }

  /**
    What `Database.init` sets up and the schema keeps (database.ts:48-68, User.ts:8):
    the sentinel is a stored user with the hash of the empty address, and no two
    users share a fingerprint, since `email_hash` carries a unique index.
  */
  predicate SentinelOk(cfg: Config, t: Tables) {
    && t.emptyUser.email_hash == EmptyHash(cfg)
    && t.emptyUser in t.users
    && forall i, j :: 0 <= i < j < |t.users| ==> t.users[i].email_hash != t.users[j].email_hash
  }

  /** Under the unique index every stored user is the only one with its fingerprint. */
  lemma SentinelOkFindsOne(cfg: Config, t: Tables, u: User)
    requires SentinelOk(cfg, t) && u in t.users
    ensures UsersWithHash(t.users, u.email_hash) == [u]
  {
    var i :| 0 <= i < |t.users| && t.users[i] == u;
    FilterSingle(t.users, (x: User) => x.email_hash == u.email_hash, i);
  }

  /** No handler touches the users or the sentinel, so the bootstrap's guarantee outlives every request. */
  lemma HandlersKeepSentinel(cfg: Config, t: Tables, r: Reply, body: Request, ip: string, now: int, nonce: Nonce,
                             sessionId: string, authorization: string)
    requires SentinelOk(cfg, t)
    ensures SentinelOk(cfg, InitOutcome(cfg, t, r, body, ip, now, nonce).0)
    ensures SentinelOk(cfg, FiniOutcome(cfg, t, r, body, ip, now, nonce).0)
    ensures SentinelOk(cfg, CheckOutcome(t, r, sessionId, authorization, now).0)
    ensures SentinelOk(cfg, LogoutOutcome(t, r, authorization, now).0)
  {
  }

  // ---------------------------------------------------------------- an honest login

  /** The body of an init request. */
  function InitRequest(emailHash: string, clientNonce: string): Request {
    map["email_hash" := JsString(emailHash), "client_nonce" := JsString(clientNonce)]
  }

  /** The body of a fini request, echoing the challenge the client was given. */
  function FiniRequestBody(emailHash: string, clientNonce: string, serverNonce: string, iterations: int, expiration: int,
                           clientProof: string): Request {
    map["email_hash" := JsString(emailHash), "client_nonce" := JsString(clientNonce),
        "server_nonce" := JsString(serverNonce), "iterations" := JsNumber(Num(iterations as real)),
        "challenge_expiration" := JsNumber(Num(expiration as real)), "client_proof" := JsString(clientProof)]
  }

  /**
    The proof of a client that holds `clientKey` (RFC 5802, section 3): the key masked
    with the HMAC of `auth` under the stored key, which is the key's hash.
  */
  function HonestProof(cfg: Config, clientKey: Digest, auth: string): string {
    BytesToHex(Mix(HexToBytes(clientKey), HexToBytes(cfg.hmac(cfg.hash(clientKey, ""), auth))))
  }

  /** The server unmasks an honest proof to the client key, whose hash is the stored key. */
  lemma HonestProofChecks(cfg: Config, clientKey: Digest, auth: string)
    ensures IsHexField(HonestProof(cfg, clientKey, auth), 2 * HASH_LENGTH)
    ensures ClientCheck(cfg, HonestProof(cfg, clientKey, auth), cfg.hash(clientKey, ""), auth) == cfg.hash(clientKey, "")
  {
    var keyBytes := HexToBytes(clientKey);
    var mask := HexToBytes(cfg.hmac(cfg.hash(clientKey, ""), auth));
    var masked := Mix(keyBytes, mask);
    var proof := BytesToHex(masked);
    assert |masked| == HASH_LENGTH;
    BytesToHexMatchesHexRex(masked);
    HexToBytesOfBytesToHex(masked);
    MixCancels(keyBytes, mask);
    BytesToHexOfHexToBytes(clientKey);
    calc {
      ClientCheck(cfg, proof, cfg.hash(clientKey, ""), auth);
      cfg.hash(BytesToHex(Mix(HexToBytes(proof), mask)), "");
      cfg.hash(BytesToHex(Mix(masked, mask)), "");
      cfg.hash(BytesToHex(keyBytes), "");
      cfg.hash(clientKey, "");
    }
  }

  lemma InitRequestOk(emailHash: string, clientNonce: Nonce)
    requires IsHexField(emailHash, 2 * HASH_LENGTH)
    ensures InitInputOk(InitRequest(emailHash, clientNonce))
    ensures StringParam(InitRequest(emailHash, clientNonce), "email_hash") == emailHash
    ensures StringParam(InitRequest(emailHash, clientNonce), "client_nonce") == clientNonce
  {
    ProblemsEmptyIff(InitRequest(emailHash, clientNonce), InitParams);
  }

  lemma FiniRequestOk(emailHash: string, clientNonce: Nonce, serverNonce: Nonce, iterations: int, expiration: int, clientProof: string)
    requires IsHexField(emailHash, 2 * HASH_LENGTH) && IsHexField(clientProof, 2 * HASH_LENGTH)
    ensures var body := FiniRequestBody(emailHash, clientNonce, serverNonce, iterations, expiration, clientProof);
      && FiniInputOk(body)
      && FiniFields(body) == FiniRequest(emailHash, clientNonce, serverNonce, Num(iterations as real), Num(expiration as real), clientProof)
  {
    ProblemsEmptyIff(FiniRequestBody(emailHash, clientNonce, serverNonce, iterations, expiration, clientProof), FiniParams);
  }

  /**
    Init for a provisioned user binds a new challenge to that user and answers with
    the user's salt and iteration count.
  */
  lemma HonestInit(cfg: Config, t: Tables, u: User, ip: string, clientNonce: Nonce, serverNonce: Nonce, now: int)
    requires UsersWithHash(t.users, u.email_hash) == [u]
    requires IsHexField(u.email_hash, 2 * HASH_LENGTH) && u.email_hash != EmptyHash(cfg)
    requires forall c :: c in t.challenges ==> !SameTuple(c, ip, clientNonce, serverNonce)
    ensures var (t1, r1) := InitOutcome(cfg, t, Fresh, InitRequest(u.email_hash, clientNonce), ip, now, serverNonce);
      var c := Challenge(t.nextChallengeId, clientNonce, serverNonce, ip, u.user_id, now + CHALLENGE_EXPIRATION);
      && t1 == t.(challenges := t.challenges + [c], nextChallengeId := t.nextChallengeId + 1)
      && r1 == Reply(200, true, "", Some(InitBody(clientNonce, serverNonce, now + CHALLENGE_EXPIRATION, u.client_salt, u.iterations)))
  {
    InitRequestOk(u.email_hash, clientNonce);
    InsertChallengeSaves(t, clientNonce, serverNonce, ip, u.user_id, now + CHALLENGE_EXPIRATION);
  }

  /**
    End to end: a client holding the key whose hash is stored for its user, that sends
    init and then answers with what init returned and its proof, in time, is let in;
    the only trace left is the new session (and the spent challenge key). A token no
    row holds yet is appended as a new session; a token already held leaves the
    session table as it was, though the answer still carries it.
  */
  lemma HonestClientLogsIn(cfg: Config, t: Tables, u: User, clientKey: Digest, ip: string, clientNonce: Nonce,
                           serverNonce: Nonce, now: int, later: int, token: Nonce)
    requires WellFormed(t)
    requires UsersWithHash(t.users, u.email_hash) == [u]
    requires IsHexField(u.email_hash, 2 * HASH_LENGTH) && u.email_hash != EmptyHash(cfg)
    requires u.client_key == cfg.hash(clientKey, "")
    requires forall c :: c in t.challenges ==> !SameTuple(c, ip, clientNonce, serverNonce)
    requires later <= now + CHALLENGE_EXPIRATION
    ensures var (t1, r1) := InitOutcome(cfg, t, Fresh, InitRequest(u.email_hash, clientNonce), ip, now, serverNonce);
      && r1.status == 200 && r1.body.Some? && r1.body.value.InitBody?
      && var b := r1.body.value;
         var auth := AuthMessage(u.email_hash, b.client_nonce, b.server_nonce, b.client_salt);
         var proof := HonestProof(cfg, clientKey, auth);
         var fini := FiniRequestBody(u.email_hash, b.client_nonce, b.server_nonce, b.iterations, b.challenge_expiration, proof);
         var (t2, r2) := FiniOutcome(cfg, t1, Fresh, fini, ip, later, token);
         && r2.status == 200
         && r2.body == Some(FiniBody(cfg.hmac(u.server_key, auth), token, SESSION_EXPIRATION, u.admin))
         && t2 == InsertSession(t, token, u.user_id, later + SESSION_EXPIRATION).(nextChallengeId := t.nextChallengeId + 1)
         && ((forall s :: s in t.sessions ==> s.session_token != token) ==>
               t2.sessions == t.sessions + [Session(t.nextSessionId, token, u.user_id, later + SESSION_EXPIRATION)])
         && ((exists s :: s in t.sessions && s.session_token == token) ==> t2.sessions == t.sessions)
  {
    HonestInit(cfg, t, u, ip, clientNonce, serverNonce, now);
    var auth := AuthMessage(u.email_hash, clientNonce, serverNonce, u.client_salt);
    var proof := HonestProof(cfg, clientKey, auth);
    var body := FiniRequestBody(u.email_hash, clientNonce, serverNonce, u.iterations, now + CHALLENGE_EXPIRATION, proof);
    HonestProofChecks(cfg, clientKey, auth);
    FiniRequestOk(u.email_hash, clientNonce, serverNonce, u.iterations, now + CHALLENGE_EXPIRATION, proof);
    AnsweredFini(cfg, t, u, ip, clientNonce, serverNonce, now, proof, body, later, token);
    InsertSessionCases(t, token, u.user_id, later + SESSION_EXPIRATION, t.nextChallengeId + 1);
  }

  /** The session table after saving a session, whatever happens to the challenge counter. */
  lemma InsertSessionCases(t: Tables, token: string, userId: nat, expiration: int, next: nat)
    ensures var t' := InsertSession(t, token, userId, expiration).(nextChallengeId := next);
      && ((forall s :: s in t.sessions ==> s.session_token != token) ==>
            t'.sessions == t.sessions + [Session(t.nextSessionId, token, userId, expiration)])
      && ((exists s :: s in t.sessions && s.session_token == token) ==> t'.sessions == t.sessions)
  {
  }

  /**
    Fini answering the challenge init issued, in time, with a proof that checks, lets
    the user in: the challenge is burnt, the session is saved for the user (a no-op
    when the token is already taken), and the server proves itself with the HMAC of
    the exchange under the server key.
  */
  lemma AnsweredFini(cfg: Config, t: Tables, u: User, ip: string, clientNonce: Nonce, serverNonce: Nonce,
                     now: int, proof: string, body: Request, later: int, token: Nonce)
    requires WellFormed(t)
    requires UsersWithHash(t.users, u.email_hash) == [u]
    requires u.email_hash != EmptyHash(cfg)
    requires forall c :: c in t.challenges ==> !SameTuple(c, ip, clientNonce, serverNonce)
    requires later <= now + CHALLENGE_EXPIRATION
    requires FiniInputOk(body)
    requires FiniFields(body)
          == FiniRequest(u.email_hash, clientNonce, serverNonce, Num(u.iterations as real), Num((now + CHALLENGE_EXPIRATION) as real), proof)
    requires ClientCheck(cfg, proof, u.client_key, AuthMessage(u.email_hash, clientNonce, serverNonce, u.client_salt)) == u.client_key
    ensures var c := Challenge(t.nextChallengeId, clientNonce, serverNonce, ip, u.user_id, now + CHALLENGE_EXPIRATION);
      var t1 := t.(challenges := t.challenges + [c], nextChallengeId := t.nextChallengeId + 1);
      var auth := AuthMessage(u.email_hash, clientNonce, serverNonce, u.client_salt);
      FiniOutcome(cfg, t1, Fresh, body, ip, later, token)
        == (InsertSession(t, token, u.user_id, later + SESSION_EXPIRATION).(nextChallengeId := t.nextChallengeId + 1),
            Reply(200, true, "", Some(FiniBody(cfg.hmac(u.server_key, auth), token, SESSION_EXPIRATION, u.admin))))
  {
    var expiration := now + CHALLENGE_EXPIRATION;
    var c := Challenge(t.nextChallengeId, clientNonce, serverNonce, ip, u.user_id, expiration);
    var t1 := t.(challenges := t.challenges + [c], nextChallengeId := t.nextChallengeId + 1);
    var q := FiniRequest(u.email_hash, clientNonce, serverNonce, Num(u.iterations as real), Num(expiration as real), proof);
    var t1' := t.(nextChallengeId := t.nextChallengeId + 1);
    var auth := AuthMessage(u.email_hash, clientNonce, serverNonce, u.client_salt);
    var reply := Reply(200, true, "", Some(FiniBody(cfg.hmac(u.server_key, auth), token, SESSION_EXPIRATION, u.admin)));
    calc {
      FiniOutcome(cfg, t1, Fresh, body, ip, later, token);
    == { FiniReachesConsume(cfg, t1, Fresh, body, ip, later, token); }
      FiniConsume(cfg, t1, Fresh, q, ip, later, token);
    == { FreshChallengeFound(t, c);
         ConsumeAnswered(cfg, t1, Fresh, q, ip, later, token, c); }
      FiniAuthenticate(cfg, DeleteChallenge(t1, c.challenge_id), Fresh, FiniUser(t1, q.emailHash), q, later, token);
    == { FreshChallengeFound(t, c);
         assert DeleteChallenge(t1, c.challenge_id) == t1';
         assert FiniUser(t1, q.emailHash) == u; }
      FiniAuthenticate(cfg, t1', Fresh, u, q, later, token);
    == { AuthenticateAccepts(cfg, t1', u, q, later, token); }
      (InsertSession(t1', token, u.user_id, later + SESSION_EXPIRATION), reply);
    == { InsertSessionIgnoresChallenges(t, token, u.user_id, later + SESSION_EXPIRATION, t.nextChallengeId + 1); }
      (InsertSession(t, token, u.user_id, later + SESSION_EXPIRATION).(nextChallengeId := t.nextChallengeId + 1), reply);
    }
  }

  /** Saving a session does not depend on the challenge key counter. */
  lemma InsertSessionIgnoresChallenges(t: Tables, token: string, userId: nat, expiration: int, next: nat)
    ensures InsertSession(t.(nextChallengeId := next), token, userId, expiration)
         == InsertSession(t, token, userId, expiration).(nextChallengeId := next)
  {
  }

  /** A challenge answered in time is burnt and the credentials decide. */
  lemma ConsumeAnswered(cfg: Config, t: Tables, r: Reply, q: FiniRequest, ip: string, now: int, token: Nonce, c: Challenge)
    requires MatchingChallenges(t.challenges, ip, q.clientNonce, q.serverNonce) == [c]
    requires c.user_id == FiniUser(t, q.emailHash).user_id && NumberIs(q.expiration, c.expiration) && now <= c.expiration
    ensures FiniConsume(cfg, t, r, q, ip, now, token)
         == FiniAuthenticate(cfg, DeleteChallenge(t, c.challenge_id), r, FiniUser(t, q.emailHash), q, now, token)
  {
  }

  /**
    A checking proof from the real user the fingerprint names, with the right count, is
    accepted: 200, the server proof, and the session saved unless its token is taken.
  */
  lemma AuthenticateAccepts(cfg: Config, t: Tables, u: User, q: FiniRequest, now: int, token: Nonce)
    requires u.email_hash != EmptyHash(cfg) && q.emailHash == u.email_hash && q.iterations == Num(u.iterations as real)
    requires ClientCheck(cfg, q.clientProof, u.client_key, AuthMessage(q.emailHash, q.clientNonce, q.serverNonce, u.client_salt)) == u.client_key
    ensures FiniAuthenticate(cfg, t, Fresh, u, q, now, token)
         == (InsertSession(t, token, u.user_id, now + SESSION_EXPIRATION),
             Reply(200, true, "", Some(FiniBody(cfg.hmac(u.server_key, AuthMessage(q.emailHash, q.clientNonce, q.serverNonce, u.client_salt)),
                                                token, SESSION_EXPIRATION, u.admin))))
  {
  }

  /** A challenge saved with the next key into a table without its tuple is the one found, and deleting it undoes the save. */
  lemma FreshChallengeFound(t: Tables, c: Challenge)
    requires WellFormed(t)
    requires c.challenge_id == t.nextChallengeId
    requires forall x :: x in t.challenges ==> !SameTuple(x, c.remote_ip, c.client_nonce, c.server_nonce)
    ensures MatchingChallenges(t.challenges + [c], c.remote_ip, c.client_nonce, c.server_nonce) == [c]
    ensures WithoutChallenge(t.challenges + [c], c.challenge_id) == t.challenges
  {
    var same := (x: Challenge) => SameTuple(x, c.remote_ip, c.client_nonce, c.server_nonce);
    FilterNone(t.challenges, same);
    FilterAppend(t.challenges, c, same);
    var other := (x: Challenge) => x.challenge_id != c.challenge_id;
    FilterAll(t.challenges, other);
    FilterAppend(t.challenges, c, other);
  }

  /** Past the input checks, fini is decided by the challenge lookup. */
  lemma FiniReachesConsume(cfg: Config, t: Tables, r: Reply, body: Request, ip: string, now: int, token: Nonce)
    requires FiniInputOk(body)
    ensures FiniOutcome(cfg, t, r, body, ip, now, token) == FiniConsume(cfg, t, r, FiniFields(body), ip, now, token)
  {
  }

  // ---------------------------------------------------------------- sessions

  /** A live session for the token: one is stored with it and has not expired. */
  ghost predicate Live(t: Tables, token: string, now: int) {
    token != "" && exists s :: s in t.sessions && s.session_token == token && now <= s.expiration
  }

  /** In well-formed tables a session and another row share a key exactly when they share a token. */
  lemma SameKeySameToken(t: Tables, s: Session, i: nat)
    requires WellFormed(t) && s in t.sessions && i < |t.sessions|
    ensures t.sessions[i].session_id == s.session_id <==> t.sessions[i].session_token == s.session_token
  {
    var j :| 0 <= j < |t.sessions| && t.sessions[j] == s;
  }

  /**
    check_session accepts exactly a live token; it then renews that session alone to
    expire 15 minutes from now and leaves the response alone; otherwise it answers
    401 and changes nothing.
  */
  lemma CheckSessionDecides(t: Tables, r: Reply, sessionId: string, authorization: string, now: int)
    requires WellFormed(t)
    ensures var token := SessionToken(sessionId, authorization);
      var (t', r', found) := CheckOutcome(t, r, sessionId, authorization, now);
      && (found.Some? <==> Live(t, token, now))
      && (found.None? ==> t' == t && r' == Fail(r, 401, UnauthorizedMessage))
      && (found.Some? ==>
           && r' == r
           && (forall s :: s in t.sessions && s.session_token == token ==> found.value == s.(expiration := now + SESSION_EXPIRATION))
           && t' == t.(sessions := t'.sessions)
           && |t'.sessions| == |t.sessions|
           && (forall i :: 0 <= i < |t.sessions| ==>
                t'.sessions[i] == if t.sessions[i].session_token == token then found.value else t.sessions[i]))
  {
    var token := SessionToken(sessionId, authorization);
    if Live(t, token, now) {
      var s :| s in t.sessions && s.session_token == token && now <= s.expiration;
      FindSessionUnique(t, s);
      forall i | 0 <= i < |t.sessions|
        ensures t.sessions[i].session_id == s.session_id <==> t.sessions[i].session_token == token
      {
        SameKeySameToken(t, s, i);
      }
    }
  }

  /** A renewed session is the only row with its key and token; deleting it by key leaves every other token. */
  lemma RenewThenDelete(t: Tables, s: Session, now: int)
    requires WellFormed(t) && s in t.sessions
    ensures var t2 := DeleteSession(SaveSession(t, s.(expiration := now)), s.session_id);
      && WellFormed(t2)
      && t2 == t.(sessions := t2.sessions)
      && (forall x :: x in t2.sessions ==> x in t.sessions && x.session_token != s.session_token)
      && (forall x :: x in t.sessions && x.session_token != s.session_token ==> x in t2.sessions)
  {
    var renewed := s.(expiration := now);
    var t1 := SaveSession(t, renewed);
    var t2 := DeleteSession(t1, s.session_id);
    SaveSessionWellFormed(t, s, renewed);
    DeleteSessionWellFormed(t1, s.session_id);
    forall x | x in t2.sessions
      ensures x in t.sessions && x.session_token != s.session_token
    {
      var i :| 0 <= i < |t1.sessions| && t1.sessions[i] == x;
      SameKeySameToken(t, s, i);
    }
    forall x | x in t.sessions && x.session_token != s.session_token
      ensures x in t2.sessions
    {
      var i :| 0 <= i < |t.sessions| && t.sessions[i] == x;
      SameKeySameToken(t, s, i);
      assert t1.sessions[i] == x;
    }
  }

  /**
    session_logout always answers the logout body. It answers 200 exactly when the
    Authorization header carries a live token, and then deletes that session alone;
    otherwise check_session's 401 stays and nothing changes.
  */
  lemma LogoutEndsSession(t: Tables, authorization: string, now: int)
    requires WellFormed(t)
    ensures var (t', r') := LogoutOutcome(t, Fresh, authorization, now);
      && WellFormed(t')
      && r'.body == Some(LogoutBody("", 0))
      && (r'.status == 200 <==> Live(t, authorization, now))
      && (!Live(t, authorization, now) ==> t' == t && r' == Reply(401, true, UnauthorizedMessage, Some(LogoutBody("", 0))))
      && (Live(t, authorization, now) ==>
           && r' == Reply(200, true, "", Some(LogoutBody("", 0)))
           && t' == t.(sessions := t'.sessions)
           && (forall s :: s in t'.sessions ==> s in t.sessions && s.session_token != authorization)
           && (forall s :: s in t.sessions && s.session_token != authorization ==> s in t'.sessions))
  {
    CheckSessionDecides(t, Fresh, "", authorization, now);
    if Live(t, authorization, now) {
      var s :| s in t.sessions && s.session_token == authorization && now <= s.expiration;
      FindSessionUnique(t, s);
      RenewThenDelete(t, s, now + SESSION_EXPIRATION);
    }
  }

  /** Logging out twice with the same token: the second call finds nothing, answers 401 and changes nothing. */
  lemma SecondLogoutChangesNothing(t: Tables, authorization: string, now: int, later: int)
    requires WellFormed(t) && now <= later
    ensures var (t1, _) := LogoutOutcome(t, Fresh, authorization, now);
      var (t2, r2) := LogoutOutcome(t1, Fresh, authorization, later);
      t2 == t1 && r2 == Reply(401, true, UnauthorizedMessage, Some(LogoutBody("", 0)))
  {
    LogoutEndsSession(t, authorization, now);
    var t1 := LogoutOutcome(t, Fresh, authorization, now).0;
    assert !Live(t1, authorization, later);
    LogoutEndsSession(t1, authorization, later);
  }

  // ---------------------------------------------------------------- the schema holds

  lemma InitIssueKeepsWellFormed(cfg: Config, t: Tables, r: Reply, emailHash: string, clientNonce: string, ip: string, now: int, serverNonce: Nonce)
    requires WellFormed(t)
    ensures WellFormed(InitIssue(cfg, t, r, emailHash, clientNonce, ip, now, serverNonce).0)
  {
    var user := InitUser(cfg, t, emailHash);
    var userId := if user.Some? then user.value.user_id else t.emptyUser.user_id;
    InsertChallengeWellFormed(t, clientNonce, serverNonce, ip, userId, now + CHALLENGE_EXPIRATION);
  }

  /** Whatever init is sent, the tables stay well formed. */
  lemma InitKeepsWellFormed(cfg: Config, t: Tables, r: Reply, body: Request, ip: string, now: int, serverNonce: Nonce)
    requires WellFormed(t)
    ensures WellFormed(InitOutcome(cfg, t, r, body, ip, now, serverNonce).0)
  {
    InitIssueKeepsWellFormed(cfg, t, r, StringParam(body, "email_hash"), StringParam(body, "client_nonce"), ip, now, serverNonce);
  }

  lemma ConsumeKeepsWellFormed(cfg: Config, t: Tables, r: Reply, q: FiniRequest, ip: string, now: int, token: Nonce)
    requires WellFormed(t)
    ensures WellFormed(FiniConsume(cfg, t, r, q, ip, now, token).0)
  {
    var found := MatchingChallenges(t.challenges, ip, q.clientNonce, q.serverNonce);
    ConsumeCases(cfg, t, r, q, ip, now, token);
    if |found| == 1 {
      var t1 := DeleteChallenge(t, found[0].challenge_id);
      DeleteChallengeWellFormed(t, found[0].challenge_id);
      InsertSessionWellFormed(t1, token, FiniUser(t, q.emailHash).user_id, now + SESSION_EXPIRATION);
    }
  }

  /** Fini's tables are the old ones, or the challenge found deleted, possibly with the session saved. */
  lemma ConsumeCases(cfg: Config, t: Tables, r: Reply, q: FiniRequest, ip: string, now: int, token: Nonce)
    ensures var found := MatchingChallenges(t.challenges, ip, q.clientNonce, q.serverNonce);
      var t' := FiniConsume(cfg, t, r, q, ip, now, token).0;
      || t' == t
      || (|found| == 1 && t' == DeleteChallenge(t, found[0].challenge_id))
      || (|found| == 1 &&
          t' == InsertSession(DeleteChallenge(t, found[0].challenge_id), token, FiniUser(t, q.emailHash).user_id, now + SESSION_EXPIRATION))
  {
  }

  /** Whatever fini is sent, the tables stay well formed. */
  lemma FiniKeepsWellFormed(cfg: Config, t: Tables, r: Reply, body: Request, ip: string, now: int, token: Nonce)
    requires WellFormed(t)
    ensures WellFormed(FiniOutcome(cfg, t, r, body, ip, now, token).0)
  {
    ConsumeKeepsWellFormed(cfg, t, r, FiniFields(body), ip, now, token);
  }

  /** Whatever token is presented, check_session keeps the tables well formed. */
  lemma CheckKeepsWellFormed(t: Tables, r: Reply, sessionId: string, authorization: string, now: int)
    requires WellFormed(t)
    ensures WellFormed(CheckOutcome(t, r, sessionId, authorization, now).0)
  {
    var token := SessionToken(sessionId, authorization);
    var found := if token == "" then None else FindSession(t.sessions, token);
    if found.Some? {
      SaveSessionWellFormed(t, found.value, found.value.(expiration := now + SESSION_EXPIRATION));
    }
  }
}
