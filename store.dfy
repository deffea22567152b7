/**
  The three tables the login protocol reads and writes (src/entity/User.ts,
  Challenge.ts, Session.ts) and the entity-manager operations the handlers of
  src/session.ts call on them: `find` by columns, `findOne`, `save` and `delete`
  by primary key. Rows are kept in insertion order; a relation to a user is kept
  as that user's `user_id`.
*/
module Store {
  import opened Wrappers

  datatype User = User(
    user_id: nat,
    email_hash: string,
    client_key: string,
    server_key: string,
    client_salt: string,
    iterations: int,
    admin: bool)

  datatype Challenge = Challenge(
    challenge_id: nat,
    client_nonce: string,
    server_nonce: string,
    remote_ip: string,
    user_id: nat,
    expiration: int)

  datatype Session = Session(
    session_id: nat,
    session_token: string,
    user_id: nat,
    expiration: int)

  /**
    The stored state: the user table and its sentinel row `empty_user` (both only
    read here), the challenge and session tables, and the next primary keys.
  */
  datatype Tables = Tables(
    users: seq<User>,
    emptyUser: User,
    challenges: seq<Challenge>,
    nextChallengeId: nat,
    sessions: seq<Session>,
    nextSessionId: nat)

  /** The rows of s that satisfy p, in their order. */
  function Filter<T>(s: seq<T>, p: T -> bool): (r: seq<T>)
    ensures |r| <= |s|
    ensures forall i :: 0 <= i < |r| ==> r[i] in s && p(r[i])
    ensures forall i :: 0 <= i < |s| && p(s[i]) ==> s[i] in r
  {
    if |s| == 0 then []
    else (if p(s[0]) then [s[0]] else []) + Filter(s[1..], p)
  }

  /** Filtering a sequence with one more row at the end filters that row at the end. */
  lemma {:induction false} FilterAppend<T>(s: seq<T>, x: T, p: T -> bool)
    ensures Filter(s + [x], p) == Filter(s, p) + (if p(x) then [x] else [])
  {
    if |s| == 0 {
      assert s + [x] == [x];
    } else {
      assert (s + [x])[1..] == s[1..] + [x];
      FilterAppend(s[1..], x, p);
    }
  }

  /** A filter that some row fails drops at least that row. */
  lemma {:induction false} FilterDrops<T>(s: seq<T>, p: T -> bool, i: nat)
    requires i < |s| && !p(s[i])
    ensures |Filter(s, p)| < |s|
  {
    if i > 0 {
      FilterDrops(s[1..], p, i - 1);
    }
  }

  /** A filter exactly one row passes leaves that row alone. */
  lemma {:induction false} FilterSingle<T>(s: seq<T>, p: T -> bool, i: nat)
    requires i < |s| && p(s[i])
    requires forall j :: 0 <= j < |s| && j != i ==> !p(s[j])
    ensures Filter(s, p) == [s[i]]
  {
    if i == 0 {
      FilterNone(s[1..], p);
    } else {
      FilterSingle(s[1..], p, i - 1);
    }
  }

  /** A filter every row passes keeps the sequence. */
  lemma {:induction false} FilterAll<T>(s: seq<T>, p: T -> bool)
    requires forall i :: 0 <= i < |s| ==> p(s[i])
    ensures Filter(s, p) == s
  {
    if |s| > 0 {
      FilterAll(s[1..], p);
    }
  }

  /** A filter no row passes leaves nothing. */
  lemma {:induction false} FilterNone<T>(s: seq<T>, p: T -> bool)
    requires forall i :: 0 <= i < |s| ==> !p(s[i])
    ensures Filter(s, p) == []
  {
    if |s| > 0 {
      FilterNone(s[1..], p);
    }
  }

  /** `find(User, { email_hash: h })`. */
  function UsersWithHash(users: seq<User>, h: string): (r: seq<User>)
    ensures forall i :: 0 <= i < |r| ==> r[i] in users && r[i].email_hash == h
    ensures forall i :: 0 <= i < |users| && users[i].email_hash == h ==> users[i] in r
  {
    Filter(users, (u: User) => u.email_hash == h)
  }

  predicate SameTuple(c: Challenge, ip: string, cn: string, sn: string) {
    c.remote_ip == ip && c.client_nonce == cn && c.server_nonce == sn
  }

  /** `find(Challenge, { where: { remote_ip, client_nonce, server_nonce } })`. */
  function MatchingChallenges(cs: seq<Challenge>, ip: string, cn: string, sn: string): (r: seq<Challenge>)
    ensures forall i :: 0 <= i < |r| ==> r[i] in cs && SameTuple(r[i], ip, cn, sn)
    ensures forall i :: 0 <= i < |cs| && SameTuple(cs[i], ip, cn, sn) ==> cs[i] in r
  {
    Filter(cs, (c: Challenge) => SameTuple(c, ip, cn, sn))
  }

  /** `delete(Challenge, id)`. */
  function WithoutChallenge(cs: seq<Challenge>, id: nat): (r: seq<Challenge>)
    ensures |r| <= |cs|
    ensures forall i :: 0 <= i < |r| ==> r[i] in cs && r[i].challenge_id != id
    ensures forall i :: 0 <= i < |cs| && cs[i].challenge_id != id ==> cs[i] in r
  {
    Filter(cs, (c: Challenge) => c.challenge_id != id)
  }

  /** `findOne(Session, { where: { session_token: token } })`: the first row with that token. */
  function FindSession(ss: seq<Session>, token: string): (r: Option<Session>)
    ensures r.Some? ==> r.value in ss && r.value.session_token == token
    ensures r.None? ==> forall s :: s in ss ==> s.session_token != token
  {
    var m := Filter(ss, (s: Session) => s.session_token == token);
    if |m| == 0 then None else Some(m[0])
  }

  /** `delete(Session, id)`. */
  function WithoutSession(ss: seq<Session>, id: nat): (r: seq<Session>)
    ensures |r| <= |ss|
    ensures forall i :: 0 <= i < |r| ==> r[i] in ss && r[i].session_id != id
    ensures forall i :: 0 <= i < |ss| && ss[i].session_id != id ==> ss[i] in r
  {
    Filter(ss, (s: Session) => s.session_id != id)
  }

  /** `save(Session, s)` of a loaded row: the row with that primary key takes the new values. */
  function UpdateSession(ss: seq<Session>, s: Session): (r: seq<Session>)
    ensures |r| == |ss|
    ensures forall i :: 0 <= i < |ss| ==> r[i] == if ss[i].session_id == s.session_id then s else ss[i]
  {
    seq(|ss|, i requires 0 <= i < |ss| => if ss[i].session_id == s.session_id then s else ss[i])
  }

  /**
    `save(challenge)` of a new row: it gets the next primary key, unless the unique
    constraint on (client_nonce, server_nonce, remote_ip) rejects it.
  */
  function InsertChallenge(t: Tables, cn: string, sn: string, ip: string, userId: nat, expiration: int): (r: (Tables, bool))
    ensures r.0 == t.(challenges := r.0.challenges, nextChallengeId := r.0.nextChallengeId)
    ensures r.1 ==>
      r.0.challenges == t.challenges + [Challenge(t.nextChallengeId, cn, sn, ip, userId, expiration)] &&
      r.0.nextChallengeId == t.nextChallengeId + 1
    ensures !r.1 ==> r.0 == t
  {
    if |MatchingChallenges(t.challenges, ip, cn, sn)| > 0 then (t, false)
    else
      var c := Challenge(t.nextChallengeId, cn, sn, ip, userId, expiration);
      (t.(challenges := t.challenges + [c], nextChallengeId := t.nextChallengeId + 1), true)
  }

  function DeleteChallenge(t: Tables, id: nat): (r: Tables)
    ensures r == t.(challenges := r.challenges) && |r.challenges| <= |t.challenges|
  {
    t.(challenges := WithoutChallenge(t.challenges, id))
  }

  /**
    `save(client_session)` of a new row: it gets the next primary key, unless the
    unique constraint on `session_token` rejects it.
  */
  function InsertSession(t: Tables, token: string, userId: nat, expiration: int): (r: Tables)
    ensures r == t.(sessions := r.sessions, nextSessionId := r.nextSessionId)
    ensures (forall s :: s in t.sessions ==> s.session_token != token) ==>
      r.sessions == t.sessions + [Session(t.nextSessionId, token, userId, expiration)] && r.nextSessionId == t.nextSessionId + 1
    ensures (exists s :: s in t.sessions && s.session_token == token) ==> r == t
  {
    if FindSession(t.sessions, token).Some? then t
    else t.(sessions := t.sessions + [Session(t.nextSessionId, token, userId, expiration)],
            nextSessionId := t.nextSessionId + 1)
  }

  function DeleteSession(t: Tables, id: nat): (r: Tables)
    ensures r == t.(sessions := r.sessions) && |r.sessions| <= |t.sessions|
  {
    t.(sessions := WithoutSession(t.sessions, id))
  }

  function SaveSession(t: Tables, s: Session): (r: Tables)
    ensures r == t.(sessions := r.sessions) && |r.sessions| == |t.sessions|
  {
    t.(sessions := UpdateSession(t.sessions, s))
  }

  /** No two rows of the challenge table share a primary key. */
  predicate ChallengeIdsDistinct(cs: seq<Challenge>) {
    forall i, j :: 0 <= i < j < |cs| ==> cs[i].challenge_id != cs[j].challenge_id
  }

  /** No two rows of the session table share a primary key. */
  predicate SessionIdsDistinct(ss: seq<Session>) {
    forall i, j :: 0 <= i < j < |ss| ==> ss[i].session_id != ss[j].session_id
  }

  lemma {:induction false} FilterKeepsChallengeIdsDistinct(cs: seq<Challenge>, p: Challenge -> bool)
    requires ChallengeIdsDistinct(cs)
    ensures ChallengeIdsDistinct(Filter(cs, p))
  {
    if |cs| > 0 {
      var rest := Filter(cs[1..], p);
      FilterKeepsChallengeIdsDistinct(cs[1..], p);
      forall k | 0 <= k < |rest|
        ensures rest[k].challenge_id != cs[0].challenge_id
      {
        var j :| 0 <= j < |cs[1..]| && cs[1..][j] == rest[k];
        assert cs[j + 1] == rest[k];
      }
    }
  }

  lemma {:induction false} FilterKeepsSessionIdsDistinct(ss: seq<Session>, p: Session -> bool)
    requires SessionIdsDistinct(ss)
    ensures SessionIdsDistinct(Filter(ss, p))
  {
    if |ss| > 0 {
      var rest := Filter(ss[1..], p);
      FilterKeepsSessionIdsDistinct(ss[1..], p);
      forall k | 0 <= k < |rest|
        ensures rest[k].session_id != ss[0].session_id
      {
        var j :| 0 <= j < |ss[1..]| && ss[1..][j] == rest[k];
        assert ss[j + 1] == rest[k];
      }
    }
  }

  /**
    What the schema guarantees: primary keys are unique and below the next one, at most
    one challenge per (client_nonce, server_nonce, remote_ip), at most one session per token.
  */
  ghost predicate WellFormed(t: Tables) {
    && ChallengeIdsDistinct(t.challenges)
    && (forall x, y :: x in t.challenges && y in t.challenges && SameTuple(y, x.remote_ip, x.client_nonce, x.server_nonce) ==> x == y)
    && (forall c :: c in t.challenges ==> c.challenge_id < t.nextChallengeId)
    && SessionIdsDistinct(t.sessions)
    && (forall x, y :: x in t.sessions && y in t.sessions && x.session_token == y.session_token ==> x == y)
    && (forall s :: s in t.sessions ==> s.session_id < t.nextSessionId)
  }

  /** The tables of a fresh database are well formed. */
  lemma EmptyTablesWellFormed(users: seq<User>, emptyUser: User)
    ensures WellFormed(Tables(users, emptyUser, [], 1, [], 1))
  {
  }

  /** The unique constraint refuses a challenge exactly when one with the same tuple is stored. */
  lemma InsertChallengeSaves(t: Tables, cn: string, sn: string, ip: string, userId: nat, expiration: int)
    ensures InsertChallenge(t, cn, sn, ip, userId, expiration).1 <==> forall c :: c in t.challenges ==> !SameTuple(c, ip, cn, sn)
  {
    var m := MatchingChallenges(t.challenges, ip, cn, sn);
    if |m| > 0 {
      assert m[0] in t.challenges && SameTuple(m[0], ip, cn, sn);
    }
  }

  /** Saving a challenge keeps the tables well formed. */
  lemma InsertChallengeWellFormed(t: Tables, cn: string, sn: string, ip: string, userId: nat, expiration: int)
    requires WellFormed(t)
    ensures WellFormed(InsertChallenge(t, cn, sn, ip, userId, expiration).0)
  {
    InsertChallengeSaves(t, cn, sn, ip, userId, expiration);
  }

  /** Deleting a challenge keeps the tables well formed and removes the row with that key. */
  lemma DeleteChallengeWellFormed(t: Tables, id: nat)
    requires WellFormed(t)
    ensures WellFormed(DeleteChallenge(t, id))
    ensures forall c :: c in DeleteChallenge(t, id).challenges ==> c in t.challenges && c.challenge_id != id
  {
    var cs := DeleteChallenge(t, id).challenges;
    FilterKeepsChallengeIdsDistinct(t.challenges, (c: Challenge) => c.challenge_id != id);
    forall c | c in cs
      ensures c in t.challenges && c.challenge_id != id
    {
      var i :| 0 <= i < |cs| && cs[i] == c;
    }
  }

  /** Deleting a challenge that is in the table makes the table shorter. */
  lemma DeleteChallengeShrinks(t: Tables, c: Challenge)
    requires c in t.challenges
    ensures |DeleteChallenge(t, c.challenge_id).challenges| < |t.challenges|
  {
    var i :| 0 <= i < |t.challenges| && t.challenges[i] == c;
    FilterDrops(t.challenges, (x: Challenge) => x.challenge_id != c.challenge_id, i);
  }

  /** Saving a new session keeps the tables well formed. */
  lemma InsertSessionWellFormed(t: Tables, token: string, userId: nat, expiration: int)
    requires WellFormed(t)
    ensures WellFormed(InsertSession(t, token, userId, expiration))
  {
  }

  /** Deleting a session keeps the tables well formed and removes the row with that key. */
  lemma DeleteSessionWellFormed(t: Tables, id: nat)
    requires WellFormed(t)
    ensures WellFormed(DeleteSession(t, id))
    ensures forall s :: s in DeleteSession(t, id).sessions ==> s in t.sessions && s.session_id != id
  {
    var ss := DeleteSession(t, id).sessions;
    FilterKeepsSessionIdsDistinct(t.sessions, (s: Session) => s.session_id != id);
    forall s | s in ss
      ensures s in t.sessions && s.session_id != id
    {
      var i :| 0 <= i < |ss| && ss[i] == s;
    }
  }

  /** Saving a loaded session with a new expiration keeps the tables well formed. */
  lemma SaveSessionWellFormed(t: Tables, previous: Session, s: Session)
    requires WellFormed(t)
    requires previous in t.sessions
    requires s.session_id == previous.session_id && s.session_token == previous.session_token
    ensures WellFormed(SaveSession(t, s))
  {
    var ss := SaveSession(t, s).sessions;
    forall x | x in ss
      ensures x == s || (x in t.sessions && x.session_id != s.session_id)
    {
      var i :| 0 <= i < |ss| && ss[i] == x;
    }
  }

  /** Names the first elements of a sequence, so that a proof can reason about them. */
  lemma FirstTwo<T>(s: seq<T>)
    ensures |s| > 0 ==> s[0] in s
    ensures |s| > 1 ==> s[1] in s
  {
  }

  /** In well-formed tables at most one challenge has a given (remote_ip, client_nonce, server_nonce). */
  lemma AtMostOneMatch(t: Tables, ip: string, cn: string, sn: string)
    requires WellFormed(t)
    ensures |MatchingChallenges(t.challenges, ip, cn, sn)| <= 1
  {
    var m := MatchingChallenges(t.challenges, ip, cn, sn);
    FilterKeepsChallengeIdsDistinct(t.challenges, (c: Challenge) => SameTuple(c, ip, cn, sn));
    forall i, j | 0 <= i < |m| && 0 <= j < |m|
      ensures m[i] == m[j]
    {
      assert m[i] in t.challenges && m[j] in t.challenges;
    }
    FirstTwo(m);
  }

  /** Once the only challenge with a tuple is deleted, none is left with it. */
  lemma BurntChallengeIsGone(cs: seq<Challenge>, ip: string, cn: string, sn: string)
    requires |MatchingChallenges(cs, ip, cn, sn)| == 1
    ensures MatchingChallenges(WithoutChallenge(cs, MatchingChallenges(cs, ip, cn, sn)[0].challenge_id), ip, cn, sn) == []
  {
    var m := MatchingChallenges(cs, ip, cn, sn);
    var rest := WithoutChallenge(cs, m[0].challenge_id);
    var left := MatchingChallenges(rest, ip, cn, sn);
    forall k | 0 <= k < |left|
      ensures left[k] in cs && SameTuple(left[k], ip, cn, sn) && left[k].challenge_id != m[0].challenge_id
    {
      assert left[k] in rest;
    }
    FirstTwo(left);
  }

  /** In well-formed tables the session found by a token is the only one with it. */
  lemma FindSessionUnique(t: Tables, s: Session)
    requires WellFormed(t)
    requires s in t.sessions
    ensures FindSession(t.sessions, s.session_token) == Some(s)
  {
  }

  /** The entity manager over the three tables. */
  class Database {
    const users: seq<User>
    const emptyUser: User
    var challenges: seq<Challenge>
    var nextChallengeId: nat
    var sessions: seq<Session>
    var nextSessionId: nat

    function Snapshot(): Tables
      reads this
    {
      Tables(users, emptyUser, challenges, nextChallengeId, sessions, nextSessionId)
    }

    constructor (users: seq<User>, emptyUser: User)
      ensures Snapshot() == Tables(users, emptyUser, [], 1, [], 1)
    {
      this.users := users;
      this.emptyUser := emptyUser;
      challenges, nextChallengeId := [], 1;
      sessions, nextSessionId := [], 1;
    }

    method SaveChallenge(cn: string, sn: string, ip: string, userId: nat, expiration: int) returns (saved: bool)
      modifies this
      ensures (Snapshot(), saved) == InsertChallenge(old(Snapshot()), cn, sn, ip, userId, expiration)
    {
      saved := |MatchingChallenges(challenges, ip, cn, sn)| == 0;
      if saved {
        challenges := challenges + [Challenge(nextChallengeId, cn, sn, ip, userId, expiration)];
        nextChallengeId := nextChallengeId + 1;
      }
    }

    method RemoveChallenge(id: nat)
      modifies this
      ensures Snapshot() == DeleteChallenge(old(Snapshot()), id)
    {
      challenges := WithoutChallenge(challenges, id);
    }

    method SaveNewSession(token: string, userId: nat, expiration: int)
      modifies this
      ensures Snapshot() == InsertSession(old(Snapshot()), token, userId, expiration)
    {
      if FindSession(sessions, token).None? {
        sessions := sessions + [Session(nextSessionId, token, userId, expiration)];
        nextSessionId := nextSessionId + 1;
      }
    }

    method RemoveSession(id: nat)
      modifies this
      ensures Snapshot() == DeleteSession(old(Snapshot()), id)
    {
      sessions := WithoutSession(sessions, id);
    }

    method SaveLoadedSession(s: Session)
      modifies this
      ensures Snapshot() == SaveSession(old(Snapshot()), s)
    {
      sessions := UpdateSession(sessions, s);
    }
  }
}
