/**
  The part of a Koa response the handlers touch: `ctx.status` / `ctx.response.status`,
  `ctx.message`, and `ctx.response.body` with the JSON bodies of the login protocol
  (the JSON text itself is not modelled: a body is the record that gets stringified).
*/
module Http {
  import opened Wrappers

  datatype Body =
    | InitBody(client_nonce: string, server_nonce: string, challenge_expiration: int,
               client_salt: string, iterations: int)
    | FiniBody(server_proof: string, session_id: string, expiration: int, admin: bool)
    | LogoutBody(session_id: string, expiration: int)

  /** The state of a response; `explicitStatus` is Koa's `_explicitStatus`. */
  datatype Reply = Reply(status: int, explicitStatus: bool, message: string, body: Option<Body>)

  /** Koa's response on arrival: 404, status not yet set by anyone. */
  const Fresh: Reply := Reply(404, false, "", None)

  /** `ctx.status = code; ctx.message = message`. */
  function Fail(r: Reply, code: int, message: string): (r': Reply)
    ensures r'.status == code && r'.message == message && r'.body == r.body
  {
    r.(status := code, explicitStatus := true, message := message)
  }

  /** `ctx.response.body = b`: the status becomes 200 unless a handler set it first. */
  function Respond(r: Reply, b: Body): (r': Reply)
    ensures r'.body == Some(b) && r'.message == r.message
    ensures r'.status == if r.explicitStatus then r.status else 200
  {
    if r.explicitStatus then r.(body := Some(b)) else r.(body := Some(b), status := 200, explicitStatus := true)
  }

  class Response {
    var status: int
    var explicitStatus: bool
    var message: string
    var body: Option<Body>

    function Snapshot(): Reply
      reads this
    {
      Reply(status, explicitStatus, message, body)
    }

    constructor ()
      ensures Snapshot() == Fresh
    {
      status, explicitStatus, message, body := 404, false, "", None;
    }

    method SetStatus(code: int)
      modifies this
      ensures Snapshot() == old(Snapshot()).(status := code, explicitStatus := true)
    {
      status, explicitStatus := code, true;
    }

    method SetMessage(m: string)
      modifies this
      ensures Snapshot() == old(Snapshot()).(message := m)
    {
      message := m;
    }

    method SetBody(b: Body)
      modifies this
      ensures Snapshot() == Respond(old(Snapshot()), b)
    {
      body := Some(b);
      if !explicitStatus {
        status, explicitStatus := 200, true;
      }
    }
  }
}
