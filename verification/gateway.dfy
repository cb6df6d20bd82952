/**
 * The websocket session loop.  Each inbound frame is decoded into a Frame,
 * and one turn of the loop maps the session's `auth_token` and the frame to
 * the new token and the replies sent back to this client only.  Key
 * validation is an oracle indexed by the turn, since it consults the store;
 * so is the chat responder of the intended chat handling.
 */
module Gateway {
  import opened Wrappers
  import opened Connections

  /**
   * An inbound text frame.  Auth and ChatMessage carry `payload.token` /
   * `payload.content` (None when absent or null).  Other is a JSON object
   * whose "type" is anything else or missing.  ChatBadPayload is a chat
   * message whose payload is not an object: reading it raises, but only once
   * the session is authenticated, since the token is checked first.
   * Malformed is text that is not JSON.  Unshaped is JSON on which a `.get`
   * raises at once: a top-level value that is not an object, or an auth
   * message whose payload is not an object.
   */
  datatype Frame =
    | Auth(token: Option<string>)
    | ChatMessage(content: Option<string>)
    | ChatBadPayload
    | Other
    | Malformed
    | Unshaped

  /** What key validation says: a valid key and its user name, an invalid key, or an exception. */
  datatype KeyCheck = Accepted(userName: string) | Rejected | Crashed

  datatype ChatPayload = Content(text: string) | Failure(error: string)

  datatype Reply =
    | AuthSuccess(userName: string)
    | AuthFailed(error: string)
    | ChatResponse(payload: ChatPayload)
    | Error(error: string)

  /** One turn either keeps the session open, with the new token and its replies, or ends it. */
  datatype StepResult = Continue(authToken: Option<string>, replies: seq<Reply>) | Close

  const InvalidToken := "Invalid authentication token"
  const AuthRequired := "Authentication required"
  const InvalidFormat := "Invalid message format"
  const ProcessingFailed := "Failed to process message"

  /** Python truthiness of an optional string: present and non-empty. */
  predicate Truthy(s: Option<string>) { s.Some? && s.value != "" }

  /** The frame at this turn is an auth frame whose token validation accepts. */
  predicate Grants(frame: Frame, turn: nat, check: (nat, string) -> KeyCheck) {
    frame.Auth? && Truthy(frame.token) && check(turn, frame.token.value).Accepted?
  }

  /**
   * process_chat_message as written.  It re-validates the session's token,
   * then calls the chat route function directly; that returns a plain
   * dictionary, so reading `.response` from it raises, and the handler turns
   * the exception into the processing-failure payload.  Whatever the
   * responder would say never reaches the client.
   */
  function ProcessChatMessage(turn: nat, authToken: string, check: (nat, string) -> KeyCheck): (p: ChatPayload)
    ensures p.Failure?
    ensures p.error == InvalidToken <==> check(turn, authToken).Rejected?
  {
    match check(turn, authToken)
    case Accepted(_) => Failure(ProcessingFailed)  // `response.response` on a dict
    case Rejected => Failure(InvalidToken)
    case Crashed => Failure(ProcessingFailed)
  }

  /**
   * The intended chat handling: the responder's text (the `response` entry
   * of the route's dictionary) for the re-validated user.
   */
  function IntendedChatMessage(turn: nat, authToken: string, check: (nat, string) -> KeyCheck,
                               respond: (nat, string) -> string): (p: ChatPayload)
    ensures p.Content? <==> check(turn, authToken).Accepted?
    ensures p.Content? ==> p.text == respond(turn, check(turn, authToken).userName)
    ensures p.Failure? ==> p.error == if check(turn, authToken).Rejected? then InvalidToken else ProcessingFailed
  {
    match check(turn, authToken)
    case Accepted(userName) => Content(respond(turn, userName))
    case Rejected => Failure(InvalidToken)
    case Crashed => Failure(ProcessingFailed)
  }

  /** The two differ exactly where the intended handling answers: as written that answer becomes a failure. */
  lemma ChatAsWrittenLosesContent(turn: nat, authToken: string, check: (nat, string) -> KeyCheck, respond: (nat, string) -> string)
    ensures var intended := IntendedChatMessage(turn, authToken, check, respond);
      ProcessChatMessage(turn, authToken, check) == if intended.Content? then Failure(ProcessingFailed) else intended
  {
  }

  /** One iteration of the receive loop. */
  function Step(turn: nat, authToken: Option<string>, frame: Frame,
                check: (nat, string) -> KeyCheck): (r: StepResult)
    ensures r.Close? <==>
      || frame.Unshaped?
      || (frame.ChatBadPayload? && Truthy(authToken))
      || (frame.Auth? && Truthy(frame.token) && check(turn, frame.token.value).Crashed?)
    ensures r.Continue? ==> |r.replies| <= 1
    // the token changes only on an accepted auth frame, and then to that frame's token
    ensures r.Continue? ==> r.authToken == if Grants(frame, turn, check) then frame.token else authToken
    // unanswered: frames of any other type, and empty chat from an authenticated session
    ensures r.Continue? && r.replies == [] ==> frame.Other? || (frame.ChatMessage? && Truthy(authToken) && !Truthy(frame.content))
    ensures r.Continue? && r.replies != [] && r.replies[0].ChatResponse? ==> frame.ChatMessage? && Truthy(authToken)
    ensures r.Continue? && r.replies != [] && r.replies[0].AuthSuccess? ==> Grants(frame, turn, check)
  {
    match frame
    case Malformed => Continue(authToken, [Error(InvalidFormat)])
    case Unshaped => Close
    case Other => Continue(authToken, [])
    case Auth(token) =>
      if Truthy(token) then
        match check(turn, token.value)
        case Accepted(userName) => Continue(token, [AuthSuccess(userName)])
        case Rejected => Continue(authToken, [AuthFailed(InvalidToken)])
        case Crashed => Close
      else Continue(authToken, [AuthFailed(InvalidToken)])
    case ChatBadPayload =>
      if !Truthy(authToken) then Continue(authToken, [Error(AuthRequired)]) else Close
    case ChatMessage(content) =>
      if !Truthy(authToken) then Continue(authToken, [Error(AuthRequired)])
      else if Truthy(content) then Continue(authToken, [ChatResponse(ProcessChatMessage(turn, authToken.value, check))])
      else Continue(authToken, [])
  }

  /**
   * The answers that do not depend on validation: a malformed frame gets an
   * error and the session stays open, a chat message before authentication
   * gets "Authentication required" (even one whose payload is not an object,
   * which closes the session once authenticated), an empty chat message after
   * it gets nothing, and any other type is only logged.  None of them touches
   * the token.
   */
  lemma UnvalidatedAnswers(turn: nat, authToken: Option<string>, content: Option<string>,
                           check: (nat, string) -> KeyCheck)
    ensures Step(turn, authToken, Malformed, check) == Continue(authToken, [Error(InvalidFormat)])
    ensures !Truthy(authToken) ==> Step(turn, authToken, ChatMessage(content), check) == Continue(authToken, [Error(AuthRequired)])
    ensures Truthy(authToken) && !Truthy(content) ==> Step(turn, authToken, ChatMessage(content), check) == Continue(authToken, [])
    ensures Step(turn, authToken, Other, check) == Continue(authToken, [])
    ensures Step(turn, authToken, ChatBadPayload, check) ==
      if Truthy(authToken) then Close else Continue(authToken, [Error(AuthRequired)])
  {
  }

  /** A second accepted auth replaces the token; a refused one keeps the old token and says auth_failed. */
  lemma ReauthenticationAnswers(turn: nat, authToken: Option<string>, token: Option<string>,
                                check: (nat, string) -> KeyCheck)
    ensures Truthy(token) && check(turn, token.value).Accepted? ==>
      Step(turn, authToken, Auth(token), check) == Continue(token, [AuthSuccess(check(turn, token.value).userName)])
    ensures !Truthy(token) || check(turn, token.value).Rejected? ==>
      Step(turn, authToken, Auth(token), check) == Continue(authToken, [AuthFailed(InvalidToken)])
  {
  }

  /** The session after some frames: its token, every reply sent so far, and whether the loop still runs. */
  datatype Session = Session(authToken: Option<string>, replies: seq<Reply>, open: bool)

  /** The first n frames of a session, processed in order; after a Close later frames are never read. */
  function Run(frames: seq<Frame>, check: (nat, string) -> KeyCheck, n: nat): (s: Session)
    requires n <= |frames|
    ensures |s.replies| <= n
    ensures Truthy(s.authToken) || s.authToken == None
  {
    if n == 0 then Session(None, [], true)
    else
      var prev := Run(frames, check, n - 1);
      if !prev.open then prev
      else match Step(n - 1, prev.authToken, frames[n - 1], check)
        case Close => prev.(open := false)
        case Continue(token, replies) => Session(token, prev.replies + replies, true)
  }

  /** The token of the latest accepted auth frame among the first n, if any: an independent account of `auth_token`. */
  function LastGrant(frames: seq<Frame>, check: (nat, string) -> KeyCheck, n: nat): (t: Option<string>)
    requires n <= |frames|
  {
    if n == 0 then None
    else if Grants(frames[n - 1], n - 1, check) then frames[n - 1].token
    else LastGrant(frames, check, n - 1)
  }

  /** While the session runs, its token is the one from the latest accepted auth frame. */
  lemma {:induction false} TokenIsLastGrant(frames: seq<Frame>, check: (nat, string) -> KeyCheck, n: nat)
    requires n <= |frames|
    requires Run(frames, check, n).open
    ensures Run(frames, check, n).authToken == LastGrant(frames, check, n)
  {
    if n > 0 {
      TokenIsLastGrant(frames, check, n - 1);
    }
  }

  /** Until some auth frame is accepted, the session receives neither auth_success nor chat_response. */
  lemma {:induction false} NoChatBeforeGrant(frames: seq<Frame>, check: (nat, string) -> KeyCheck, n: nat)
    requires n <= |frames|
    requires forall i :: 0 <= i < n ==> !Grants(frames[i], i, check)
    ensures forall r :: r in Run(frames, check, n).replies ==> !r.ChatResponse? && !r.AuthSuccess?
  {
    if n > 0 {
      NoChatBeforeGrant(frames, check, n - 1);
      var prev := Run(frames, check, n - 1);
      if prev.open {
        TokenIsLastGrant(frames, check, n - 1);
        NoGrantNoToken(frames, check, n - 1);
      }
    }
  }

  lemma {:induction false} NoGrantNoToken(frames: seq<Frame>, check: (nat, string) -> KeyCheck, n: nat)
    requires n <= |frames|
    requires forall i :: 0 <= i < n ==> !Grants(frames[i], i, check)
    ensures LastGrant(frames, check, n) == None
  {
    if n > 0 {
      NoGrantNoToken(frames, check, n - 1);
    }
  }

  /** Once the loop has ended, further frames change nothing. */
  lemma {:induction false} ClosedStaysClosed(frames: seq<Frame>, check: (nat, string) -> KeyCheck, n: nat, m: nat)
    requires n <= m <= |frames|
    requires !Run(frames, check, n).open
    ensures Run(frames, check, m) == Run(frames, check, n)
    decreases m - n
  {
    if n < m {
      ClosedStaysClosed(frames, check, n, m - 1);
    }
  }

  /**
   * As written, no chat_response a session sends ever carries content:
   * every one is a failure payload.
   */
  lemma {:induction false} NoChatContentAsWritten(frames: seq<Frame>, check: (nat, string) -> KeyCheck, n: nat)
    requires n <= |frames|
    ensures forall r :: r in Run(frames, check, n).replies && r.ChatResponse? ==> r.payload.Failure?
  {
    if n > 0 {
      NoChatContentAsWritten(frames, check, n - 1);
    }
  }

  /** An authenticated, non-empty chat message is answered with a failure payload, whatever validation says. */
  lemma ChatAnswers(turn: nat, authToken: Option<string>, content: Option<string>, check: (nat, string) -> KeyCheck)
    requires Truthy(authToken) && Truthy(content)
    ensures Step(turn, authToken, ChatMessage(content), check) ==
      Continue(authToken, [ChatResponse(Failure(if check(turn, authToken.value).Rejected? then InvalidToken else ProcessingFailed))])
  {
  }

  /**
   * What the client receives over the first n turns, given which sends
   * succeed (`alive(socket, turn)`): the replies in order until the first
   * send that fails.  That send deregisters the client (`lostAt`), and every
   * later reply is skipped while the loop goes on.
   */
  datatype Link = Link(delivered: seq<Reply>, lostAt: Option<nat>)

  function Deliver(frames: seq<Frame>, check: (nat, string) -> KeyCheck, socket: Socket, alive: (Socket, nat) -> bool, n: nat): (l: Link)
    requires n <= |frames|
    ensures l.lostAt.Some? ==> l.lostAt.value < n && !alive(socket, l.lostAt.value)
  {
    if n == 0 then Link([], None)
    else
      var prev := Deliver(frames, check, socket, alive, n - 1);
      var session := Run(frames, check, n - 1);
      if prev.lostAt.Some? || !session.open then prev
      else match Step(n - 1, session.authToken, frames[n - 1], check)
        case Close => prev
        case Continue(_, out) =>
          if out == [] then prev
          else if alive(socket, n - 1) then Link(prev.delivered + [out[0]], None)
          else Link(prev.delivered, Some(n - 1))
  }

  /**
   * The client receives exactly the replies of the turns before its first
   * failed send, or all of them if no send failed.
   */
  lemma {:induction false} DeliveredBeforeLoss(frames: seq<Frame>, check: (nat, string) -> KeyCheck, socket: Socket, alive: (Socket, nat) -> bool, n: nat)
    requires n <= |frames|
    ensures var l := Deliver(frames, check, socket, alive, n);
      l.delivered == if l.lostAt.Some? then Run(frames, check, l.lostAt.value).replies else Run(frames, check, n).replies
  {
    if n > 0 {
      DeliveredBeforeLoss(frames, check, socket, alive, n - 1);
    }
  }

  /**
   * The client is lost at its first failed send: every turn before `lostAt`
   * (every turn, if it was never lost) that had a reply to send sent it
   * successfully.
   */
  lemma {:induction false} LostAtFirstFailedSend(frames: seq<Frame>, check: (nat, string) -> KeyCheck, socket: Socket, alive: (Socket, nat) -> bool, n: nat)
    requires n <= |frames|
    ensures var l := Deliver(frames, check, socket, alive, n);
      var end := if l.lostAt.Some? then l.lostAt.value else n;
      forall t :: 0 <= t < end && |Run(frames, check, t + 1).replies| > |Run(frames, check, t).replies| ==> alive(socket, t)
  {
    if n > 0 {
      LostAtFirstFailedSend(frames, check, socket, alive, n - 1);
    }
  }

  /** A client whose every send succeeds is never deregistered, so it receives every reply. */
  lemma {:induction false} AliveReceivesAll(frames: seq<Frame>, check: (nat, string) -> KeyCheck, socket: Socket, alive: (Socket, nat) -> bool, n: nat)
    requires n <= |frames|
    requires forall t :: 0 <= t < n ==> alive(socket, t)
    ensures Deliver(frames, check, socket, alive, n) == Link(Run(frames, check, n).replies, None)
  {
    if n > 0 {
      AliveReceivesAll(frames, check, socket, alive, n - 1);
    }
  }

  /** Once the loop has ended, later frames deliver nothing. */
  lemma {:induction false} ClosedDeliversNothing(frames: seq<Frame>, check: (nat, string) -> KeyCheck, socket: Socket, alive: (Socket, nat) -> bool, n: nat, m: nat)
    requires n <= m <= |frames|
    requires !Run(frames, check, n).open
    ensures Deliver(frames, check, socket, alive, m) == Deliver(frames, check, socket, alive, n)
    decreases m - n
  {
    if n < m {
      ClosedDeliversNothing(frames, check, socket, alive, n, m - 1);
      ClosedStaysClosed(frames, check, n, m - 1);
    }
  }

  /**
   * The websocket endpoint: register the connection, run the receive loop
   * over the frames, send each reply to this client only, and deregister
   * when the frames run out (the client disconnected) or the loop ends.
   * `registered` records, after each turn read, whether the client was
   * still in the registry.
   */
  method Serve(manager: ConnectionManager, socket: Socket, clientId: ClientId, frames: seq<Frame>,
               check: (nat, string) -> KeyCheck, alive: (Socket, nat) -> bool)
    returns (session: Session, link: Link, registered: seq<bool>)
    modifies manager
    ensures session == Run(frames, check, |frames|)
    ensures link == Deliver(frames, check, socket, alive, |frames|)
    ensures |registered| <= |frames| && (session.open ==> |registered| == |frames|)
    // registered after every turn before the first failed send, and never again from that turn on
    ensures forall t :: 0 <= t < |registered| ==> (registered[t] <==> !(link.lostAt.Some? && link.lostAt.value <= t))
    ensures manager.activeConnections == old(manager.activeConnections) - {clientId}
  {
    manager.Connect(socket, clientId);
    var authToken: Option<string> := None;
    var replies: seq<Reply> := [];
    var open := true;
    var i := 0;
    link := Link([], None);
    registered := [];
    while i < |frames| && open
      invariant 0 <= i <= |frames|
      invariant Session(authToken, replies, open) == Run(frames, check, i)
      invariant link == Deliver(frames, check, socket, alive, i)
      invariant manager.activeConnections - {clientId} == old(manager.activeConnections) - {clientId}
      invariant link.lostAt.None? ==> clientId in manager.activeConnections && manager.activeConnections[clientId] == socket
      invariant link.lostAt.Some? ==> clientId !in manager.activeConnections
      invariant |registered| == i
      invariant forall t :: 0 <= t < i ==> (registered[t] <==> !(link.lostAt.Some? && link.lostAt.value <= t))
    {
      var step := Step(i, authToken, frames[i], check);
      match step {
        case Close =>
          open := false;
        case Continue(token, out) =>
          authToken := token;
          if out != [] {
            var turn := i;
            var sent := manager.SendPersonalMessage(out[0], clientId, s => alive(s, turn));
            if sent {
              link := link.(delivered := link.delivered + [out[0]]);
            } else if link.lostAt.None? {
              link := link.(lostAt := Some(i));
            }
          }
          replies := replies + out;
      }
      registered := registered + [clientId in manager.activeConnections];
      i := i + 1;
    }
    if !open {
      ClosedStaysClosed(frames, check, i, |frames|);
      ClosedDeliversNothing(frames, check, socket, alive, i, |frames|);
    }
    session := Session(authToken, replies, open);
    manager.Disconnect(clientId);
  }
}
