/**
 * test_ws2p_ws (duniter_ep_check.py): one websocket connection and WS2P
 * handshake attempt against a WS2P client, classified into `(ok, diagnostic)`.
 * The connection and the handshake are supplied as their outcomes.
 */
module Probe {
  import opened PyExc
  import opened Options
  import opened Clients

  /** How an awaited step (`connect_ws()` or `handshake(...)`) ends. */
  datatype Step = Succeeds | Raises(exc: Exc)

  /** `test_ws2p_ws` returns `(ok, error_str)`, or an exception no handler takes escapes it. */
  datatype ProbeReply = Probed(ok: bool, diagnostic: string) | Escaped(exc: Exc)

  const HandshakeOk: string := "handshake ok !"

  /** Classes handled by the `try` around the handshake alone. */
  predicate CaughtByHandshake(c: ExcClass)
  {
    c == TypeError || c == ValidationError
  }

  /** Classes handled by the three `except` clauses of the outer `try`. */
  predicate CaughtByAttempt(c: ExcClass)
  {
    c == WSServerHandshakeError || c == ValueError || IsClientError(c)
    || c == Gaierror || c == TimeoutError || c == ValidationError
  }

  /** `error_str` set by the handshake's own handlers: `ex` itself, or `ex.message`. */
  function HandshakeDiagnostic(e: Exc): string
    requires CaughtByHandshake(e.cls)
  {
    if e.cls == TypeError then e.text else e.message
  }

  /** `error_str` set by the outer handlers, tried in the order they are written. */
  function AttemptDiagnostic(e: Exc, endpoint: string): string
    requires CaughtByAttempt(e.cls)
  {
    if e.cls == WSServerHandshakeError || e.cls == ValueError then
      "Websocket handshake " + e.name + " : " + e.text
    else if IsClientError(e.cls) || e.cls == Gaierror || e.cls == TimeoutError then
      e.text + " : " + endpoint
    else
      e.name + ":" + e.text
  }

  /** What `test_ws2p_ws` reports for given connection and handshake outcomes. */
  function ProbeSpec(connect: Step, handshake: Step, endpoint: string): (r: ProbeReply)
    ensures connect.Succeeds? && handshake.Succeeds? ==> r == Probed(true, HandshakeOk)
    ensures r.Probed? ==> (r.ok <==> connect.Succeeds? && handshake.Succeeds?)
    ensures r.Escaped? <==>
      || (connect.Raises? && !CaughtByAttempt(connect.exc.cls))
      || (connect.Succeeds? && handshake.Raises?
          && !CaughtByHandshake(handshake.exc.cls) && !CaughtByAttempt(handshake.exc.cls))
    ensures r.Escaped? ==> r.exc == if connect.Raises? then connect.exc else handshake.exc
  {
    match connect
    case Raises(e) =>
      if CaughtByAttempt(e.cls) then Probed(false, AttemptDiagnostic(e, endpoint)) else Escaped(e)
    case Succeeds =>
      match handshake
      case Succeeds => Probed(true, HandshakeOk)
      case Raises(e) =>
        if CaughtByHandshake(e.cls) then Probed(false, HandshakeDiagnostic(e))
        else if CaughtByAttempt(e.cls) then Probed(false, AttemptDiagnostic(e, endpoint))
        else Escaped(e)
  }

  /** A timeout, before or during the handshake, is a handled failure naming the endpoint. */
  lemma ProbeTimeout(connect: Step, handshake: Step, endpoint: string)
    requires connect.Raises? ==> connect.exc.cls == TimeoutError
    requires connect.Succeeds? ==> handshake.Raises? && handshake.exc.cls == TimeoutError
    ensures var e := if connect.Raises? then connect.exc else handshake.exc;
            ProbeSpec(connect, handshake, endpoint) == Probed(false, e.text + " : " + endpoint)
  {
  }

  /** A server that refuses the websocket upgrade yields the "Websocket handshake" diagnostic. */
  lemma ProbeRejected(e: Exc, handshake: Step, endpoint: string)
    requires e.cls == WSServerHandshakeError
    ensures ProbeSpec(Raises(e), handshake, endpoint)
         == Probed(false, "Websocket handshake " + e.name + " : " + e.text)
  {
  }

  /**
   * test_ws2p_ws: the flags `error` and `error_str` are set along the way, and
   * the client is closed once before a handled outcome is returned. An
   * exception no handler takes leaves before the close.
   */
  method TestWs2pWs(client: Client, connect: Step, handshake: Step) returns (r: ProbeReply)
    modifies client
    ensures r == ProbeSpec(connect, handshake, client.endpoint)
    ensures r.Probed? ==> client.closes == old(client.closes) + 1
    ensures r.Escaped? ==> client.closes == old(client.closes)
  {
    var error := false;
    var errorStr := "";
    var raised: Option<Exc> := None;
    if connect.Raises? {
      raised := Some(connect.exc);
    } else if handshake.Succeeds? {
      errorStr := HandshakeOk;
    } else if handshake.exc.cls == TypeError {
      errorStr := handshake.exc.text;
      error := true;
    } else if handshake.exc.cls == ValidationError {
      errorStr := handshake.exc.message;
      error := true;
    } else {
      raised := Some(handshake.exc);
    }
    if raised.Some? {
      var e := raised.value;
      if e.cls == WSServerHandshakeError || e.cls == ValueError {
        errorStr := "Websocket handshake " + e.name + " : " + e.text;
        error := true;
      } else if IsClientError(e.cls) || e.cls == Gaierror || e.cls == TimeoutError {
        errorStr := e.text + " : " + client.endpoint;
        error := true;
      } else if e.cls == ValidationError {
        errorStr := e.name + ":" + e.text;
        error := true;
      } else {
        return Escaped(e);
      }
    }
    client.Close();
    r := Probed(!error, errorStr);
  }
}
