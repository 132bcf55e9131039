/**
 * get_ws2p_endpoints (duniter_ep_check.py): asks one node, through its BMA
 * endpoint, for its peering document and parses the endpoints that start
 * with "WS2P". The peering request and `WS2PEndpoint.from_inline` are
 * supplied as functions returning their outcome.
 */
module Resolver {
  import opened PyExc
  import opened Text
  import opened Clients

  /** A parsed WS2P endpoint; only `from_inline` builds one. */
  datatype Ws2pEndpoint = Ws2pEndpoint(ws2pid: string, host: string, port: string, path: string)

  /** Outcome of `WS2PEndpoint.from_inline` on one line. */
  datatype Parse = Parsed(endpoint: Ws2pEndpoint) | ParseRaised(exc: Exc)

  /** Outcome of `await bma_client(bma.network.peering)`: the document's "endpoints", or an exception. */
  datatype PeeringReply = Peering(endpoints: seq<string>) | PeeringRaised(exc: Exc)

  /** get_ws2p_endpoints returns a list or raises. */
  datatype Fetch = Fetched(endpoints: seq<Ws2pEndpoint>) | FetchRaised(exc: Exc)

  predicate IsWs2pLine(line: string)
  {
    StartsWith(line, "WS2P")
  }

  /** The peering endpoints that start with "WS2P", in their original order. */
  function Ws2pLines(lines: seq<string>): (r: seq<string>)
    ensures |r| <= |lines|
    ensures forall x :: x in r <==> x in lines && IsWs2pLine(x)
  {
    if lines == [] then []
    else
      var last := lines[|lines| - 1];
      assert lines == lines[..|lines| - 1] + [last];
      Ws2pLines(lines[..|lines| - 1]) + (if IsWs2pLine(last) then [last] else [])
  }

  /** Filtering distributes over concatenation, so it keeps the relative order of the lines. */
  lemma {:induction false} Ws2pLinesConcat(a: seq<string>, b: seq<string>)
    ensures Ws2pLines(a + b) == Ws2pLines(a) + Ws2pLines(b)
    decreases |b|
  {
    if b != [] {
      var b' := b[..|b| - 1];
      assert (a + b)[..|a + b| - 1] == a + b';
      assert (a + b)[|a + b| - 1] == b[|b| - 1];
      Ws2pLinesConcat(a, b');
    } else {
      assert a + b == a;
    }
  }

  /**
   * The loop over the peering endpoints: every WS2P line is parsed and
   * appended; the first line `from_inline` rejects raises out of the loop.
   */
  function ParseWs2p(lines: seq<string>, fromInline: string -> Parse): Fetch
  {
    if lines == [] then Fetched([])
    else
      var last := lines[|lines| - 1];
      match ParseWs2p(lines[..|lines| - 1], fromInline)
      case FetchRaised(e) => FetchRaised(e)
      case Fetched(eps) =>
        if !IsWs2pLine(last) then Fetched(eps)
        else match fromInline(last)
             case ParseRaised(e) => FetchRaised(e)
             case Parsed(ep) => Fetched(eps + [ep])
  }

  /**
   * The loop returns, in order, exactly the WS2P lines each parsed by
   * `from_inline`, or raises what `from_inline` raised on the first WS2P line
   * it rejects.
   */
  lemma {:induction false} ParseWs2pMeaning(lines: seq<string>, fromInline: string -> Parse)
    ensures var r := ParseWs2p(lines, fromInline);
      && (r.Fetched? <==> forall i :: 0 <= i < |Ws2pLines(lines)| ==> fromInline(Ws2pLines(lines)[i]).Parsed?)
      && (r.Fetched? ==>
            && |r.endpoints| == |Ws2pLines(lines)|
            && forall i :: 0 <= i < |r.endpoints| ==> fromInline(Ws2pLines(lines)[i]) == Parsed(r.endpoints[i]))
      && (r.FetchRaised? ==>
            exists i :: 0 <= i < |Ws2pLines(lines)| && fromInline(Ws2pLines(lines)[i]) == ParseRaised(r.exc)
              && forall j :: 0 <= j < i ==> fromInline(Ws2pLines(lines)[j]).Parsed?)
    decreases |lines|
  {
    if lines != [] {
      var pre, last := lines[..|lines| - 1], lines[|lines| - 1];
      var ws, wsPre := Ws2pLines(lines), Ws2pLines(pre);
      assert ws == wsPre + (if IsWs2pLine(last) then [last] else []);
      ParseWs2pMeaning(pre, fromInline);
      assert forall i :: 0 <= i < |wsPre| ==> ws[i] == wsPre[i];
      var rp := ParseWs2p(pre, fromInline);
      if rp.FetchRaised? {
        var i :| 0 <= i < |wsPre| && fromInline(wsPre[i]) == ParseRaised(rp.exc)
          && forall j :: 0 <= j < i ==> fromInline(wsPre[j]).Parsed?;
        assert fromInline(ws[i]) == ParseRaised(rp.exc);
        assert !fromInline(ws[i]).Parsed?;
      } else if IsWs2pLine(last) && fromInline(last).ParseRaised? {
        assert ws[|wsPre|] == last;
        assert !fromInline(ws[|wsPre|]).Parsed?;
      }
    }
  }

  /** Once a prefix of the lines raises, the whole loop raises the same exception. */
  lemma {:induction false} ParseWs2pRaisedPrefix(lines: seq<string>, k: nat, fromInline: string -> Parse)
    requires k <= |lines|
    requires ParseWs2p(lines[..k], fromInline).FetchRaised?
    ensures ParseWs2p(lines, fromInline) == ParseWs2p(lines[..k], fromInline)
    decreases |lines| - k
  {
    if k < |lines| {
      assert lines[..k + 1][..k] == lines[..k];
      ParseWs2pRaisedPrefix(lines, k + 1, fromInline);
    } else {
      assert lines[..k] == lines;
    }
  }

  /** What get_ws2p_endpoints returns or raises; a failed peering request is re-raised unchanged. */
  function FetchSpec(reply: PeeringReply, fromInline: string -> Parse): Fetch
  {
    match reply
    case PeeringRaised(e) => FetchRaised(e)
    case Peering(lines) => ParseWs2p(lines, fromInline)
  }

  /**
   * get_ws2p_endpoints as written: the client is closed when the peering
   * request raises and after the loop, but not when `from_inline` raises
   * inside the loop, which no `try` covers.
   */
  method GetWs2pEndpointsAsWritten(bmaEndpoint: string, peering: string -> PeeringReply, fromInline: string -> Parse)
    returns (r: Fetch, client: Client)
    ensures fresh(client) && client.endpoint == bmaEndpoint
    ensures r == FetchSpec(peering(bmaEndpoint), fromInline)
    ensures client.closes == if peering(bmaEndpoint).Peering? && r.FetchRaised? then 0 else 1
  {
    var ws2pEndpoints: seq<Ws2pEndpoint> := [];
    client := new Client(bmaEndpoint);
    var reply := peering(bmaEndpoint);
    if reply.PeeringRaised? {
      client.Close();
      return FetchRaised(reply.exc), client;
    }
    var lines := reply.endpoints;
    for i := 0 to |lines|
      invariant ParseWs2p(lines[..i], fromInline) == Fetched(ws2pEndpoints)
      invariant client.closes == 0
    {
      assert lines[..i + 1][..i] == lines[..i];
      if StartsWith(lines[i], "WS2P") {
        var parsed := fromInline(lines[i]);
        if parsed.ParseRaised? {
          ParseWs2pRaisedPrefix(lines, i + 1, fromInline);
          return FetchRaised(parsed.exc), client;
        }
        ws2pEndpoints := ws2pEndpoints + [parsed.endpoint];
      }
    }
    assert lines[..|lines|] == lines;
    client.Close();
    r := Fetched(ws2pEndpoints);
  }

  /** A peering document with one WS2P line that `from_inline` rejects leaves the client open. */
  method MalformedLineLeavesClientOpen() returns (result: Fetch, closes: nat)
    ensures result.FetchRaised? && closes == 0
  {
    var bad := Exc(MalformedDocumentError, "MalformedDocumentError", "Could not parse WS2P endpoint", "");
    var client;
    result, client := GetWs2pEndpointsAsWritten("BMAS g1.example.org 443",
                                                _ => Peering(["WS2P 1234abcd"]),
                                                _ => ParseRaised(bad));
    assert StartsWith("WS2P 1234abcd", "WS2P");
    closes := client.closes;
  }

  /**
   * get_ws2p_endpoints with the client released on every exit path, the
   * behaviour the function's `finally`-like structure is evidently meant to
   * have. The returned list or exception is the same as the code's.
   */
  method GetWs2pEndpoints(bmaEndpoint: string, peering: string -> PeeringReply, fromInline: string -> Parse)
    returns (r: Fetch, client: Client)
    ensures fresh(client) && client.endpoint == bmaEndpoint
    ensures r == FetchSpec(peering(bmaEndpoint), fromInline)
    ensures client.closes == 1
  {
    var ws2pEndpoints: seq<Ws2pEndpoint> := [];
    client := new Client(bmaEndpoint);
    var reply := peering(bmaEndpoint);
    if reply.PeeringRaised? {
      client.Close();
      return FetchRaised(reply.exc), client;
    }
    var lines := reply.endpoints;
    for i := 0 to |lines|
      invariant ParseWs2p(lines[..i], fromInline) == Fetched(ws2pEndpoints)
      invariant client.closes == 0
    {
      assert lines[..i + 1][..i] == lines[..i];
      if StartsWith(lines[i], "WS2P") {
        var parsed := fromInline(lines[i]);
        if parsed.ParseRaised? {
          ParseWs2pRaisedPrefix(lines, i + 1, fromInline);
          client.Close();
          return FetchRaised(parsed.exc), client;
        }
        ws2pEndpoints := ws2pEndpoints + [parsed.endpoint];
      }
    }
    assert lines[..|lines|] == lines;
    client.Close();
    r := Fetched(ws2pEndpoints);
  }
}
