/**
 * The aggregation loop of `main` (duniter_ep_check.py): for every node of
 * every group, the BMA endpoints are tried in order to resolve the node's
 * WS2P endpoints until one resolves, and failures are appended to the ledger
 * under the node's pubkey.
 */
module Aggregate {
  import opened PyExc
  import opened Options
  import opened Text
  import opened Clients
  import opened Probe
  import opened Resolver
  import opened Ledger

  /** A node of `get_available_nodes`: `node['head'].pubkey` and `node['endpoints']`. */
  datatype Node = Node(pubkey: string, endpoints: seq<string>)

  /**
   * Everything the loop asks of the outside world, as functions returning
   * outcomes: the peering request per BMA endpoint, `WS2PEndpoint.from_inline`,
   * `WS2PEndpoint.inline`, `str` of a WS2P client's endpoint, and the
   * websocket connection and handshake per WS2P endpoint.
   */
  datatype Network = Network(
    peering: string -> PeeringReply,
    fromInline: string -> Parse,
    inline: Ws2pEndpoint -> string,
    display: Ws2pEndpoint -> string,
    connect: Ws2pEndpoint -> Step,
    handshake: Ws2pEndpoint -> Step)

  /** An endpoint the loop accepts as the node's directory (BMA) endpoint. */
  predicate IsBmaLine(line: string)
  {
    StartsWith(line, "BMAS") || StartsWith(line, "BASIC_MERKLED_API")
  }

  /** Classes the `except` clauses around `get_ws2p_endpoints` handle. */
  predicate CaughtByResolution(c: ExcClass)
  {
    c == TimeoutError || c == ClientConnectorError || c == MalformedDocumentError || c == ValueError
  }

  /** The ledger message of a handled resolution failure, by handler. */
  function ResolutionMessage(e: Exc): string
    requires CaughtByResolution(e.cls)
  {
    if e.cls == TimeoutError || e.cls == ClientConnectorError then
      "unable to retrieved WS2P endpoint: " + e.text
    else if e.cls == MalformedDocumentError then
      "Malformed WS2P endpoint: " + e.text
    else
      "unable to retrieved WS2P endpoint, value error: " + e.text
  }

  /** Resolving through this BMA endpoint fails with an exception that a handler takes. */
  predicate FailsHandled(bma: string, net: Network)
  {
    var f := FetchSpec(net.peering(bma), net.fromInline);
    f.FetchRaised? && CaughtByResolution(f.exc.cls)
  }

  /** The ledger entry a handled resolution failure adds. */
  function FailureEntry(bma: string, net: Network): Entry
    requires FailsHandled(bma, net)
  {
    Entry(bma, ResolutionMessage(FetchSpec(net.peering(bma), net.fromInline).exc))
  }

  /** The node's BMA endpoints, in their order. */
  function BmaLines(lines: seq<string>): (r: seq<string>)
    ensures |r| <= |lines|
    ensures forall x :: x in r <==> x in lines && IsBmaLine(x)
    ensures forall k :: 0 <= k < |r| ==> IsBmaLine(r[k]) && r[k] in lines
  {
    if lines == [] then []
    else
      assert lines == [lines[0]] + lines[1..];
      (if IsBmaLine(lines[0]) then [lines[0]] else []) + BmaLines(lines[1..])
  }

  /** Filtering distributes over concatenation, so the BMA endpoints keep their relative order. */
  lemma {:induction false} BmaLinesConcat(a: seq<string>, b: seq<string>)
    ensures BmaLines(a + b) == BmaLines(a) + BmaLines(b)
  {
    if a == [] {
      assert a + b == b;
    } else {
      assert (a + b)[0] == a[0];
      assert (a + b)[1..] == a[1..] + b;
      BmaLinesConcat(a[1..], b);
    }
  }

  /** What processing one node yields: entries in append order, the endpoints probed, and any escaping exception. */
  datatype NodeRun = NodeRun(entries: seq<Entry>, probed: seq<Ws2pEndpoint>, escaped: Option<Exc>)

  function ProbeOne(w: Ws2pEndpoint, net: Network): ProbeReply
  {
    ProbeSpec(net.connect(w), net.handshake(w), net.display(w))
  }

  /** The inner loop: every resolved endpoint is probed in order; a failed probe adds `(inline(), diagnostic)`. */
  function ProbeAll(ws: seq<Ws2pEndpoint>, net: Network): NodeRun
  {
    if ws == [] then NodeRun([], [], None)
    else
      var p := ProbeAll(ws[..|ws| - 1], net);
      var w := ws[|ws| - 1];
      if p.escaped.Some? then p
      else match ProbeOne(w, net)
           case Escaped(e) => NodeRun(p.entries, p.probed + [w], Some(e))
           case Probed(ok, d) =>
             NodeRun(p.entries + (if ok then [] else [Entry(net.inline(w), d)]), p.probed + [w], None)
  }

  /**
   * `for endpoint in node['endpoints']`: lines that are not BMA are passed
   * over; a BMA endpoint whose resolution fails with a handled exception adds
   * its entry and the scan goes on; one whose resolution raises anything else
   * aborts; one that resolves has its endpoints probed, and the `break` of
   * that `else` branch ends the scan.
   */
  function NodeScan(eps: seq<string>, net: Network): NodeRun
    decreases |eps|
  {
    if eps == [] then NodeRun([], [], None)
    else if !IsBmaLine(eps[0]) then NodeScan(eps[1..], net)
    else
      var f := FetchSpec(net.peering(eps[0]), net.fromInline);
      if f.Fetched? then ProbeAll(f.endpoints, net)
      else if CaughtByResolution(f.exc.cls) then
        Then(NodeRun([Entry(eps[0], ResolutionMessage(f.exc))], [], None), NodeScan(eps[1..], net))
      else NodeRun([], [], Some(f.exc))
  }

  /** The ledger after the loop, or the exception that aborts `main`. */
  datatype Aggregation = Completed(ledger: Ledger) | Crashed(exc: Exc)

  function Apply(l: Ledger, pk: string, run: NodeRun): Aggregation
  {
    if run.escaped.Some? then Crashed(run.escaped.value) else Completed(AddAll(l, pk, run.entries))
  }

  /** The nodes of all groups, in the order the two loops visit them. */
  function Flatten(groups: seq<seq<Node>>): seq<Node>
  {
    if groups == [] then [] else Flatten(groups[..|groups| - 1]) + groups[|groups| - 1]
  }

  /** The loop over the nodes, starting from an empty `defaultdict`. */
  function AggNodes(nodes: seq<Node>, net: Network): Aggregation
  {
    if nodes == [] then Completed(Empty)
    else match AggNodes(nodes[..|nodes| - 1], net)
         case Crashed(e) => Crashed(e)
         case Completed(l) => Apply(l, nodes[|nodes| - 1].pubkey, NodeScan(nodes[|nodes| - 1].endpoints, net))
  }

  function AggregateSpec(groups: seq<seq<Node>>, net: Network): Aggregation
  {
    AggNodes(Flatten(groups), net)
  }

  // ---------------------------------------------------------------------------
  // Per node
  // ---------------------------------------------------------------------------

  /** A node without a BMA endpoint adds no entry and triggers no probe. */
  lemma {:induction false} NodeWithoutBma(eps: seq<string>, net: Network)
    requires forall j :: 0 <= j < |eps| ==> !IsBmaLine(eps[j])
    ensures NodeScan(eps, net) == NodeRun([], [], None)
    decreases |eps|
  {
    if eps != [] {
      assert forall j :: 0 <= j < |eps[1..]| ==> eps[1..][j] == eps[j + 1];
      NodeWithoutBma(eps[1..], net);
    }
  }

  /**
   * Once a BMA endpoint resolves or raises an unhandled exception, the
   * endpoints after it are never examined.
   */
  lemma {:induction false} NodeStopsAtResolution(pre: seq<string>, e: string, post1: seq<string>, post2: seq<string>, net: Network)
    requires IsBmaLine(e) && !FailsHandled(e, net)
    ensures NodeScan(pre + [e] + post1, net) == NodeScan(pre + [e] + post2, net)
    decreases |pre|
  {
    var a, b := pre + [e] + post1, pre + [e] + post2;
    if pre == [] {
      assert a[0] == e && b[0] == e;
    } else {
      assert a[0] == pre[0] && b[0] == pre[0];
      assert a[1..] == pre[1..] + [e] + post1;
      assert b[1..] == pre[1..] + [e] + post2;
      NodeStopsAtResolution(pre[1..], e, post1, post2, net);
    }
  }

  /**
   * Scanning up to the BMA endpoint that stops the scan: the handled failures
   * before it are recorded, nothing is probed before it, and then it runs.
   */
  lemma {:induction false} NodeScanStops(pre: seq<string>, e: string, post: seq<string>, net: Network)
    requires forall j :: 0 <= j < |pre| ==> !IsBmaLine(pre[j]) || FailsHandled(pre[j], net)
    requires IsBmaLine(e) && !FailsHandled(e, net)
    ensures NodeScan(pre, net).escaped.None? && NodeScan(pre, net).probed == []
    ensures NodeScan(pre + [e] + post, net) == Then(NodeScan(pre, net), NodeScan([e], net))
    decreases |pre|
  {
    var a := pre + [e] + post;
    if pre == [] {
      assert a[0] == e;
      ThenEmpty(NodeScan([e], net));
    } else {
      assert a[0] == pre[0];
      assert a[1..] == pre[1..] + [e] + post;
      assert forall j :: 0 <= j < |pre[1..]| ==> pre[1..][j] == pre[j + 1];
      NodeScanStops(pre[1..], e, post, net);
      if IsBmaLine(pre[0]) {
        var x := NodeRun([FailureEntry(pre[0], net)], [], None);
        ThenAssoc(x, NodeScan(pre[1..], net), NodeScan([e], net));
      }
    }
  }

  /** A scan of handled failures only: it never escapes, probes nothing, and adds one entry per BMA endpoint. */
  lemma {:induction false} NodeResolutionShape(eps: seq<string>, net: Network)
    requires forall j :: 0 <= j < |eps| ==> IsBmaLine(eps[j]) ==> FailsHandled(eps[j], net)
    ensures NodeScan(eps, net).escaped.None? && NodeScan(eps, net).probed == []
    ensures |NodeScan(eps, net).entries| == |BmaLines(eps)|
    decreases |eps|
  {
    if eps != [] {
      var rest := eps[1..];
      assert forall j :: 0 <= j < |rest| ==> rest[j] == eps[j + 1];
      NodeResolutionShape(rest, net);
      var rs := NodeScan(rest, net);
      if IsBmaLine(eps[0]) {
        assert NodeScan(eps, net) == NodeRun([FailureEntry(eps[0], net)] + rs.entries, [] + rs.probed, None);
        assert BmaLines(eps) == [eps[0]] + BmaLines(rest);
      } else {
        assert BmaLines(eps) == [] + BmaLines(rest);
      }
    }
  }

  /**
   * A node whose BMA endpoints all fail with handled exceptions gets one entry
   * per BMA endpoint, in their order, and probes nothing.
   */
  lemma {:induction false} NodeResolutionFailure(eps: seq<string>, net: Network)
    requires forall j :: 0 <= j < |eps| ==> IsBmaLine(eps[j]) ==> FailsHandled(eps[j], net)
    ensures NodeScan(eps, net).escaped.None? && NodeScan(eps, net).probed == []
    ensures |NodeScan(eps, net).entries| == |BmaLines(eps)|
    ensures forall k :: 0 <= k < |BmaLines(eps)| ==> NodeScan(eps, net).entries[k] == FailureEntry(BmaLines(eps)[k], net)
    decreases |eps|
  {
    NodeResolutionShape(eps, net);
    if eps != [] {
      var rest := eps[1..];
      assert forall j :: 0 <= j < |rest| ==> rest[j] == eps[j + 1];
      NodeResolutionFailure(rest, net);
      var rs, es := NodeScan(rest, net).entries, NodeScan(eps, net).entries;
      var bl, br := BmaLines(eps), BmaLines(rest);
      if IsBmaLine(eps[0]) {
        assert es == [FailureEntry(eps[0], net)] + rs;
        assert bl == [eps[0]] + br;
        forall k | 0 <= k < |bl|
          ensures es[k] == FailureEntry(bl[k], net)
        {
          if k > 0 {
            assert bl[k] == br[k - 1] && es[k] == rs[k - 1];
          }
        }
      } else {
        assert es == rs;
        assert bl == [] + br;
      }
    }
  }

  /** After an escape, later endpoints are not probed. */
  lemma {:induction false} ProbeAllEscapedPrefix(ws: seq<Ws2pEndpoint>, k: nat, net: Network)
    requires k <= |ws|
    requires ProbeAll(ws[..k], net).escaped.Some?
    ensures ProbeAll(ws, net) == ProbeAll(ws[..k], net)
    decreases |ws| - k
  {
    if k < |ws| {
      assert ws[..k + 1][..k] == ws[..k];
      ProbeAllEscapedPrefix(ws, k + 1, net);
    } else {
      assert ws[..k] == ws;
    }
  }

  /** Running two lists one after the other. */
  function Then(p: NodeRun, q: NodeRun): NodeRun
  {
    if p.escaped.Some? then p else NodeRun(p.entries + q.entries, p.probed + q.probed, q.escaped)
  }

  lemma ThenEmpty(q: NodeRun)
    ensures Then(NodeRun([], [], None), q) == q
  {
    assert [] + q.entries == q.entries && [] + q.probed == q.probed;
  }

  lemma ThenAssoc(p: NodeRun, q: NodeRun, s: NodeRun)
    ensures Then(p, Then(q, s)) == Then(Then(p, q), s)
  {
    if p.escaped.None? && q.escaped.None? {
      assert p.entries + (q.entries + s.entries) == p.entries + q.entries + s.entries;
      assert p.probed + (q.probed + s.probed) == p.probed + q.probed + s.probed;
    }
  }

  /** Probing is sequential: the entries of a concatenation are those of its parts, in order. */
  lemma {:induction false} ProbeAllConcat(a: seq<Ws2pEndpoint>, b: seq<Ws2pEndpoint>, net: Network)
    ensures ProbeAll(a + b, net) == Then(ProbeAll(a, net), ProbeAll(b, net))
    decreases |b|
  {
    if b == [] {
      assert a + b == a;
    } else {
      var b' := b[..|b| - 1];
      assert (a + b)[..|a + b| - 1] == a + b';
      assert (a + b)[|a + b| - 1] == b[|b| - 1];
      ProbeAllConcat(a, b', net);
      var pa, pb := ProbeAll(a, net), ProbeAll(b', net);
      if pa.escaped.None? && pb.escaped.None? {
        assert pa.entries + pb.entries + [] == pa.entries + (pb.entries + []);
        var w := b[|b| - 1];
        if ProbeOne(w, net).Probed? && !ProbeOne(w, net).ok {
          var x := Entry(net.inline(w), ProbeOne(w, net).diagnostic);
          assert pa.entries + pb.entries + [x] == pa.entries + (pb.entries + [x]);
        }
        assert pa.probed + pb.probed + [w] == pa.probed + (pb.probed + [w]);
      }
    }
  }

  /** The entry a failed probe contributes, or none. */
  function FailedEntry(w: Ws2pEndpoint, net: Network): seq<Entry>
  {
    var p := ProbeOne(w, net);
    if p.Probed? && !p.ok then [Entry(net.inline(w), p.diagnostic)] else []
  }

  /** One `(inline(), diagnostic)` per failed probe, in the order of `ws`. */
  function FailedEntries(ws: seq<Ws2pEndpoint>, net: Network): seq<Entry>
  {
    if ws == [] then [] else FailedEntry(ws[0], net) + FailedEntries(ws[1..], net)
  }

  lemma {:induction false} FailedEntriesSnoc(ws: seq<Ws2pEndpoint>, w: Ws2pEndpoint, net: Network)
    ensures FailedEntries(ws + [w], net) == FailedEntries(ws, net) + FailedEntry(w, net)
    decreases |ws|
  {
    if ws == [] {
      assert [w][1..] == [];
    } else {
      assert (ws + [w])[0] == ws[0];
      assert (ws + [w])[1..] == ws[1..] + [w];
      FailedEntriesSnoc(ws[1..], w, net);
    }
  }

  /**
   * Nothing escapes iff every probe returns; then every resolved endpoint is
   * probed, and each failed probe appends exactly one entry, in probe order.
   */
  lemma {:induction false} ProbeAllMeaning(ws: seq<Ws2pEndpoint>, net: Network)
    ensures ProbeAll(ws, net).escaped.None? <==> forall i :: 0 <= i < |ws| ==> ProbeOne(ws[i], net).Probed?
    ensures ProbeAll(ws, net).escaped.None? ==>
      ProbeAll(ws, net).probed == ws && ProbeAll(ws, net).entries == FailedEntries(ws, net)
  {
    if ws != [] {
      var pre, w := ws[..|ws| - 1], ws[|ws| - 1];
      ProbeAllMeaning(pre, net);
      var p := ProbeAll(pre, net);
      assert forall i :: 0 <= i < |pre| ==> ws[i] == pre[i];
      if p.escaped.Some? {
        var i :| 0 <= i < |pre| && !ProbeOne(pre[i], net).Probed?;
        assert !ProbeOne(ws[i], net).Probed?;
      } else if ProbeOne(w, net).Escaped? {
        assert !ProbeOne(ws[|pre|], net).Probed?;
      } else {
        assert ProbeAll(ws, net) == NodeRun(p.entries + FailedEntry(w, net), pre + [w], None);
        assert ws == pre + [w];
        FailedEntriesSnoc(pre, w, net);
      }
    }
  }

  /** When every probe succeeds, nothing is recorded. */
  lemma {:induction false} ProbeAllReachable(ws: seq<Ws2pEndpoint>, net: Network)
    requires forall i :: 0 <= i < |ws| ==> ProbeOne(ws[i], net).Probed? && ProbeOne(ws[i], net).ok
    ensures ProbeAll(ws, net) == NodeRun([], ws, None)
  {
    if ws != [] {
      var pre, w := ws[..|ws| - 1], ws[|ws| - 1];
      assert forall i :: 0 <= i < |pre| ==> pre[i] == ws[i];
      ProbeAllReachable(pre, net);
      assert ProbeOne(w, net) == Probed(true, ProbeOne(w, net).diagnostic);
      assert pre + [w] == ws;
    }
  }

  // ---------------------------------------------------------------------------
  // Over all nodes
  // ---------------------------------------------------------------------------

  /** All entries recorded for `pk`, node after node: the reference for the ledger's per-key lists. */
  function EntriesFor(nodes: seq<Node>, pk: string, net: Network): seq<Entry>
  {
    if nodes == [] then []
    else
      var n := nodes[|nodes| - 1];
      EntriesFor(nodes[..|nodes| - 1], pk, net) + (if n.pubkey == pk then NodeScan(n.endpoints, net).entries else [])
  }

  /**
   * The ledger is well formed, and the list under each pubkey holds exactly
   * the entries of the nodes with that pubkey, in visiting order, however
   * many times and in whichever groups the pubkey appears.
   */
  lemma {:induction false} AggNodesMeaning(nodes: seq<Node>, net: Network)
    requires AggNodes(nodes, net).Completed?
    ensures Valid(AggNodes(nodes, net).ledger)
    ensures forall pk :: Get(AggNodes(nodes, net).ledger, pk) == EntriesFor(nodes, pk, net)
  {
    if nodes != [] {
      var init, n := nodes[..|nodes| - 1], nodes[|nodes| - 1];
      assert AggNodes(init, net).Completed?;
      AggNodesMeaning(init, net);
      var l, run := AggNodes(init, net).ledger, NodeScan(n.endpoints, net);
      var r := AggNodes(nodes, net).ledger;
      assert r == AddAll(l, n.pubkey, run.entries);
      forall pk ensures Get(r, pk) == EntriesFor(nodes, pk, net) {
        assert EntriesFor(nodes, pk, net) == EntriesFor(init, pk, net) + (if n.pubkey == pk then run.entries else []);
      }
    }
  }

  /** A pubkey is a ledger key iff some entry was recorded for it. */
  lemma AggNodesKeys(nodes: seq<Node>, net: Network, pk: string)
    requires AggNodes(nodes, net).Completed?
    ensures pk in AggNodes(nodes, net).ledger.order <==> EntriesFor(nodes, pk, net) != []
  {
    AggNodesMeaning(nodes, net);
  }

  /** Once a prefix of the nodes aborts, the whole run aborts with that exception. */
  lemma {:induction false} AggNodesCrashedPrefix(nodes: seq<Node>, k: nat, net: Network)
    requires k <= |nodes|
    requires AggNodes(nodes[..k], net).Crashed?
    ensures AggNodes(nodes, net) == AggNodes(nodes[..k], net)
    decreases |nodes| - k
  {
    if k < |nodes| {
      assert nodes[..k + 1][..k] == nodes[..k];
      AggNodesCrashedPrefix(nodes, k + 1, net);
    } else {
      assert nodes[..k] == nodes;
    }
  }

  /** A run where no node records anything or escapes ends with an empty ledger. */
  lemma {:induction false} AggNodesNoFailures(nodes: seq<Node>, net: Network)
    requires forall i :: 0 <= i < |nodes| ==> NodeScan(nodes[i].endpoints, net).entries == [] && NodeScan(nodes[i].endpoints, net).escaped.None?
    ensures AggNodes(nodes, net) == Completed(Empty)
  {
    if nodes != [] {
      AggNodesNoFailures(nodes[..|nodes| - 1], net);
    }
  }

  lemma {:induction false} FlattenConcat(a: seq<seq<Node>>, b: seq<seq<Node>>)
    ensures Flatten(a + b) == Flatten(a) + Flatten(b)
    decreases |b|
  {
    if b == [] {
      assert a + b == a;
    } else {
      var b' := b[..|b| - 1];
      assert (a + b)[..|a + b| - 1] == a + b';
      FlattenConcat(a, b');
    }
  }

  // ---------------------------------------------------------------------------
  // The loops
  // ---------------------------------------------------------------------------

  /** One more endpoint of the inner loop, when nothing has escaped so far. */
  lemma ProbeAllStep(ws: seq<Ws2pEndpoint>, m: nat, net: Network)
    requires m < |ws| && ProbeAll(ws[..m], net).escaped.None?
    ensures var p, w := ProbeAll(ws[..m], net), ws[m];
      ProbeAll(ws[..m + 1], net) ==
        match ProbeOne(w, net)
        case Escaped(e) => NodeRun(p.entries, p.probed + [w], Some(e))
        case Probed(ok, d) => NodeRun(p.entries + (if ok then [] else [Entry(net.inline(w), d)]), p.probed + [w], None)
  {
    assert ws[..m + 1][..m] == ws[..m];
  }

  lemma AddAllStep(l: Ledger, pk: string, es: seq<Entry>, x: Entry)
    ensures AddAll(l, pk, es + [x]) == Add(AddAll(l, pk, es), pk, x)
  {
    assert (es + [x])[..|es|] == es;
  }

  /** `test_ws2p_ws(Client(ws2p_endpoint), signing_key)` on a fresh client. */
  method ProbeEndpoint(w: Ws2pEndpoint, net: Network) returns (reply: ProbeReply)
    ensures reply == ProbeOne(w, net)
  {
    var client := new Client(net.display(w));
    reply := TestWs2pWs(client, net.connect(w), net.handshake(w));
  }

  /**
   * The `else` branch of the resolution `try`: every resolved endpoint gets a
   * fresh WS2P client and one `test_ws2p_ws`; failures are appended in order.
   */
  method ProbeEndpoints(ws: seq<Ws2pEndpoint>, net: Network, pk: string, ledger: Ledger)
    returns (r: Aggregation, probed: seq<Ws2pEndpoint>)
    ensures r == Apply(ledger, pk, ProbeAll(ws, net))
    ensures probed == ProbeAll(ws, net).probed
  {
    probed := [];
    var l := ledger;
    ghost var es: seq<Entry> := [];
    for m := 0 to |ws|
      invariant ProbeAll(ws[..m], net) == NodeRun(es, probed, None)
      invariant l == AddAll(ledger, pk, es)
    {
      var w := ws[m];
      var reply := ProbeEndpoint(w, net);
      ProbeAllStep(ws, m, net);
      probed := probed + [w];
      if reply.Escaped? {
        ProbeAllEscapedPrefix(ws, m + 1, net);
        return Crashed(reply.exc), probed;
      }
      if !reply.ok {
        var x := Entry(net.inline(w), reply.diagnostic);
        AddAllStep(ledger, pk, es, x);
        l := Add(l, pk, x);
        es := es + [x];
      }
    }
    assert ws[..|ws|] == ws;
    r := Completed(l);
  }

  /**
   * The handlers around `get_ws2p_endpoints`: a handled exception becomes one
   * entry for the BMA endpoint; any other one aborts `main`.
   */
  method RecordResolutionFailure(bma: string, e: Exc, pk: string, ledger: Ledger) returns (r: Aggregation)
    ensures CaughtByResolution(e.cls) ==> r == Completed(Add(ledger, pk, Entry(bma, ResolutionMessage(e))))
    ensures !CaughtByResolution(e.cls) ==> r == Crashed(e)
  {
    var errorStr: string;
    if e.cls == TimeoutError || e.cls == ClientConnectorError {
      errorStr := "unable to retrieved WS2P endpoint: " + e.text;
    } else if e.cls == MalformedDocumentError {
      errorStr := "Malformed WS2P endpoint: " + e.text;
    } else if e.cls == ValueError {
      errorStr := "unable to retrieved WS2P endpoint, value error: " + e.text;
    } else {
      return Crashed(e);
    }
    r := Completed(Add(ledger, pk, Entry(bma, errorStr)));
  }

  /** The scan at position `j`, unfolded once. */
  lemma NodeScanAt(eps: seq<string>, j: nat, net: Network)
    requires j < |eps|
    ensures var f := FetchSpec(net.peering(eps[j]), net.fromInline);
      NodeScan(eps[j..], net) ==
        if !IsBmaLine(eps[j]) then NodeScan(eps[j + 1..], net)
        else if f.Fetched? then ProbeAll(f.endpoints, net)
        else if CaughtByResolution(f.exc.cls) then
          Then(NodeRun([Entry(eps[j], ResolutionMessage(f.exc))], [], None), NodeScan(eps[j + 1..], net))
        else NodeRun([], [], Some(f.exc))
  {
    assert eps[j..][0] == eps[j];
    assert eps[j..][1..] == eps[j + 1..];
  }

  lemma {:induction false} AddAllConcat(l: Ledger, pk: string, a: seq<Entry>, b: seq<Entry>)
    ensures AddAll(l, pk, a + b) == AddAll(AddAll(l, pk, a), pk, b)
    decreases |b|
  {
    if b == [] {
      assert a + b == a;
    } else {
      var b' := b[..|b| - 1];
      assert (a + b)[..|a + b| - 1] == a + b';
      assert (a + b)[|a + b| - 1] == b[|b| - 1];
      AddAllConcat(l, pk, a, b');
    }
  }

  /** Entries already appended, followed by the rest of the node. */
  lemma ApplyThen(l: Ledger, pk: string, es: seq<Entry>, q: NodeRun)
    ensures Apply(l, pk, Then(NodeRun(es, [], None), q)) == Apply(AddAll(l, pk, es), pk, q)
    ensures Then(NodeRun(es, [], None), q).probed == q.probed
  {
    AddAllConcat(l, pk, es, q.entries);
    assert [] + q.probed == q.probed;
  }

  /**
   * One iteration of `for node in group`: scans the endpoints; a BMA endpoint
   * whose resolution fails with a handled exception adds its entry and the
   * scan goes on; the first one that resolves is probed through and the scan
   * stops (the `break`). Returns the ledger and the endpoints handed to
   * `test_ws2p_ws`. The corrected `GetWs2pEndpoints` is used: it returns or
   * raises exactly what the code's version does and differs only in closing
   * its client.
   */
  method ProcessNode(node: Node, net: Network, ledger: Ledger) returns (r: Aggregation, probed: seq<Ws2pEndpoint>)
    ensures r == Apply(ledger, node.pubkey, NodeScan(node.endpoints, net))
    ensures probed == NodeScan(node.endpoints, net).probed
  {
    var eps, pk := node.endpoints, node.pubkey;
    probed := [];
    var l := ledger;
    ghost var es: seq<Entry> := [];
    assert eps[0..] == eps;
    ThenEmpty(NodeScan(eps, net));
    for j := 0 to |eps|
      invariant NodeScan(eps, net) == Then(NodeRun(es, [], None), NodeScan(eps[j..], net))
      invariant l == AddAll(ledger, pk, es)
    {
      var endpoint := eps[j];
      NodeScanAt(eps, j, net);
      if StartsWith(endpoint, "BMAS") || StartsWith(endpoint, "BASIC_MERKLED_API") {
        var fetch, bmaClient := GetWs2pEndpoints(endpoint, net.peering, net.fromInline);
        match fetch {
          case FetchRaised(e) =>
            var step := RecordResolutionFailure(endpoint, e, pk, l);
            if step.Crashed? {
              return step, probed;
            }
            var x := Entry(endpoint, ResolutionMessage(e));
            AddAllStep(ledger, pk, es, x);
            ThenAssoc(NodeRun(es, [], None), NodeRun([x], [], None), NodeScan(eps[j + 1..], net));
            l := step.ledger;
            es := es + [x];
          case Fetched(ws) =>
            ApplyThen(ledger, pk, es, ProbeAll(ws, net));
            r, probed := ProbeEndpoints(ws, net, pk, l);
            return;
        }
      }
    }
    assert eps[|eps|..] == [];
    assert es + [] == es;
    r := Completed(l);
  }

  lemma PrefixStep(done: seq<Node>, group: seq<Node>, i: nat)
    requires i < |group|
    ensures done + group[..i + 1] == (done + group[..i]) + [group[i]]
  {
    assert group[..i + 1] == group[..i] + [group[i]];
  }

  /** One more node: the loop's step. */
  lemma AggNodesStep(nodes: seq<Node>, n: Node, net: Network)
    ensures AggNodes(nodes + [n], net) ==
      match AggNodes(nodes, net)
      case Crashed(e) => Crashed(e)
      case Completed(l) => Apply(l, n.pubkey, NodeScan(n.endpoints, net))
  {
    assert (nodes + [n])[..|nodes|] == nodes;
  }

  /** An abort at node `ni` of group `gi` is the abort of the whole run. */
  lemma CrashInGroup(groups: seq<seq<Node>>, gi: nat, ni: nat, net: Network)
    requires gi < |groups| && ni < |groups[gi]|
    requires AggNodes(Flatten(groups[..gi]) + groups[gi][..ni + 1], net).Crashed?
    ensures AggregateSpec(groups, net) == AggNodes(Flatten(groups[..gi]) + groups[gi][..ni + 1], net)
  {
    var group := groups[gi];
    var nodes := Flatten(groups[..gi]) + group[..ni + 1];
    assert groups[..gi + 1][..gi] == groups[..gi];
    assert groups == groups[..gi + 1] + groups[gi + 1..];
    FlattenConcat(groups[..gi + 1], groups[gi + 1..]);
    assert group == group[..ni + 1] + group[ni + 1..];
    assert Flatten(groups) == nodes + (group[ni + 1..] + Flatten(groups[gi + 1..]));
    assert Flatten(groups)[..|nodes|] == nodes;
    AggNodesCrashedPrefix(Flatten(groups), |nodes|, net);
  }

  /** The two nested loops of `main` over the groups and their nodes. */
  method AggregateGroups(groups: seq<seq<Node>>, net: Network) returns (r: Aggregation)
    ensures r == AggregateSpec(groups, net)
  {
    var ledger := Empty;
    for gi := 0 to |groups|
      invariant AggNodes(Flatten(groups[..gi]), net) == Completed(ledger)
    {
      var group := groups[gi];
      ghost var done := Flatten(groups[..gi]);
      assert groups[..gi + 1][..gi] == groups[..gi];
      assert Flatten(groups[..gi + 1]) == done + group;
      assert done + group[..0] == done;
      for ni := 0 to |group|
        invariant AggNodes(done + group[..ni], net) == Completed(ledger)
      {
        PrefixStep(done, group, ni);
        AggNodesStep(done + group[..ni], group[ni], net);
        var step, _ := ProcessNode(group[ni], net, ledger);
        if step.Crashed? {
          CrashInGroup(groups, gi, ni, net);
          return step;
        }
        ledger := step.ledger;
      }
      assert group[..|group|] == group;
    }
    assert groups[..|groups|] == groups;
    r := Completed(ledger);
  }
}
