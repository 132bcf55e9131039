# WS2P endpoint checker — a Dafny model

This project models the deterministic core of a health checker for Duniter
nodes. Duniter is a peer-to-peer currency network. The checker has two scripts:

- `ws2p-test.py`, the older synchronous tester. It splits each endpoint string
  of a peer into tokens. It keeps the lines whose first token is exactly `WS2P`
  and that have at least four tokens. It builds a `ws://` or `wss://` URL from
  host, port and path, probes that URL, and counts the outcome in five
  module-level counters.
- `duniter_ep_check.py`, the asynchronous checker. For every node found in
  discovery it scans the node's endpoints for BMA ones (`BMAS …` or
  `BASIC_MERKLED_API …`). BMA is the node's directory API. Through each BMA
  endpoint in turn it fetches the node's peering document and parses its WS2P
  endpoints. A handled failure is recorded and the scan goes on to the next
  endpoint. The first BMA endpoint that resolves has every WS2P endpoint
  probed with a websocket connection and a WS2P handshake, and then the scan
  stops. Failures are collected per pubkey in a `defaultdict(list)`, the error
  ledger. The report prints each pubkey with a name looked up for it, or
  `unknown`.

Everything that touches the network is a parameter returning an outcome:
connections, handshakes, peering requests, node discovery and profile lookup.
So are the foreign `WS2PEndpoint.from_inline`, `inline` and `str` of a
client's endpoint. Python exceptions are tags (`PyExc.Exc`). The `except`
clauses are tried in the order the code writes them, with the subclass
relations that matter stated explicitly. An exception that no handler takes
propagates. The model keeps that path too (`Escaped`, `Crashed`, `RunRaised`):
the client is not closed and `main` stops. A profile lookup in the report loop
that raises anything but a ValueError (a connector error when the profile host
is down, say) also ends `main`, after the blocks printed so far
(`ReportRaised`).

Modules: `Text` (prefix tests), `Options`, `PyExc` (exception classes),
`Clients` (a client object counting its `close` calls), `Ws2pTest`
(ws2p-test.py), `Probe` (`test_ws2p_ws`), `Resolver` (`get_ws2p_endpoints`),
`Ledger` (`error_nodes`), `Aggregate` (the loops of `main`), and `Report` (the
report loop and `main` as a whole).

Behaviour of the code worth stating:

- A WS2P line needs four tokens.
- A missing path is `''`, the same as an empty one.
- The `break` in the node loop sits in the `else` branch of the resolution
  `try`. So a node whose first BMA endpoint fails with a handled error is
  resolved again through its next BMA endpoint, and gets one entry per
  failed BMA endpoint.
- Probes run strictly one after the other, with no bound on how many there are.
- Exceptions the handlers do not name are not classified. They abort the run.
- `get_ws2p_endpoints` hands every line starting with `WS2P` to `from_inline`,
  including a short line such as `WS2P 20910`. Such a line is not silently
  dropped. If `from_inline` rejects it, the peering document of that BMA
  endpoint fails to resolve, and the node gets one `Malformed WS2P endpoint`
  entry for that BMA endpoint.
- The client of `get_ws2p_endpoints` is not released on every path. See
  Findings.

## Model

| member | source | states |
|---|---|---|
| Ws2pTest.Split | ws2p-test.py:50 | every token `str.split()` yields is non-empty and free of Python whitespace |
| Ws2pTest.TokenLength | ws2p-test.py:50 | a token ends at the first whitespace character or at the end of the string |
| Ws2pTest.SplitEmptyIff | ws2p-test.py:50-51 | a line splits into no tokens (so `ep[0]` would fail) exactly when it is all whitespace |
| Ws2pTest.SplitJoin | ws2p-test.py:50 | splitting a single-space join of tokens gives back exactly those tokens |
| Ws2pTest.NormalizePath | ws2p-test.py:63-64 | the normalised path is `''` or starts with `/`; a path starting with `/` is unchanged; any other non-empty path gets `/` prepended |
| Ws2pTest.NormalizePathIdempotent | ws2p-test.py:63-64 | normalising twice is normalising once |
| Ws2pTest.ParseTokens | ws2p-test.py:51-64 | skipped iff the first token is not exactly `WS2P`; too short iff `WS2P` with fewer than 4 tokens; otherwise host is token 3, port token 4, and path is the normalised 5th token or `''` |
| Ws2pTest.ParseLine | ws2p-test.py:50-64 | one raw endpoint string split and then classified as `ParseTokens` says; a blank string is outside its domain, as `ep[0]` fails on it |
| Ws2pTest.ThreeTokenLineIsSkipped | ws2p-test.py:50-57 | the endpoint string `WS2P 77.152.31.154 20910` splits into three tokens and is rejected as too short |
| Ws2pTest.Scheme | ws2p-test.py:32-35 | the scheme is `wss://` exactly when the port string is `"443"`, else `ws://` |
| Ws2pTest.TrimSlash | ws2p-test.py:29-30 | exactly one trailing `/` is removed from the host when it has one; otherwise the host is unchanged |
| Ws2pTest.Ws2pUrl | ws2p-test.py:29-36 | the URL `test_ws2p` connects to: scheme, host without its trailing `/`, `:`, port, path; its prefix and suffix are characterised by `UrlSecureIff` and `UrlTail` |
| Ws2pTest.UrlSecureIff | ws2p-test.py:29-36 | the URL starts with `wss://` iff the port is `"443"`, and with `ws://` iff it is not |
| Ws2pTest.UrlTail | ws2p-test.py:29-36 | the URL ends with `:` + port + path; the host part is a prefix of the host at most one character shorter |
| Ws2pTest.TestWs2p | ws2p-test.py:27-43 | builds the URL scheme + trimmed host + `:` + port + path; returns normally iff the connection succeeds, and then returns `True`; otherwise raises the connection's error |
| Ws2pTest.Bump | ws2p-test.py:66-78 | one tested endpoint increments `tested` and exactly the counter of its outcome, and keeps the sum of the outcome counters equal to `tested` |
| Ws2pTest.TallyLine | ws2p-test.py:49-78 | a line that is not a testable WS2P line changes no counter; a testable one increments `tested` by one |
| Ws2pTest.TallyAll | ws2p-test.py:49-78 | the counters after the `for ep` loop: `TallyLine` applied to each line in order; its balance, growth and skipping are the three lemmas below |
| Ws2pTest.TallyAllBalanced | ws2p-test.py:66-78 | ok + timeout + bad_status + https_invalid = tested is preserved over any sequence of lines |
| Ws2pTest.TallyAllTested | ws2p-test.py:49-67 | `tested` grows by exactly the number of testable lines |
| Ws2pTest.TallyAllSkipsUntestable | ws2p-test.py:49-57 | lines that are all non-WS2P or too short leave every counter unchanged |
| Ws2pTest.Stats.constructor | ws2p-test.py:13-18 | all five counters start at zero, which is balanced |
| Ws2pTest.Stats.TestEndPoint | ws2p-test.py:50-78 | one endpoint string moves the counters exactly as `TallyLine` says |
| Ws2pTest.Stats.TestEndPoints | ws2p-test.py:46-80 | the counters after the loop are the tally of the lines from the old counters; balance is preserved; the result is always `False` |
| Probe.ProbeSpec | duniter_ep_check.py:34-73 | `(True, 'handshake ok !')` iff connect and handshake both succeed; every handled failure gives `False`; an exception escapes iff no clause catches it, and it is the one raised |
| Probe.ProbeTimeout | duniter_ep_check.py:62-65 | a timeout before or during the handshake gives `False` with the exception text followed by ` : ` and the endpoint |
| Probe.ProbeRejected | duniter_ep_check.py:58-61 | a refused websocket upgrade gives `False` with the `Websocket handshake <class> : <text>` diagnostic |
| Probe.TestWs2pWs | duniter_ep_check.py:34-73 | returns what `ProbeSpec` gives; closes the client exactly once when it returns, and not at all when an exception escapes |
| Clients.Client.Close | duniter_ep_check.py:71 | `await client.close()` adds exactly one to the client's close count |
| Resolver.Ws2pLines | duniter_ep_check.py:88-90 | the kept lines are exactly the peering endpoints starting with `WS2P` |
| Resolver.Ws2pLinesConcat | duniter_ep_check.py:88-90 | filtering distributes over concatenation, so the original order is kept |
| Resolver.ParseWs2p | duniter_ep_check.py:88-90 | the WS2P endpoints appended in line order, or the first exception `from_inline` raises; characterised by `ParseWs2pMeaning` |
| Resolver.ParseWs2pMeaning | duniter_ep_check.py:88-90 | on success the result is, in order, `from_inline` of each WS2P line; otherwise the exception is that of the first WS2P line `from_inline` rejects |
| Resolver.ParseWs2pRaisedPrefix | duniter_ep_check.py:88-90 | once a prefix of the lines raises, the whole loop raises the same exception |
| Resolver.FetchSpec | duniter_ep_check.py:82-94 | what `get_ws2p_endpoints` returns or raises: the peering request's own exception, else `ParseWs2p` of its endpoint lines |
| Resolver.GetWs2pEndpointsAsWritten | duniter_ep_check.py:76-94 | returns or raises as `FetchSpec` says, re-raising a peering failure unchanged; the client is closed once, except when `from_inline` raises, when it is never closed |
| Resolver.MalformedLineLeavesClientOpen | duniter_ep_check.py:88-92 | a peering document with one WS2P line that `from_inline` rejects ends with the client never closed |
| Resolver.GetWs2pEndpoints | duniter_ep_check.py:76-94 | the same list or exception, with the client closed exactly once on every path |
| Ledger.Add | duniter_ep_check.py:136 | `append` adds the entry at the end of the pubkey's list and changes no other list; a new key goes to the end of the key order; well-formedness is kept |
| Ledger.AddAll | duniter_ep_check.py:147-152 | appending entries one by one extends only the pubkey's list, by exactly those entries in order; the key is inserted only when new and something is appended |
| Aggregate.BmaLines | duniter_ep_check.py:129-130 | a string is kept exactly when it is one of the node's endpoints and starts with `BMAS` or `BASIC_MERKLED_API`; order is kept (`BmaLinesConcat`) |
| Aggregate.BmaLinesConcat | duniter_ep_check.py:129-130 | the BMA filter distributes over concatenation, so the BMA endpoints stay in the node's order |
| Aggregate.NodeWithoutBma | duniter_ep_check.py:129-130 | a node with no BMA endpoint adds no entries and triggers no probes |
| Aggregate.NodeScan | duniter_ep_check.py:129-153 | one node's endpoint loop: non-BMA lines are passed over, a handled resolution failure adds its entry and the scan goes on, an unhandled one escapes, a resolved endpoint has its WS2P endpoints probed (`ProbeAll`) and ends the scan; characterised by the four lemmas below |
| Aggregate.NodeStopsAtResolution | duniter_ep_check.py:129-153 | once a BMA endpoint resolves, or raises an exception no handler takes, the endpoints after it never influence the node's outcome |
| Aggregate.NodeScanStops | duniter_ep_check.py:129-153 | when every BMA endpoint before it failed with a handled error, the stopping endpoint's run follows their entries; nothing escapes and nothing is probed before it |
| Aggregate.NodeResolutionShape | duniter_ep_check.py:132-145 | when every BMA endpoint fails with a handled error, nothing escapes, nothing is probed, and there are as many entries as BMA endpoints |
| Aggregate.NodeResolutionFailure | duniter_ep_check.py:129-145 | when every BMA endpoint fails with a handled error, the entries are one `(BMA endpoint, message)` per BMA endpoint, in their order, and nothing is probed |
| Aggregate.RecordResolutionFailure | duniter_ep_check.py:134-145 | timeout/connector, malformed and value errors each add one entry with their own message prefix; any other exception aborts |
| Aggregate.ProbeOne | duniter_ep_check.py:148-149 | the reply of `test_ws2p_ws` for one resolved endpoint: `ProbeSpec` of its connection, handshake and display string |
| Aggregate.ProbeAll | duniter_ep_check.py:147-152 | the inner `for`: each resolved endpoint probed in order, a failed probe adding `(inline(), diagnostic)`, an escaping exception ending the loop; characterised by `ProbeAllMeaning` |
| Aggregate.FailedEntries | duniter_ep_check.py:150-152 | the reference list of entries: one `(inline(), diagnostic)` per probe that returns `False`, in probe order |
| Aggregate.ProbeAllConcat | duniter_ep_check.py:147-152 | probing a concatenation yields the entries and probes of the parts, in order |
| Aggregate.ProbeAllMeaning | duniter_ep_check.py:147-152 | nothing escapes iff every probe returns; then every resolved endpoint is probed, and the entries are exactly one `(inline(), diagnostic)` per failed probe, in probe order (`FailedEntries`) |
| Aggregate.ProbeAllReachable | duniter_ep_check.py:147-152 | when every probe succeeds, no entry is added and every endpoint is probed |
| Aggregate.ProbeAllEscapedPrefix | duniter_ep_check.py:147-149 | after an escaping exception no later endpoint is probed |
| Aggregate.ProbeEndpoint | duniter_ep_check.py:148-149 | probing one resolved endpoint on a fresh client gives what `ProbeSpec` says for that endpoint's connection, handshake and display string |
| Aggregate.ProbeEndpoints | duniter_ep_check.py:146-152 | the probe loop yields the ledger with the failed probes appended under the pubkey, and the endpoints probed |
| Aggregate.ProcessNode | duniter_ep_check.py:127-153 | one node's iteration gives the ledger and the probes of the endpoint scan: handled resolution failures are recorded and the scan continues; the first successful resolution is probed and ends it |
| Aggregate.AggNodes | duniter_ep_check.py:124-153 | the node loop over the flattened groups from an empty `defaultdict`: each node's scan applied in turn, the first escaping exception aborting; characterised by `AggNodesMeaning` |
| Aggregate.AggregateSpec | duniter_ep_check.py:121-153 | the two nested loops over groups and nodes, as `AggNodes` over the nodes in visiting order |
| Aggregate.AggregateGroups | duniter_ep_check.py:121-153 | the nested loops give the ledger, or the exception, of the node-by-node specification |
| Aggregate.AggNodesMeaning | duniter_ep_check.py:121-153 | the ledger is well formed, and each pubkey's list holds the entries of all nodes with that pubkey, in visiting order, across groups |
| Aggregate.AggNodesKeys | duniter_ep_check.py:121-153 | a pubkey is a ledger key iff some entry was recorded for it |
| Aggregate.AggNodesCrashedPrefix | duniter_ep_check.py:124-153 | an exception escaping at a node aborts the whole loop with that exception |
| Aggregate.AggNodesNoFailures | duniter_ep_check.py:124-153 | a run in which no node records or escapes ends with an empty ledger |
| Report.StripLeftMeaning | duniter_ep_check.py:161 | left stripping removes exactly the leading spaces and newlines |
| Report.StripRightMeaning | duniter_ep_check.py:161 | right stripping removes exactly the trailing spaces and newlines |
| Report.StripMeaning | duniter_ep_check.py:161 | the lookup key is a contiguous part of the pubkey with only spaces and newlines cut off, and neither starts nor ends with one |
| Report.StripIdempotent | duniter_ep_check.py:161 | stripping twice is stripping once |
| Report.StripLeft | duniter_ep_check.py:161 | the string without its leading spaces and newlines (`StripLeftMeaning`) |
| Report.StripRight | duniter_ep_check.py:161 | the string without its trailing spaces and newlines (`StripRightMeaning`) |
| Report.Strip | duniter_ep_check.py:161 | `strip(" \n")`: both sides stripped (`StripMeaning`) |
| Report.NameOf | duniter_ep_check.py:160-164 | the profile title when the lookup succeeds, `unknown` on a ValueError; any other exception escapes unchanged |
| Report.DisplayName | duniter_ep_check.py:160-164 | the name printed for a pubkey: `NameOf` the lookup of the stripped pubkey |
| Report.ReportKeys | duniter_ep_check.py:158-167 | the report loop over the given keys: one block per key until a lookup escapes; characterised by `ReportKeysMeaning` |
| Report.ReportSpec | duniter_ep_check.py:158-167 | the report loop over `error_nodes.items()`, in the ledger's insertion order |
| Report.ReportKeysMeaning | duniter_ep_check.py:158-167 | one block per ledger key in insertion order, with the name looked up under the stripped key and the key's full list; the loop stops at the first lookup that raises something other than ValueError |
| Report.ReportKeysPrefixRaised | duniter_ep_check.py:158-164 | once a lookup escapes, no later block is printed |
| Report.ReportBlocksNonEmpty | duniter_ep_check.py:158-167 | every printed block of a well-formed ledger lists at least one failure |
| Report.PrintReport | duniter_ep_check.py:158-167 | the report loop gives the printout of the specification |
| Report.RunSpec | duniter_ep_check.py:109-169 | `exit(1)` exactly when discovery raises a handled error; `main` raises exactly when discovery raises anything else or the aggregation loop escapes, with that exception; once the aggregation completes, the report either completes or ends `main` with the exception of the first lookup that escapes |
| Report.RunReportsLedger | duniter_ep_check.py:121-167 | after a completed aggregation, the blocks printed, all of them or those before an escaping lookup, are the report of the well-formed ledger the loop built, key by key |
| Report.Run | duniter_ep_check.py:97-169 | `main` ends as the specification says |

## Left out

- Network and process I/O are left out. These are `requests.get`, `websocket.create_connection` with its SSL options, the aiohttp/duniterpy `Client` calls, `network.get_available_nodes`, `bma.network.peering` and the profile request. Each is an outcome parameter.
- Foreign duniterpy code is left out: `handshake`, `SigningKey.from_credentials` (crypto), and `WS2PEndpoint.from_inline`, `inline` and `str`. They are caller-supplied functions. `inline` is assumed never to raise.
- `print`, logging, `coloredlogs` and `datetime.now()` are left out. The report is a sequence of blocks (name, pubkey, entries), not formatted text.
- ws2p-test.py `get_peers` and `main` (lines 21-24, 83-97) are left out. They only fetch peers over HTTP and print the counters.
- `ws.recv()` and `ws.close()` in `test_ws2p` are left out. One outcome stands for the whole connection attempt.
- Exceptions other than the four caught in `test_end_points` are not modelled. They would propagate and end the script.
- Ws2pTest.Stats.TestEndPoints: requires every endpoint string to have a token. The code indexes `ep[0]` unguarded, so a blank string crashes it. That crash is not modelled.
- The `close` calls on the discovery client and the profile client (lines 115, 118, 169) are left out. So is the process effect of `exit(1)`, which is the outcome `Exited(1)`.
- Resolver.GetWs2pEndpoints: an exception from constructing `Client(bma_endpoint)` itself (line 81) is treated as a failed peering request. So the model counts a close on a client that the code never created.
- Resolver.GetWs2pEndpointsAsWritten: the same simplification of line 81 as `GetWs2pEndpoints`; it counts one close on a client the code never created.
- `TimeoutError` and `asyncio.TimeoutError` are one class, as in Python 3.11 and later. In earlier versions an asyncio timeout in `test_ws2p_ws` would not be caught at line 62.
- No worker pool or concurrency bound is modelled. Every await in the code is sequential.
- Every network outcome is a function of its argument (`Network.peering`, `connect`, `handshake`, the profile `lookup`). So a BMA endpoint listed twice, or a WS2P endpoint reached through two nodes in different groups, gets the same outcome each time, while the code asks the network again and can get a different answer. No proved property depends on this.

## Findings

| source | as written | input that shows it | evidently intended | confidence | as-written member | corrected member |
|---|---|---|---|---|---|---|
| duniter_ep_check.py:88-92 | when `WS2PEndpoint.from_inline` raises inside the loop, the function leaves before `await bma_client.close()`; only the peering request is inside the `try` | a peering document whose endpoints are `["WS2P 1234abcd"]`, with `from_inline` raising MalformedDocumentError, which `main` catches at line 138 and carries on (exhibited by `Resolver.MalformedLineLeavesClientOpen`) | the client is closed on every exit path, as it is when the peering request fails | not executed; the leak follows from the control flow alone | Resolver.GetWs2pEndpointsAsWritten | Resolver.GetWs2pEndpoints |
