/**
 * The legacy synchronous tester (ws2p-test.py): every endpoint line of a peer
 * is split into tokens, WS2P lines with at least four tokens are turned into a
 * websocket URL and probed, and five module-level counters record the outcome.
 */
module Ws2pTest {
  import opened Text

  // ---------------------------------------------------------------------------
  // str.split() with no argument
  // ---------------------------------------------------------------------------

  /** The characters Python's `str.isspace` accepts, on which `str.split()` cuts. */
  predicate IsSpace(c: char)
  {
    || c == ' ' || c == '\t' || c == '\n' || c == '\r'
    || c == '\U{000B}' || c == '\U{000C}'
    || ('\U{001C}' <= c <= '\U{001F}')
    || c == '\U{0085}' || c == '\U{00A0}' || c == '\U{1680}'
    || ('\U{2000}' <= c <= '\U{200A}')
    || c == '\U{2028}' || c == '\U{2029}' || c == '\U{202F}' || c == '\U{205F}' || c == '\U{3000}'
  }

  /** A token produced by `str.split()`: non-empty and free of whitespace. */
  predicate IsToken(t: string)
  {
    t != [] && forall i :: 0 <= i < |t| ==> !IsSpace(t[i])
  }

  /** Length of the longest whitespace-free prefix of `s`. */
  function TokenLength(s: string): (n: nat)
    ensures n <= |s|
    ensures forall i :: 0 <= i < n ==> !IsSpace(s[i])
    ensures n < |s| ==> IsSpace(s[n])
  {
    if s == [] || IsSpace(s[0]) then 0 else 1 + TokenLength(s[1..])
  }

  /** `s.split()`: the maximal runs of non-whitespace characters, in order. */
  function Split(s: string): (r: seq<string>)
    ensures forall i :: 0 <= i < |r| ==> IsToken(r[i])
    decreases |s|
  {
    if s == [] then []
    else if IsSpace(s[0]) then Split(s[1..])
    else
      var n := TokenLength(s);
      [s[..n]] + Split(s[n..])
  }

  /** `' '.join(ts)`, used to state that `Split` recovers its tokens. */
  function Join(ts: seq<string>): string
  {
    if ts == [] then "" else if |ts| == 1 then ts[0] else ts[0] + " " + Join(ts[1..])
  }

  /** `Split` is blank-insensitive: a string splits into nothing iff it is all whitespace. */
  lemma {:induction false} SplitEmptyIff(s: string)
    ensures Split(s) == [] <==> forall i :: 0 <= i < |s| ==> IsSpace(s[i])
    decreases |s|
  {
    if s != [] && IsSpace(s[0]) {
      SplitEmptyIff(s[1..]);
      if forall i :: 0 <= i < |s[1..]| ==> IsSpace(s[1..][i]) {
        forall i | 0 <= i < |s| ensures IsSpace(s[i]) {
          if i > 0 { assert s[i] == s[1..][i - 1]; }
        }
      }
    }
  }

  lemma {:induction false} TokenLengthOfToken(t: string, rest: string)
    requires IsToken(t)
    requires rest == [] || IsSpace(rest[0])
    ensures TokenLength(t + rest) == |t|
    decreases |t|
  {
    var s := t + rest;
    if |t| > 1 {
      assert s[1..] == t[1..] + rest;
      TokenLengthOfToken(t[1..], rest);
    } else {
      assert s[1..] == rest;
    }
  }

  /** A token followed by a space is split off as the first token. */
  lemma SplitTokenSpace(t: string, rest: string)
    requires IsToken(t)
    ensures Split(t + " " + rest) == [t] + Split(rest)
  {
    var s := t + " " + rest;
    TokenLengthOfToken(t, " " + rest);
    assert s == t + (" " + rest);
    assert s[..|t|] == t;
    assert s[|t|..] == " " + rest;
    assert (" " + rest)[1..] == rest;
  }

  /** Splitting a single-space join of tokens gives the tokens back. */
  lemma {:induction false} SplitJoin(ts: seq<string>)
    requires forall i :: 0 <= i < |ts| ==> IsToken(ts[i])
    ensures Split(Join(ts)) == ts
    decreases |ts|
  {
    if |ts| == 1 {
      TokenLengthOfToken(ts[0], "");
      assert ts[0] + "" == ts[0];
      assert ts[0][|ts[0]|..] == [];
    } else if |ts| > 1 {
      SplitTokenSpace(ts[0], Join(ts[1..]));
      SplitJoin(ts[1..]);
      assert ts == [ts[0]] + ts[1..];
    }
  }

  // ---------------------------------------------------------------------------
  // Token and path parsing (the body of the `for ep in peer['endpoints']` loop)
  // ---------------------------------------------------------------------------

  /** What one split endpoint line amounts to. */
  datatype Line =
    | NotWs2p                                        // first token is not exactly WS2P
    | TooShort                                       // a WS2P line with fewer than four tokens
    | Target(host: string, port: string, path: string)

  /** A path that is not empty gets a leading `/` when it lacks one. */
  function NormalizePath(p: string): (r: string)
    ensures r == "" <==> p == ""
    ensures r == "" || r[0] == '/'
    ensures p != "" && p[0] == '/' ==> r == p
    ensures p != "" && p[0] != '/' ==> r == "/" + p
  {
    if p != "" && p[0] != '/' then "/" + p else p
  }

  lemma NormalizePathIdempotent(p: string)
    ensures NormalizePath(NormalizePath(p)) == NormalizePath(p)
  {
  }

  /** Classifies the tokens of one endpoint line; the caller has already indexed `ep[0]`. */
  function ParseTokens(ep: seq<string>): (r: Line)
    requires |ep| > 0
    ensures r.NotWs2p? <==> ep[0] != "WS2P"
    ensures r.TooShort? <==> ep[0] == "WS2P" && |ep| < 4
    ensures r.Target? ==> r.host == ep[2] && r.port == ep[3]
    ensures r.Target? && |ep| < 5 ==> r.path == ""
    ensures r.Target? && |ep| >= 5 ==> r.path == NormalizePath(ep[4])
  {
    if ep[0] != "WS2P" then NotWs2p
    else if |ep| < 4 then TooShort
    else Target(ep[2], ep[3], NormalizePath(if |ep| >= 5 then ep[4] else ""))
  }

  /** Splitting then parsing: what `test_end_points` does with one raw endpoint string. */
  function ParseLine(line: string): Line
    requires Split(line) != []
  {
    ParseTokens(Split(line))
  }

  /** A line that the loop hands to `test_ws2p`. */
  predicate Testable(line: string)
  {
    Split(line) != [] && ParseLine(line).Target?
  }

  // ---------------------------------------------------------------------------
  // URL construction (test_ws2p)
  // ---------------------------------------------------------------------------

  /** The scheme chosen from the port string in `test_ws2p`. */
  function Scheme(port: string): (r: string)
    ensures r == "wss://" <==> port == "443"
    ensures r == "ws://" <==> port != "443"
  {
    if port == "443" then "wss://" else "ws://"
  }

  /** `host` with one trailing slash removed, if there is one. */
  function TrimSlash(host: string): (r: string)
    ensures EndsWith(host, "/") ==> r + "/" == host
    ensures !EndsWith(host, "/") ==> r == host
  {
    if EndsWith(host, "/") then host[..|host| - 1] else host
  }

  /** The websocket URL that `test_ws2p` connects to. */
  function Ws2pUrl(host: string, port: string, path: string): string
  {
    Scheme(port) + TrimSlash(host) + ":" + port + path
  }

  /** The URL is secure exactly when the port string is "443". */
  lemma {:induction false} UrlSecureIff(host: string, port: string, path: string)
    ensures StartsWith(Ws2pUrl(host, port, path), "wss://") <==> port == "443"
    ensures StartsWith(Ws2pUrl(host, port, path), "ws://") <==> port != "443"
  {
    var sch, h := Scheme(port), TrimSlash(host);
    var u := Ws2pUrl(host, port, path);
    StartsWithConcat(sch, h);
    StartsWithExtend(sch + h, sch, ":");
    StartsWithExtend(sch + h + ":", sch, port);
    StartsWithExtend(sch + h + ":" + port, sch, path);
    if port == "443" {
      StartsWithMismatch(u, "wss://", "ws://", 2);
    } else {
      StartsWithMismatch(u, "ws://", "wss://", 2);
    }
  }

  /** The URL ends with the port and path, and at most one slash of the host is dropped. */
  lemma {:induction false} UrlTail(host: string, port: string, path: string)
    ensures EndsWith(Ws2pUrl(host, port, path), ":" + port + path)
    ensures StartsWith(host, TrimSlash(host)) && |host| - 1 <= |TrimSlash(host)| <= |host|
  {
    var url := Ws2pUrl(host, port, path);
    assert url == (Scheme(port) + TrimSlash(host)) + (":" + port + path);
    EndsWithConcat(Scheme(port) + TrimSlash(host), ":" + port + path);
    if EndsWith(host, "/") {
      StartsWithConcat(TrimSlash(host), "/");
    } else {
      assert host[..|host|] == host;
    }
  }

  /** The outcome of `websocket.create_connection` on a URL. */
  datatype Outcome = Ok | Timeout | BadStatus | InvalidValue

  /** How `test_ws2p` ends: it returns a boolean or raises the connection's error. */
  datatype Ws2pReply = Returned(value: bool) | Raised(error: Outcome)

  /**
   * test_ws2p: builds the URL by successive reassignments and connects to it;
   * `connect` stands for the connection attempt.
   */
  method TestWs2p(host: string, port: string, path: string, connect: string -> Outcome)
    returns (r: Ws2pReply, url: string)
    ensures url == Ws2pUrl(host, port, path)
    ensures r.Returned? <==> connect(url) == Ok
    ensures r.Returned? ==> r.value
    ensures r.Raised? ==> r.error == connect(url)
  {
    var h := host;
    if |h| > 0 && h[|h| - 1] == '/' {
      h := h[..|h| - 1];
    }
    if port == "443" {
      url := "wss://";
    } else {
      url := "ws://";
    }
    assert !EndsWith(host, "/") ==> h == host;
    url := url + h + ":" + port + path;
    var outcome := connect(url);
    if outcome != Ok {
      return Raised(outcome), url;
    }
    r := Returned(true);
  }

  // ---------------------------------------------------------------------------
  // Counters (the module-level statistics)
  // ---------------------------------------------------------------------------

  /** Values of end_points_tested, _ok, _timeout, _bad_status and _https_invalid. */
  datatype Tally = Tally(tested: nat, ok: nat, timeout: nat, badStatus: nat, httpsInvalid: nat)

  /** Every tested endpoint is accounted for by exactly one outcome counter. */
  predicate Balanced(t: Tally)
  {
    t.ok + t.timeout + t.badStatus + t.httpsInvalid == t.tested
  }

  /** One tested endpoint: `tested` and exactly the counter of its outcome go up by one. */
  function Bump(t: Tally, o: Outcome): (r: Tally)
    ensures r.tested == t.tested + 1
    ensures r.ok == t.ok + (if o == Ok then 1 else 0)
    ensures r.timeout == t.timeout + (if o == Timeout then 1 else 0)
    ensures r.badStatus == t.badStatus + (if o == BadStatus then 1 else 0)
    ensures r.httpsInvalid == t.httpsInvalid + (if o == InvalidValue then 1 else 0)
    ensures Balanced(t) <==> Balanced(r)
  {
    match o
    case Ok => t.(tested := t.tested + 1, ok := t.ok + 1)
    case Timeout => t.(tested := t.tested + 1, timeout := t.timeout + 1)
    case BadStatus => t.(tested := t.tested + 1, badStatus := t.badStatus + 1)
    case InvalidValue => t.(tested := t.tested + 1, httpsInvalid := t.httpsInvalid + 1)
  }

  /** The counters after one endpoint line. */
  function TallyLine(t: Tally, line: string, connect: string -> Outcome): (r: Tally)
    requires Split(line) != []
    ensures !Testable(line) ==> r == t
    ensures Testable(line) ==> r.tested == t.tested + 1
  {
    match ParseLine(line)
    case Target(host, port, path) => Bump(t, connect(Ws2pUrl(host, port, path)))
    case _ => t
  }

  predicate NonBlank(lines: seq<string>)
  {
    forall i :: 0 <= i < |lines| ==> Split(lines[i]) != []
  }

  /** The counters after the lines, processed first to last. */
  function TallyAll(t: Tally, lines: seq<string>, connect: string -> Outcome): Tally
    requires NonBlank(lines)
  {
    if lines == [] then t
    else TallyLine(TallyAll(t, lines[..|lines| - 1], connect), lines[|lines| - 1], connect)
  }

  /** Number of lines that reach `test_ws2p`. */
  function CountTestable(lines: seq<string>): nat
  {
    if lines == [] then 0
    else CountTestable(lines[..|lines| - 1]) + (if Testable(lines[|lines| - 1]) then 1 else 0)
  }

  /** Counter conservation: the tally stays balanced over any sequence of lines. */
  lemma {:induction false} TallyAllBalanced(t: Tally, lines: seq<string>, connect: string -> Outcome)
    requires NonBlank(lines)
    requires Balanced(t)
    ensures Balanced(TallyAll(t, lines, connect))
  {
    if lines != [] {
      TallyAllBalanced(t, lines[..|lines| - 1], connect);
    }
  }

  /** `tested` grows by exactly the number of testable lines. */
  lemma {:induction false} TallyAllTested(t: Tally, lines: seq<string>, connect: string -> Outcome)
    requires NonBlank(lines)
    ensures TallyAll(t, lines, connect).tested == t.tested + CountTestable(lines)
  {
    if lines != [] {
      TallyAllTested(t, lines[..|lines| - 1], connect);
    }
  }

  /** Lines that are not testable (not WS2P, or too short) leave every counter alone. */
  lemma {:induction false} TallyAllSkipsUntestable(t: Tally, lines: seq<string>, connect: string -> Outcome)
    requires NonBlank(lines)
    requires forall i :: 0 <= i < |lines| ==> !Testable(lines[i])
    ensures TallyAll(t, lines, connect) == t
  {
    if lines != [] {
      TallyAllSkipsUntestable(t, lines[..|lines| - 1], connect);
    }
  }

  /** The tokens of the line the loop's comment names. */
  const ShortLineTokens: seq<string> := ["WS2P", "77.152.31.154", "20910"]

  lemma ShortLineTokensAreTokens()
    ensures forall i :: 0 <= i < |ShortLineTokens| ==> IsToken(ShortLineTokens[i])
  {
    assert IsToken("WS2P");
    assert IsToken("77.152.31.154");
    assert IsToken("20910");
  }

  lemma ShortLineJoin()
    ensures Join(ShortLineTokens) == "WS2P 77.152.31.154 20910"
  {
    var ts := ShortLineTokens;
    assert ts[1..] == ["77.152.31.154", "20910"];
    assert ts[1..][1..] == ["20910"];
  }

  /** The endpoint the loop's comment names: a WS2P line with only three tokens. */
  lemma ThreeTokenLineIsSkipped()
    ensures Split("WS2P 77.152.31.154 20910") != []
    ensures ParseLine("WS2P 77.152.31.154 20910") == TooShort
  {
    ShortLineTokensAreTokens();
    ShortLineJoin();
    SplitJoin(ShortLineTokens);
  }

  /** The module-level statistics of the script, updated in place. */
  class Stats {
    var tested: nat
    var ok: nat
    var timeout: nat
    var badStatus: nat
    var httpsInvalid: nat

    function Counters(): Tally
      reads this
    {
      Tally(tested, ok, timeout, badStatus, httpsInvalid)
    }

    constructor ()
      ensures Counters() == Tally(0, 0, 0, 0, 0) && Balanced(Counters())
    {
      tested, ok, timeout, badStatus, httpsInvalid := 0, 0, 0, 0, 0;
    }

    /**
     * The body of `for ep in peer['endpoints']` for one endpoint string; the
     * `continue` of a too-short line is the early `return`.
     */
    method TestEndPoint(line: string, connect: string -> Outcome)
      requires Split(line) != []
      modifies this
      ensures Counters() == TallyLine(old(Counters()), line, connect)
    {
      var ep := Split(line);
      var protocol := ep[0];
      if protocol == "WS2P" {
        if |ep| < 4 {
          return;
        }
        var host := ep[2];
        var port := ep[3];
        var path := "";
        if |ep| >= 5 {
          path := ep[4];
        }
        if path != "" && path[0] != '/' {
          path := "/" + path;
        }
        assert ParseLine(line) == Target(host, port, path);
        tested := tested + 1;
        var reply, url := TestWs2p(host, port, path, connect);
        match reply {
          case Returned(b) =>
            if b {
              ok := ok + 1;
            }
          case Raised(Timeout) => timeout := timeout + 1;
          case Raised(BadStatus) => badStatus := badStatus + 1;
          case Raised(InvalidValue) => httpsInvalid := httpsInvalid + 1;
          case Raised(Ok) => assert false;
        }
      }
    }

    /**
     * test_end_points over one peer's endpoint strings. Every string must have
     * a first token, since the source indexes `ep[0]` unguarded.
     */
    method TestEndPoints(endpoints: seq<string>, connect: string -> Outcome) returns (r: bool)
      requires NonBlank(endpoints)
      modifies this
      ensures !r
      ensures Counters() == TallyAll(old(Counters()), endpoints, connect)
      ensures Balanced(old(Counters())) ==> Balanced(Counters())
    {
      ghost var start := Counters();
      for i := 0 to |endpoints|
        invariant Counters() == TallyAll(start, endpoints[..i], connect)
      {
        assert endpoints[..i + 1][..i] == endpoints[..i];
        TestEndPoint(endpoints[i], connect);
      }
      assert endpoints[..|endpoints|] == endpoints;
      if Balanced(start) {
        TallyAllBalanced(start, endpoints, connect);
      }
      r := false;
    }
  }
}
