/**
 * The end of `main` (duniter_ep_check.py): node discovery, the aggregation
 * loop, then one report block per pubkey of the ledger, in insertion order,
 * headed by the profile title found for the pubkey or by "unknown".
 */
module Report {
  import opened PyExc
  import opened Options
  import opened Ledger
  import opened Aggregate

  // ---------------------------------------------------------------------------
  // pubkey.strip(" \n")
  // ---------------------------------------------------------------------------

  predicate IsStripChar(c: char)
  {
    c == ' ' || c == '\n'
  }

  /** `s` without its leading spaces and newlines. */
  function StripLeft(s: string): string
  {
    if s != [] && IsStripChar(s[0]) then StripLeft(s[1..]) else s
  }

  /** `s` without its trailing spaces and newlines. */
  function StripRight(s: string): string
  {
    if s != [] && IsStripChar(s[|s| - 1]) then StripRight(s[..|s| - 1]) else s
  }

  /** `s.strip(" \n")` */
  function Strip(s: string): string
  {
    StripRight(StripLeft(s))
  }

  /** StripLeft removes exactly the leading run of spaces and newlines. */
  lemma {:induction false} StripLeftMeaning(s: string)
    ensures var r := StripLeft(s);
      && |r| <= |s| && r == s[|s| - |r|..]
      && (forall i :: 0 <= i < |s| - |r| ==> IsStripChar(s[i]))
      && (r == [] || !IsStripChar(r[0]))
  {
    if s != [] && IsStripChar(s[0]) {
      StripLeftMeaning(s[1..]);
      var r := StripLeft(s[1..]);
      assert s[1..][|s| - 1 - |r|..] == s[|s| - |r|..];
      forall i | 0 <= i < |s| - |r| ensures IsStripChar(s[i]) {
        if i > 0 { assert s[i] == s[1..][i - 1]; }
      }
    } else {
      assert s[0..] == s;
    }
  }

  /** StripRight removes exactly the trailing run of spaces and newlines. */
  lemma {:induction false} StripRightMeaning(s: string)
    ensures var r := StripRight(s);
      && |r| <= |s| && r == s[..|r|]
      && (forall i :: |r| <= i < |s| ==> IsStripChar(s[i]))
      && (r == [] || !IsStripChar(r[|r| - 1]))
  {
    if s != [] && IsStripChar(s[|s| - 1]) {
      var s' := s[..|s| - 1];
      StripRightMeaning(s');
      var r := StripRight(s');
      assert s'[..|r|] == s[..|r|];
      forall i | |r| <= i < |s| ensures IsStripChar(s[i]) {
        if i < |s| - 1 { assert s[i] == s'[i]; }
      }
    } else {
      assert s[..|s|] == s;
    }
  }

  /**
   * The lookup key is the pubkey with its surrounding spaces and newlines
   * removed: a contiguous part of it, with only such characters cut off on
   * either side, that neither starts nor ends with one.
   */
  lemma {:induction false} StripMeaning(s: string)
    ensures var t, i := Strip(s), |s| - |StripLeft(s)|;
      && 0 <= i <= |s| - |t| && t == s[i..i + |t|]
      && (forall k :: 0 <= k < i ==> IsStripChar(s[k]))
      && (forall k :: i + |t| <= k < |s| ==> IsStripChar(s[k]))
      && (t == [] || (!IsStripChar(t[0]) && !IsStripChar(t[|t| - 1])))
  {
    var l := StripLeft(s);
    var t := StripRight(l);
    StripLeftMeaning(s);
    StripRightMeaning(l);
    var i := |s| - |l|;
    SliceOfSuffix(s, i, |t|);
    forall k | i + |t| <= k < |s| ensures IsStripChar(s[k]) {
      assert s[k] == l[k - i];
    }
    if t != [] {
      assert t[0] == l[0];
    }
  }

  lemma SliceOfSuffix(s: string, i: nat, n: nat)
    requires i + n <= |s|
    ensures s[i..][..n] == s[i..i + n]
  {
  }

  /** Stripping twice is stripping once. */
  lemma StripIdempotent(s: string)
    ensures Strip(Strip(s)) == Strip(s)
  {
    var t := Strip(s);
    StripMeaning(s);
    if t != [] {
      assert StripLeft(t) == t;
      assert StripRight(t) == t;
    }
  }

  // ---------------------------------------------------------------------------
  // Name lookup and the report loop
  // ---------------------------------------------------------------------------

  /** Outcome of `client_es.get("user/profile/<key>/_source")['title']`. */
  datatype Lookup = Profile(title: string) | LookupRaised(exc: Exc)

  const Unknown: string := "unknown"

  /** The name printed for a pubkey, or the exception that ends the report. */
  datatype Name = Named(name: string) | NameRaised(exc: Exc)

  /** The `try` around the lookup: a title, "unknown" for a ValueError, any other exception escapes. */
  function NameOf(res: Lookup): (r: Name)
    ensures res.Profile? ==> r == Named(res.title)
    ensures res.LookupRaised? && res.exc.cls == ValueError ==> r == Named(Unknown)
    ensures r.NameRaised? <==> res.LookupRaised? && res.exc.cls != ValueError
    ensures r.NameRaised? ==> r.exc == res.exc
  {
    match res
    case Profile(title) => Named(title)
    case LookupRaised(e) => if e.cls == ValueError then Named(Unknown) else NameRaised(e)
  }

  /** The name for a pubkey, looked up under the stripped pubkey. */
  function DisplayName(pubkey: string, lookup: string -> Lookup): Name
  {
    NameOf(lookup(Strip(pubkey)))
  }

  /** One printed block: name, pubkey, and the pubkey's `(endpoint, diagnostic)` lines. */
  datatype Block = Block(name: string, pubkey: string, entries: seq<Entry>)

  /** The blocks printed, and the exception that stopped the loop early, if any. */
  datatype Printout = Printout(blocks: seq<Block>, raised: Option<Exc>)

  /** The report loop over the given keys, in order. */
  function ReportKeys(l: Ledger, keys: seq<string>, lookup: string -> Lookup): Printout
  {
    if keys == [] then Printout([], None)
    else
      var p := ReportKeys(l, keys[..|keys| - 1], lookup);
      var pk := keys[|keys| - 1];
      if p.raised.Some? then p
      else match DisplayName(pk, lookup)
           case NameRaised(e) => Printout(p.blocks, Some(e))
           case Named(n) => Printout(p.blocks + [Block(n, pk, Get(l, pk))], None)
  }

  function ReportSpec(l: Ledger, lookup: string -> Lookup): Printout
  {
    ReportKeys(l, l.order, lookup)
  }

  /**
   * The report has one block per key, in the ledger's insertion order, with
   * that key's full list; it stops at the first key whose lookup raises
   * anything but a ValueError, having printed the blocks before it.
   */
  lemma {:induction false} ReportKeysMeaning(l: Ledger, keys: seq<string>, lookup: string -> Lookup)
    ensures var p := ReportKeys(l, keys, lookup);
      && |p.blocks| <= |keys|
      && (forall i :: 0 <= i < |p.blocks| ==>
            && DisplayName(keys[i], lookup) == Named(p.blocks[i].name)
            && p.blocks[i].pubkey == keys[i]
            && p.blocks[i].entries == Get(l, keys[i]))
      && (p.raised.None? <==> forall i :: 0 <= i < |keys| ==> DisplayName(keys[i], lookup).Named?)
      && (p.raised.None? ==> |p.blocks| == |keys|)
      && (p.raised.Some? ==> |p.blocks| < |keys| && DisplayName(keys[|p.blocks|], lookup) == NameRaised(p.raised.value))
  {
    if keys != [] {
      var pre := keys[..|keys| - 1];
      ReportKeysMeaning(l, pre, lookup);
      assert forall i :: 0 <= i < |pre| ==> pre[i] == keys[i];
      var p := ReportKeys(l, pre, lookup);
      if p.raised.Some? {
        assert !DisplayName(keys[|p.blocks|], lookup).Named?;
      }
    }
  }

  /** Every block of a well formed ledger lists at least one failure. */
  lemma ReportBlocksNonEmpty(l: Ledger, lookup: string -> Lookup)
    requires Valid(l)
    ensures forall b :: b in ReportSpec(l, lookup).blocks ==> b.entries != []
  {
    ReportKeysMeaning(l, l.order, lookup);
  }

  /** The report loop over `error_nodes.items()`. */
  method PrintReport(l: Ledger, lookup: string -> Lookup) returns (r: Printout)
    ensures r == ReportSpec(l, lookup)
  {
    var blocks: seq<Block> := [];
    for i := 0 to |l.order|
      invariant ReportKeys(l, l.order[..i], lookup) == Printout(blocks, None)
    {
      assert l.order[..i + 1][..i] == l.order[..i];
      var pubkey := l.order[i];
      var endpoints := Get(l, pubkey);
      var username := lookup(Strip(pubkey));
      var name: string;
      assert DisplayName(pubkey, lookup) == NameOf(username);
      match username {
        case Profile(title) =>
          name := title;
        case LookupRaised(e) =>
          if e.cls != ValueError {
            ReportKeysPrefixRaised(l, l.order, i + 1, lookup);
            return Printout(blocks, Some(e));
          }
          name := Unknown;
      }
      ghost var keys := l.order[..i + 1];
      assert keys[..|keys| - 1] == l.order[..i] && keys[|keys| - 1] == pubkey;
      assert DisplayName(pubkey, lookup) == Named(name);
      blocks := blocks + [Block(name, pubkey, endpoints)];
      assert ReportKeys(l, keys, lookup) == Printout(blocks, None);
    }
    assert l.order[..|l.order|] == l.order;
    r := Printout(blocks, None);
  }

  lemma {:induction false} ReportKeysPrefixRaised(l: Ledger, keys: seq<string>, k: nat, lookup: string -> Lookup)
    requires k <= |keys|
    requires ReportKeys(l, keys[..k], lookup).raised.Some?
    ensures ReportKeys(l, keys, lookup) == ReportKeys(l, keys[..k], lookup)
    decreases |keys| - k
  {
    if k < |keys| {
      assert keys[..k + 1][..k] == keys[..k];
      ReportKeysPrefixRaised(l, keys, k + 1, lookup);
    } else {
      assert keys[..k] == keys;
    }
  }

  // ---------------------------------------------------------------------------
  // main
  // ---------------------------------------------------------------------------

  /** Outcome of `network.get_available_nodes`: the groups of nodes, or an exception. */
  datatype Discovery = Groups(groups: seq<seq<Node>>) | DiscoveryRaised(exc: Exc)

  /**
   * How `main` ends: `exit(1)`; an exception that escapes discovery or the
   * aggregation loop; an exception that escapes the report loop after some
   * blocks were printed; or a completed report.
   */
  datatype RunOutcome =
    | Exited(code: int)
    | RunRaised(exc: Exc)
    | ReportRaised(blocks: seq<Block>, exc: Exc)
    | Reported(blocks: seq<Block>)

  /** Classes the `except` clause around `get_available_nodes` handles. */
  predicate CaughtByDiscovery(c: ExcClass)
  {
    c == ClientConnectorError || c == TimeoutError || c == ValueError
  }

  function RunSpec(discovery: Discovery, net: Network, lookup: string -> Lookup): (r: RunOutcome)
    ensures r.Exited? <==> discovery.DiscoveryRaised? && CaughtByDiscovery(discovery.exc.cls)
    ensures r.Exited? ==> r.code == 1
    ensures r.RunRaised? <==>
      || (discovery.DiscoveryRaised? && !CaughtByDiscovery(discovery.exc.cls))
      || (discovery.Groups? && AggregateSpec(discovery.groups, net).Crashed?)
    ensures r.RunRaised? && discovery.DiscoveryRaised? ==> r.exc == discovery.exc
    ensures r.RunRaised? && discovery.Groups? ==> r.exc == AggregateSpec(discovery.groups, net).exc
    ensures r.ReportRaised? || r.Reported? <==> discovery.Groups? && AggregateSpec(discovery.groups, net).Completed?
    ensures r.ReportRaised? ==> ReportSpec(AggregateSpec(discovery.groups, net).ledger, lookup).raised == Some(r.exc)
    ensures r.Reported? ==> ReportSpec(AggregateSpec(discovery.groups, net).ledger, lookup).raised.None?
  {
    match discovery
    case DiscoveryRaised(e) => if CaughtByDiscovery(e.cls) then Exited(1) else RunRaised(e)
    case Groups(groups) =>
      match AggregateSpec(groups, net)
      case Crashed(e) => RunRaised(e)
      case Completed(l) =>
        var p := ReportSpec(l, lookup);
        if p.raised.Some? then ReportRaised(p.blocks, p.raised.value) else Reported(p.blocks)
  }

  /**
   * Once the aggregation completes, the blocks printed are exactly those of
   * the report loop over the ledger it built, key by key, whether or not a
   * lookup ends `main` early, and the ledger is well formed.
   */
  lemma RunReportsLedger(discovery: Discovery, net: Network, lookup: string -> Lookup)
    requires RunSpec(discovery, net, lookup).Reported? || RunSpec(discovery, net, lookup).ReportRaised?
    ensures var l := AggregateSpec(discovery.groups, net).ledger;
      && Valid(l)
      && RunSpec(discovery, net, lookup).blocks == ReportKeys(l, l.order, lookup).blocks
  {
    AggNodesMeaning(Flatten(discovery.groups), net);
  }

  /** main: discovers the nodes, runs the aggregation loop and prints the report. */
  method Run(discovery: Discovery, net: Network, lookup: string -> Lookup) returns (r: RunOutcome)
    ensures r == RunSpec(discovery, net, lookup)
  {
    if discovery.DiscoveryRaised? {
      var e := discovery.exc;
      if e.cls == ClientConnectorError || e.cls == TimeoutError || e.cls == ValueError {
        return Exited(1);
      }
      return RunRaised(e);
    }
    var agg := AggregateGroups(discovery.groups, net);
    if agg.Crashed? {
      return RunRaised(agg.exc);
    }
    var printout := PrintReport(agg.ledger, lookup);
    if printout.raised.Some? {
      return ReportRaised(printout.blocks, printout.raised.value);
    }
    r := Reported(printout.blocks);
  }
}
