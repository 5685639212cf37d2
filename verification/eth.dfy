/** The EVM-style chain adapter (`EthValidator`): `Scan` joins the cross-chain
    manager's `VerifyHeaderAndExecuteTx` events with the lock proxies' `Unlock`
    events at one height, and `Validate` looks for the `Lock` event on the
    source chain that backs a record.

    The node is not modelled: every filter query and the receipt lookup is an
    input, either the list of events it yields or the error it returns. */
module Eth {
  import opened Wrappers
  import opened Codec
  import opened Records

  /** A go-ethereum `Hash` or `Address` as `.String()` renders it: "0x" then hex. */
  type PrefixedText = s: string | |s| >= 2 witness "0x"

  /** `.String()[2:]`: the text after the "0x" prefix. */
  function Unprefixed(s: PrefixedText): string {
    s[2..]
  }

  /** A cross-chain manager `VerifyHeaderAndExecuteTx` event: the destination
      transaction `txHash` executed a relayed message. */
  datatype CcmEvent = CcmEvent(
    txHash: PrefixedText,
    fromChainId: nat,
    fromChainTxHash: seq<byte>,
    crossChainTxHash: seq<byte>,
    blockNumber: nat
  )

  /** A lock proxy `Unlock` event: funds released to `toAddress`. */
  datatype UnlockEvent = UnlockEvent(
    txHash: PrefixedText,
    toAssetHash: PrefixedText,
    toAddress: PrefixedText,
    amount: nat
  )

  /** A lock proxy `Lock` event. `toAssetHash` and `toAddress` are the event's
      raw byte fields taken as text, compared exactly as given. */
  datatype LockEvent = LockEvent(
    toChainId: nat,
    toAssetHash: string,
    toAddress: string,
    amount: nat
  )

  /** What one filter query returns. */
  type Fetched<T> = Result<seq<T>, Error>

  /* ---------------------------------------------------------------------- */
  /* Scan                                                                   */
  /* ---------------------------------------------------------------------- */

  /** The provenance fields a cross-chain manager event contributes. */
  datatype Provenance = Provenance(srcChainId: nat, srcTx: string, polyTx: string, dstHeight: nat)

  /** The destination transaction hash a CCM event is keyed by. */
  function CcmKey(e: CcmEvent): string {
    Unprefixed(e.txHash)
  }

  /** The table entry of a CCM event: both hashes are stored byte-reversed. */
  function ProvenanceOf(e: CcmEvent): (p: Provenance)
    ensures p.srcChainId == e.fromChainId && p.dstHeight == e.blockNumber
    ensures p.srcTx == HexEncode(HexReverse(e.fromChainTxHash))
    ensures p.polyTx == HexEncode(HexReverse(e.crossChainTxHash))
  {
    DecodeEncode(e.fromChainTxHash);
    DecodeEncode(e.crossChainTxHash);
    Provenance(
      e.fromChainId,
      HexStringReverse(HexEncode(e.fromChainTxHash)),
      HexStringReverse(HexEncode(e.crossChainTxHash)),
      e.blockNumber)
  }

  /** No later event in `events` shares the key of `events[i]`. */
  predicate LastForKey(events: seq<CcmEvent>, i: nat)
    requires i < |events|
  {
    forall j :: i < j < |events| ==> CcmKey(events[j]) != CcmKey(events[i])
  }

  /** The map the CCM events build when each is stored in event order,
      overwriting any earlier entry for the same destination hash. */
  function Overwrites(events: seq<CcmEvent>): map<string, Provenance> {
    if |events| == 0 then map[]
    else
      var last := events[|events| - 1];
      Overwrites(events[..|events| - 1])[CcmKey(last) := ProvenanceOf(last)]
  }

  lemma {:induction false} OverwritesKeys(events: seq<CcmEvent>)
    ensures forall k :: k in Overwrites(events) <==> exists i :: 0 <= i < |events| && CcmKey(events[i]) == k
  {
    if |events| > 0 {
      var init := events[..|events| - 1];
      var n := |init|;
      OverwritesKeys(init);
      forall k
        ensures k in Overwrites(events) <==> exists i :: 0 <= i < |events| && CcmKey(events[i]) == k
      {
        if k in Overwrites(init) {
          var i :| 0 <= i < n && CcmKey(init[i]) == k;
          assert events[i] == init[i];
        } else if k != CcmKey(events[n]) {
          forall i | 0 <= i < |events|
            ensures CcmKey(events[i]) != k
          {
            if i < n {
              assert events[i] == init[i];
            }
          }
        }
      }
    }
  }

  lemma {:induction false} OverwritesLastWins(events: seq<CcmEvent>, i: nat)
    requires i < |events| && LastForKey(events, i)
    ensures CcmKey(events[i]) in Overwrites(events)
    ensures Overwrites(events)[CcmKey(events[i])] == ProvenanceOf(events[i])
  {
    var init := events[..|events| - 1];
    var n := |init|;
    if i < n {
      assert events[i] == init[i];
      forall j | i < j < n
        ensures CcmKey(init[j]) != CcmKey(init[i])
      {
        assert init[j] == events[j];
      }
      OverwritesLastWins(init, i);
      assert CcmKey(events[n]) != CcmKey(events[i]);
    }
  }

  /** The lookup table `Scan` builds from the CCM events: its keys are exactly
      the events' destination hashes, and each hash maps to the entry of the
      last event carrying it, since later events overwrite earlier ones. */
  function CcmTable(events: seq<CcmEvent>): (t: map<string, Provenance>)
    ensures forall k :: k in t <==> exists i :: 0 <= i < |events| && CcmKey(events[i]) == k
    ensures forall i :: 0 <= i < |events| && LastForKey(events, i) ==> t[CcmKey(events[i])] == ProvenanceOf(events[i])
  {
    OverwritesKeys(events);
    assert forall i :: 0 <= i < |events| && LastForKey(events, i) ==>
      Overwrites(events)[CcmKey(events[i])] == ProvenanceOf(events[i]) by {
      forall i | 0 <= i < |events| && LastForKey(events, i)
        ensures Overwrites(events)[CcmKey(events[i])] == ProvenanceOf(events[i])
      {
        OverwritesLastWins(events, i);
      }
    }
    Overwrites(events)
  }

  /** The record for one proxy unlock event, correlated when the table holds its hash. */
  function UnlockRecord(e: UnlockEvent, chainId: nat, table: map<string, Provenance>): (r: DstTx)
    ensures IsRecordOf(r, e, chainId, table)
  {
    var r := DstTx(
      0, "", "", 0,
      Unprefixed(e.txHash),
      chainId,
      ToLower(Unprefixed(e.toAssetHash)),
      ToLower(Unprefixed(e.toAddress)),
      e.amount);
    if r.dstTx in table then
      var p := table[r.dstTx];
      r.(srcChainId := p.srcChainId, srcTx := p.srcTx, polyTx := p.polyTx, dstHeight := p.dstHeight)
    else r
  }

  /** `r` is what an unlock event `e` must become: the payload fields from the
      event (hashes without their "0x", asset and recipient lower-cased), the
      chain id from the configuration, and the provenance from the table entry
      for its hash if there is one, left empty if not. */
  predicate IsRecordOf(r: DstTx, e: UnlockEvent, chainId: nat, table: map<string, Provenance>) {
    && r.amount == e.amount
    && r.dstTx == Unprefixed(e.txHash)
    && r.dstAsset == ToLower(Unprefixed(e.toAssetHash))
    && r.to == ToLower(Unprefixed(e.toAddress))
    && r.dstChainId == chainId
    && (r.dstTx in table ==> table[r.dstTx] == Provenance(r.srcChainId, r.srcTx, r.polyTx, r.dstHeight))
    && (r.dstTx !in table ==> Uncorrelated(r))
  }

  /** The unlock events of all proxies whose query succeeded, proxy by proxy. */
  function Unlocks(proxies: seq<Fetched<UnlockEvent>>): seq<UnlockEvent> {
    if |proxies| == 0 then []
    else (if proxies[0].Success? then proxies[0].value else []) + Unlocks(proxies[1..])
  }

  /** `proxies[p]` is the first failed query. */
  predicate FirstFailure(proxies: seq<Fetched<UnlockEvent>>, p: nat)
    requires p < |proxies|
  {
    proxies[p].Failure? && forall q :: 0 <= q < p ==> proxies[q].Success?
  }

  /** The proxy half of `Scan`: one record per unlock event, proxy by proxy in
      configuration order; the first failed query aborts with its error. */
  function ScanProxies(proxies: seq<Fetched<UnlockEvent>>, chainId: nat, table: map<string, Provenance>)
    : (r: Result<seq<DstTx>, Error>)
    ensures r.Failure? <==> exists p :: 0 <= p < |proxies| && proxies[p].Failure?
    ensures r.Failure? ==> exists p :: 0 <= p < |proxies| && FirstFailure(proxies, p) && proxies[p].error == r.error
    ensures r.Success? ==> |r.value| == |Unlocks(proxies)|
    ensures r.Success? ==> forall i :: 0 <= i < |r.value| ==> IsRecordOf(r.value[i], Unlocks(proxies)[i], chainId, table)
  {
    if |proxies| == 0 then Success([])
    else if proxies[0].Failure? then
      assert FirstFailure(proxies, 0);
      Failure(proxies[0].error)
    else
      var here := seq(|proxies[0].value|, i requires 0 <= i < |proxies[0].value| =>
        UnlockRecord(proxies[0].value[i], chainId, table));
      var rest := ScanProxies(proxies[1..], chainId, table);
      if rest.Failure? then
        ghost var p :| 0 <= p < |proxies[1..]| && FirstFailure(proxies[1..], p) && proxies[1..][p].error == rest.error;
        assert FirstFailure(proxies, p + 1);
        rest
      else
        assert forall p :: 1 <= p < |proxies| ==> proxies[p] == proxies[1..][p - 1];
        Success(here + rest.value)
  }

  /** `EthValidator.Scan` at one height, given the CCM event query and one
      unlock event query per configured proxy (in configuration order). */
  function Scan(ccm: Fetched<CcmEvent>, proxies: seq<Fetched<UnlockEvent>>, chainId: nat)
    : (r: Result<seq<DstTx>, Error>)
    ensures ccm.Failure? ==> r == Failure(ccm.error)
    ensures ccm.Success? ==> (r.Failure? <==> exists p :: 0 <= p < |proxies| && proxies[p].Failure?)
    ensures ccm.Success? && r.Failure? ==>
      exists p :: 0 <= p < |proxies| && FirstFailure(proxies, p) && proxies[p].error == r.error
    ensures r.Success? ==> ccm.Success? && |r.value| == |Unlocks(proxies)|
    ensures r.Success? ==> forall i :: 0 <= i < |r.value| ==>
      IsRecordOf(r.value[i], Unlocks(proxies)[i], chainId, CcmTable(ccm.value))
  {
    match ccm
    case Failure(e) => Failure(e)
    case Success(events) => ScanProxies(proxies, chainId, CcmTable(events))
  }

  /** A record is correlated exactly when some CCM event at the height carries
      its destination hash; its provenance then comes from the last such event,
      with the source and relay hashes byte-reversed. */
  lemma ScanCorrelation(ccms: seq<CcmEvent>, proxies: seq<Fetched<UnlockEvent>>, chainId: nat)
    requires Scan(Success(ccms), proxies, chainId).Success?
    ensures var recs := Scan(Success(ccms), proxies, chainId).value;
      forall i, c :: 0 <= i < |recs| && 0 <= c < |ccms| && CcmKey(ccms[c]) == recs[i].dstTx && LastForKey(ccms, c) ==>
        && recs[i].srcChainId == ccms[c].fromChainId
        && recs[i].srcTx == HexEncode(HexReverse(ccms[c].fromChainTxHash))
        && recs[i].polyTx == HexEncode(HexReverse(ccms[c].crossChainTxHash))
        && recs[i].dstHeight == ccms[c].blockNumber
    ensures var recs := Scan(Success(ccms), proxies, chainId).value;
      forall i :: 0 <= i < |recs| && (forall c :: 0 <= c < |ccms| ==> CcmKey(ccms[c]) != recs[i].dstTx) ==>
        Uncorrelated(recs[i])
  {
  }

  /** With no proxy unlock events at the height the scan is empty, whatever CCM
      events there are: a CCM event never becomes a record on its own. */
  lemma ScanWithoutUnlocks(ccms: seq<CcmEvent>, proxies: seq<Fetched<UnlockEvent>>, chainId: nat)
    requires forall p :: 0 <= p < |proxies| ==> proxies[p] == Success([])
    ensures Scan(Success(ccms), proxies, chainId) == Success([])
  {
    var r := Scan(Success(ccms), proxies, chainId);
    assert r.Success?;
    assert Unlocks(proxies) == [] by {
      UnlocksOfEmpty(proxies);
    }
  }

  lemma {:induction false} UnlocksOfEmpty(proxies: seq<Fetched<UnlockEvent>>)
    requires forall p :: 0 <= p < |proxies| ==> proxies[p] == Success([])
    ensures Unlocks(proxies) == []
  {
    if |proxies| > 0 {
      UnlocksOfEmpty(proxies[1..]);
    }
  }

  lemma ExampleHexes()
    ensures HexEncode(HexReverse([0xAA, 0xBB])) == "bbaa"
    ensures HexEncode(HexReverse([0xCC, 0xDD])) == "ddcc"
  {
    assert HexReverse([0xAA, 0xBB]) == [0xBB, 0xAA];
    assert HexReverse([0xCC, 0xDD]) == [0xDD, 0xCC];
    assert [0xBB, 0xAA][1..] == [0xAA as byte];
    assert [0xDD, 0xCC][1..] == [0xCC as byte];
  }

  lemma ExampleTable(ccm: CcmEvent)
    requires ccm == CcmEvent("0x1234", 2, [0xAA, 0xBB], [0xCC, 0xDD], 100)
    ensures CcmTable([ccm]) == map["1234" := Provenance(2, "bbaa", "ddcc", 100)]
  {
    ExampleHexes();
    assert [ccm][..0] == [];
    assert CcmKey(ccm) == "1234";
  }

  lemma ExampleRecords(unlock: UnlockEvent, table: map<string, Provenance>, chainId: nat)
    requires unlock == UnlockEvent("0x1234", "0xAsset", "0xUser", 500)
    requires table == map["1234" := Provenance(2, "bbaa", "ddcc", 100)]
    ensures ScanProxies([Success([unlock])], chainId, table)
      == Success([DstTx(2, "bbaa", "ddcc", 100, "1234", chainId, "asset", "user", 500)])
  {
    var rec := DstTx(2, "bbaa", "ddcc", 100, "1234", chainId, "asset", "user", 500);
    var proxies := [Success([unlock])];
    var r := ScanProxies(proxies, chainId, table);
    assert Unlocks(proxies[1..]) == [];
    assert Unlocks(proxies) == [unlock];
    assert r.Success?;
    assert IsRecordOf(r.value[0], unlock, chainId, table);
    assert ToLower("Asset") == "asset";
    assert ToLower("User") == "user";
    assert Unprefixed(unlock.txHash) == "1234";
    assert r.value[0] == rec;
    assert |r.value| == 1;
    assert r.value == [rec];
  }

  /** A cross-chain transfer from chain 2 (source hash aabb, relay hash ccdd)
      unlocked 500 of an asset to a user in transaction 0x1234 at height 100. */
  lemma ScanExample(ccm: CcmEvent, unlock: UnlockEvent, chainId: nat)
    requires ccm == CcmEvent("0x1234", 2, [0xAA, 0xBB], [0xCC, 0xDD], 100)
    requires unlock == UnlockEvent("0x1234", "0xAsset", "0xUser", 500)
    ensures Scan(Success([ccm]), [Success([unlock])], chainId)
      == Success([DstTx(2, "bbaa", "ddcc", 100, "1234", chainId, "asset", "user", 500)])
  {
    ExampleTable(ccm);
    ExampleRecords(unlock, CcmTable([ccm]), chainId);
  }

  /* ---------------------------------------------------------------------- */
  /* Validate                                                               */
  /* ---------------------------------------------------------------------- */

  /** A lock event backs `tx` when amount, recipient, destination chain and
      asset are all exactly equal. */
  predicate Matches(e: LockEvent, tx: DstTx) {
    e.amount == tx.amount && e.toAddress == tx.to && e.toChainId == tx.dstChainId && e.toAssetHash == tx.dstAsset
  }

  predicate HasMatch(locks: seq<LockEvent>, tx: DstTx) {
    exists k :: 0 <= k < |locks| && Matches(locks[k], tx)
  }

  /** The queries of the first `p` proxies succeeded and none held a match. */
  predicate NoMatchBefore(results: seq<Fetched<LockEvent>>, tx: DstTx, p: nat)
    requires p <= |results|
  {
    forall q :: 0 <= q < p ==> results[q].Success? && !HasMatch(results[q].value, tx)
  }

  /** The lock queries of all proxies at one height. */
  function LocksAt(lockFilters: seq<nat -> Fetched<LockEvent>>, height: nat): (results: seq<Fetched<LockEvent>>)
    ensures |results| == |lockFilters|
    ensures forall p :: 0 <= p < |lockFilters| ==> results[p] == lockFilters[p](height)
  {
    seq(|lockFilters|, p requires 0 <= p < |lockFilters| => lockFilters[p](height))
  }

  const FailurePrefix := "Failed to validate tx "
  const ToLabel := " to "
  const AssetLabel := " asset "
  const AmountLabel := " amount "

  /** The message `Validate` fails with when no lock event matches. */
  function NoMatchMessage(tx: DstTx): string {
    FailurePrefix + tx.srcTx + ToLabel + tx.to + AssetLabel + tx.dstAsset + AmountLabel + DecimalText(tx.amount)
  }

  lemma NoMatchMessageFields(tx: DstTx)
    ensures var m := NoMatchMessage(tx);
      var toAt := |FailurePrefix| + |tx.srcTx| + |ToLabel|;
      var assetAt := toAt + |tx.to| + |AssetLabel|;
      var amountText := DecimalText(tx.amount);
      && |m| == assetAt + |tx.dstAsset| + |AmountLabel| + |amountText|
      && m[..|FailurePrefix|] == FailurePrefix
      && m[|FailurePrefix|..|FailurePrefix| + |tx.srcTx|] == tx.srcTx
      && m[toAt..toAt + |tx.to|] == tx.to
      && m[assetAt..assetAt + |tx.dstAsset|] == tx.dstAsset
      && m[|m| - |amountText|..] == amountText
  {
  }

  /** The error `Validate` returns when no lock event matches: its message
      names the record's source transaction, recipient and asset, and ends
      with its amount in decimal, which parses back. */
  function NoMatchError(tx: DstTx): (err: Error)
    ensures var m := err.message;
      var toAt := |FailurePrefix| + |tx.srcTx| + |ToLabel|;
      var assetAt := toAt + |tx.to| + |AssetLabel|;
      var amountText := DecimalText(tx.amount);
      && |m| == assetAt + |tx.dstAsset| + |AmountLabel| + |amountText|
      && m[..|FailurePrefix|] == FailurePrefix
      && m[|FailurePrefix|..|FailurePrefix| + |tx.srcTx|] == tx.srcTx
      && m[toAt..toAt + |tx.to|] == tx.to
      && m[assetAt..assetAt + |tx.dstAsset|] == tx.dstAsset
      && ParseInt(m[|m| - |amountText|..], IntegerType) == Some(tx.amount)
  {
    NoMatchMessageFields(tx);
    Error(NoMatchMessage(tx))
  }

  /** `r` is the outcome of searching `results` proxy by proxy: the first proxy
      whose query failed or whose locks hold a match decides it (error or
      success); if there is none, validation fails with `NoMatchError`. */
  predicate Decides(results: seq<Fetched<LockEvent>>, tx: DstTx, r: Outcome<Error>) {
    && (NoMatchBefore(results, tx, |results|) ==> r == Fail(NoMatchError(tx)))
    && (forall p :: 0 <= p < |results| && NoMatchBefore(results, tx, p) && results[p].Failure? ==>
          r == Fail(results[p].error))
    && (forall p :: 0 <= p < |results| && NoMatchBefore(results, tx, p) && results[p].Success? &&
          HasMatch(results[p].value, tx)
          ==> r == Pass)
  }

  /** `EthValidator.Validate`: look up the receipt of the record's source
      transaction, then search the proxies' lock events at its height. */
  method Validate(tx: DstTx, receipt: string -> Result<nat, Error>, lockFilters: seq<nat -> Fetched<LockEvent>>)
    returns (r: Outcome<Error>)
    ensures receipt(tx.srcTx).Failure? ==> r == Fail(receipt(tx.srcTx).error)
    ensures receipt(tx.srcTx).Success? ==> Decides(LocksAt(lockFilters, receipt(tx.srcTx).value), tx, r)
  {
    var lookup := receipt(tx.srcTx);
    if lookup.Failure? {
      return Fail(lookup.error);
    }
    var height := lookup.value;
    ghost var results := LocksAt(lockFilters, height);
    var p := 0;
    while p < |lockFilters|
      invariant 0 <= p <= |lockFilters|
      invariant NoMatchBefore(results, tx, p)
    {
      var fetched := lockFilters[p](height);
      if fetched.Failure? {
        r := Fail(fetched.error);
        assert forall p' :: p < p' < |results| ==> !NoMatchBefore(results, tx, p');
        return;
      }
      var locks := fetched.value;
      var k := 0;
      while k < |locks|
        invariant 0 <= k <= |locks|
        invariant forall j :: 0 <= j < k ==> !Matches(locks[j], tx)
      {
        var e := locks[k];
        if e.amount == tx.amount && e.toAddress == tx.to && e.toChainId == tx.dstChainId && e.toAssetHash == tx.dstAsset {
          r := Pass;
          assert HasMatch(results[p].value, tx);
          assert forall p' :: p < p' <= |results| ==> !NoMatchBefore(results, tx, p');
          return;
        }
        k := k + 1;
      }
      p := p + 1;
    }
    r := Fail(NoMatchError(tx));
  }

  /** Either no proxy decides the search, or a first one does. */
  lemma DecisiveProxy(results: seq<Fetched<LockEvent>>, tx: DstTx)
    ensures NoMatchBefore(results, tx, |results|) ||
      exists p :: 0 <= p < |results| && NoMatchBefore(results, tx, p) &&
        (results[p].Failure? || HasMatch(results[p].value, tx))
  {
    var p := 0;
    while p < |results| && results[p].Success? && !HasMatch(results[p].value, tx)
      invariant 0 <= p <= |results|
      invariant NoMatchBefore(results, tx, p)
    {
      p := p + 1;
    }
  }

  /** Validation succeeds iff some proxy, reached without an earlier query
      failing, holds a matching lock event. */
  lemma DecidesPassIff(results: seq<Fetched<LockEvent>>, tx: DstTx, r: Outcome<Error>)
    requires Decides(results, tx, r)
    ensures r == Pass <==>
      exists p :: 0 <= p < |results| && NoMatchBefore(results, tx, p) && results[p].Success? && HasMatch(results[p].value, tx)
  {
    DecisiveProxy(results, tx);
  }

  /** The search has exactly one outcome. */
  lemma DecidesUnique(results: seq<Fetched<LockEvent>>, tx: DstTx, r1: Outcome<Error>, r2: Outcome<Error>)
    requires Decides(results, tx, r1) && Decides(results, tx, r2)
    ensures r1 == r2
  {
    DecisiveProxy(results, tx);
  }
}
