/** The account-model (Ontology) chain adapter (`OntValidator`). A block's
    smart-contract events arrive grouped per transaction; `Scan` classifies each
    transaction's notifications, keeps the first cross-chain manager unlock as a
    correlation candidate, turns every proxy unlock into a record, and applies
    the candidate only when the transaction holds exactly one unlock.
    `Validate` always succeeds.

    The node query is an input: the transactions' notifications, or the error
    the query returned. */
module Ont {
  import opened Wrappers
  import opened Codec
  import opened Records

  /** The raw method name of the cross-chain manager's unlock acknowledgement. */
  const CcmUnlockMethod := "verifyToOntProof"

  /** The method name of a proxy unlock, once its hex text is decoded. */
  const ProxyUnlockMethod := "unlock"

  /** One element of a notification's loosely typed state list. */
  datatype StateValue = Text(text: string) | Number(number: nat) | OtherValue

  /** A notification: the contract that emitted it and its state list, whose
      first element names the method. */
  datatype Notify = Notify(contractAddress: string, states: seq<StateValue>)

  /** The notifications of one transaction, in emission order. */
  datatype TxEvents = TxEvents(txHash: string, notify: seq<Notify>)

  /** The part of the chain configuration `Scan` reads. */
  datatype Config = Config(chainId: nat, ccmContract: string, proxyContracts: seq<string>)

  /** A notification as the correlator sees it. */
  datatype Event =
    | CcmUnlock(srcChainId: nat, polyTxHex: string)
    | ProxyUnlock(asset: string, to: string, amountHex: string)
    | Unrecognized

  /* ---------------------------------------------------------------------- */
  /* Classification                                                         */
  /* ---------------------------------------------------------------------- */

  /** `isProxyContract`: the address is one of the configured proxies. */
  function IsProxyContract(proxies: seq<string>, contract: string): (b: bool)
    ensures b <==> exists i :: 0 <= i < |proxies| && proxies[i] == contract
  {
    if |proxies| == 0 then false
    else if proxies[0] == contract then true
    else
      assert forall i :: 1 <= i < |proxies| ==> proxies[i] == proxies[1..][i - 1];
      IsProxyContract(proxies[1..], contract)
  }

  /** The method name of a state list: its first element when that is text, "" otherwise. */
  function MethodText(states: seq<StateValue>): string
    requires |states| > 0
  {
    if states[0].Text? then states[0].text else ""
  }

  /** Go's `string(bytes)`: one character per byte. */
  function BytesText(bs: seq<byte>): (s: string)
    ensures |s| == |bs|
    ensures forall i :: 0 <= i < |bs| ==> s[i] as int == bs[i] as int
  {
    seq(|bs|, i requires 0 <= i < |bs| => (bs[i] as int) as char)
  }

  /** The state list of a cross-chain manager unlock: method, relay hash, _, source chain id. */
  predicate IsCcmUnlockStates(states: seq<StateValue>) {
    && |states| >= 4
    && MethodText(states) == CcmUnlockMethod
    && states[1].Text?
    && states[3].Number?
  }

  /** The state list of a proxy unlock: hex method, asset, recipient, hex amount. */
  predicate IsProxyUnlockStates(states: seq<StateValue>) {
    && |states| >= 4
    && BytesText(HexDecode(MethodText(states))) == ProxyUnlockMethod
    && states[1].Text?
    && states[2].Text?
    && states[3].Text?
  }

  /** What one notification means to `Scan`. A notification from the cross-chain
      manager counts only with the raw method "verifyToOntProof"; one from a
      configured proxy (and not from the manager) only when its hex-decoded
      method is "unlock"; everything else is skipped. */
  function Classify(cfg: Config, n: Notify): (e: Event)
    ensures e.CcmUnlock? <==> n.contractAddress == cfg.ccmContract && IsCcmUnlockStates(n.states)
    ensures e.ProxyUnlock? <==>
      && n.contractAddress != cfg.ccmContract
      && (exists i :: 0 <= i < |cfg.proxyContracts| && cfg.proxyContracts[i] == n.contractAddress)
      && IsProxyUnlockStates(n.states)
    ensures e.CcmUnlock? ==> e == CcmUnlock(n.states[3].number, n.states[1].text)
    ensures e.ProxyUnlock? ==> e == ProxyUnlock(n.states[1].text, n.states[2].text, n.states[3].text)
  {
    if |n.states| == 0 then Unrecognized
    else if n.contractAddress == cfg.ccmContract then
      if IsCcmUnlockStates(n.states) then CcmUnlock(n.states[3].number, n.states[1].text)
      else Unrecognized
    else if IsProxyContract(cfg.proxyContracts, n.contractAddress) then
      if IsProxyUnlockStates(n.states) then ProxyUnlock(n.states[1].text, n.states[2].text, n.states[3].text)
      else Unrecognized
    else Unrecognized
  }

  /** The proxy method is hex text; upper- and lower-case digits both decode to "unlock". */
  lemma ProxyMethodEitherCase(cfg: Config, n: Notify, m: string, asset: string, to: string, amount: string)
    requires n.contractAddress != cfg.ccmContract && n.contractAddress in cfg.proxyContracts
    requires m == "756e6c6f636b" || m == "756E6C6F636B"
    requires n.states == [Text(m), Text(asset), Text(to), Text(amount)]
    ensures Classify(cfg, n) == ProxyUnlock(asset, to, amount)
  {
    assert MethodText(n.states) == m;
    UnlockHexDecodes(m);
    assert IsProxyUnlockStates(n.states);
  }

  lemma UnlockHexDecodes(m: string)
    requires m == "756e6c6f636b" || m == "756E6C6F636B"
    ensures BytesText(HexDecode(m)) == ProxyUnlockMethod
  {
    assert IsEvenHex(m);
    HexDecodePairs(m);
    var bs := HexDecode(m);
    assert |bs| == 6;
    assert bs[0] == PairValue(m[0], m[1]) == 0x75;
    assert bs[1] == PairValue(m[2], m[3]) == 0x6e;
    assert bs[2] == PairValue(m[4], m[5]) == 0x6c;
    assert bs[3] == PairValue(m[6], m[7]) == 0x6f;
    assert bs[4] == PairValue(m[8], m[9]) == 0x63;
    assert bs[5] == PairValue(m[10], m[11]) == 0x6b;
    var t := BytesText(bs);
    assert t[0] == 'u' && t[1] == 'n' && t[2] == 'l' && t[3] == 'o' && t[4] == 'c' && t[5] == 'k';
  }

  /** A notification from the cross-chain manager is never taken for a proxy
      unlock, even when the manager's address is also listed as a proxy. */
  lemma CcmContractIsNotProxy(cfg: Config, n: Notify)
    requires n.contractAddress == cfg.ccmContract
    requires cfg.ccmContract in cfg.proxyContracts
    requires IsProxyUnlockStates(n.states)
    ensures !Classify(cfg, n).ProxyUnlock?
  {
  }

  /* ---------------------------------------------------------------------- */
  /* Per-transaction scan                                                   */
  /* ---------------------------------------------------------------------- */

  /** The provenance a cross-chain manager unlock offers. */
  datatype Candidate = Candidate(srcChainId: nat, polyTx: string, dstHeight: nat)

  /** The unlock amount, fail-open: the little-endian value of the decoded
      amount bytes, which is 0 when no byte decodes. */
  function UnlockAmount(amountHex: string): (a: nat)
    ensures a == LittleEndian(HexDecode(amountHex))
    ensures |HexDecode(amountHex)| == 0 ==> a == 0
  {
    var parsed := ParseLittleEndianHex(amountHex);
    if parsed.Some? then parsed.value else 0
  }

  /** The uncorrelated record a proxy unlock yields. */
  function UnlockRecord(cfg: Config, txHash: string, e: Event): (r: DstTx)
    requires e.ProxyUnlock?
    ensures Uncorrelated(r)
    ensures r.dstTx == txHash && r.dstChainId == cfg.chainId
    ensures r.dstAsset == e.asset && r.to == e.to
    ensures r.amount == LittleEndian(HexDecode(e.amountHex))
  {
    DstTx(0, "", "", 0, txHash, cfg.chainId, e.asset, e.to, UnlockAmount(e.amountHex))
  }

  /** The candidate a cross-chain manager unlock yields. */
  function CandidateOf(e: Event, height: nat): (c: Candidate)
    requires e.CcmUnlock?
    ensures c.srcChainId == e.srcChainId && c.dstHeight == height
    ensures IsLowerHex(c.polyTx) && |c.polyTx| % 2 == 0
    ensures HexDecode(c.polyTx) == HexReverse(HexDecode(e.polyTxHex))
  {
    Candidate(e.srcChainId, HexStringReverse(e.polyTxHex), height)
  }

  /** The loop state while a transaction's notifications are read. */
  datatype TxState = TxState(candidate: Option<Candidate>, unlocks: seq<DstTx>)

  /** One iteration of the loop: the first manager unlock becomes the candidate
      (later ones are only logged), each proxy unlock appends a record. */
  function Step(cfg: Config, height: nat, txHash: string, st: TxState, n: Notify): (next: TxState)
    ensures |st.unlocks| <= |next.unlocks| <= |st.unlocks| + 1
    ensures next.unlocks[..|st.unlocks|] == st.unlocks
    ensures |next.unlocks| > |st.unlocks| <==> Classify(cfg, n).ProxyUnlock?
    ensures |next.unlocks| > |st.unlocks| ==> next.unlocks[|st.unlocks|] == UnlockRecord(cfg, txHash, Classify(cfg, n))
    ensures next.candidate != st.candidate <==> st.candidate.None? && Classify(cfg, n).CcmUnlock?
    ensures next.candidate != st.candidate ==> next.candidate == Some(CandidateOf(Classify(cfg, n), height))
  {
    var e := Classify(cfg, n);
    if e.CcmUnlock? then
      if st.candidate.None? then st.(candidate := Some(CandidateOf(e, height))) else st
    else if e.ProxyUnlock? then
      st.(unlocks := st.unlocks + [UnlockRecord(cfg, txHash, e)])
    else st
  }

  /** The loop over a transaction's notifications, in order: it keeps the first
      manager unlock as candidate, and one record per proxy unlock in
      notification order. */
  function Gather(cfg: Config, height: nat, txHash: string, ns: seq<Notify>): (st: TxState)
    ensures |st.unlocks| == |ProxyUnlocks(cfg, ns)|
    ensures forall k :: 0 <= k < |st.unlocks| ==> st.unlocks[k] == UnlockRecord(cfg, txHash, ProxyUnlocks(cfg, ns)[k])
    ensures st.candidate.None? <==> forall i :: 0 <= i < |ns| ==> !Classify(cfg, ns[i]).CcmUnlock?
    ensures forall i :: 0 <= i < |ns| && FirstCcmAt(cfg, ns, i) ==> st.candidate == Some(CandidateOf(Classify(cfg, ns[i]), height))
  {
    if |ns| == 0 then TxState(None, [])
    else
      var init := ns[..|ns| - 1];
      var last := ns[|ns| - 1];
      assert ns == init + [last];
      ProxyUnlocksAppend(cfg, init, last);
      var before := Gather(cfg, height, txHash, init);
      var st := Step(cfg, height, txHash, before, last);
      assert forall i :: 0 <= i < |init| ==> init[i] == ns[i];
      assert forall i :: 0 <= i < |ns| && FirstCcmAt(cfg, ns, i) ==>
        st.candidate == Some(CandidateOf(Classify(cfg, ns[i]), height)) by {
        forall i | 0 <= i < |ns| && FirstCcmAt(cfg, ns, i)
          ensures st.candidate == Some(CandidateOf(Classify(cfg, ns[i]), height))
        {
          if i < |init| {
            assert FirstCcmAt(cfg, init, i);
          } else {
            assert before.candidate.None?;
          }
        }
      }
      st
  }

  /** The proxy unlocks among `ns`, in order. */
  function ProxyUnlocks(cfg: Config, ns: seq<Notify>): (es: seq<Event>)
    ensures |es| <= |ns|
    ensures forall k :: 0 <= k < |es| ==> es[k].ProxyUnlock?
  {
    if |ns| == 0 then []
    else
      var e := Classify(cfg, ns[0]);
      (if e.ProxyUnlock? then [e] else []) + ProxyUnlocks(cfg, ns[1..])
  }

  /** `ns[i]` is the first cross-chain manager unlock of `ns`. */
  predicate FirstCcmAt(cfg: Config, ns: seq<Notify>, i: nat)
    requires i < |ns|
  {
    Classify(cfg, ns[i]).CcmUnlock? && forall j :: 0 <= j < i ==> !Classify(cfg, ns[j]).CcmUnlock?
  }

  lemma {:induction false} ProxyUnlocksAppend(cfg: Config, ns: seq<Notify>, n: Notify)
    ensures var e := Classify(cfg, n);
      ProxyUnlocks(cfg, ns + [n]) == ProxyUnlocks(cfg, ns) + (if e.ProxyUnlock? then [e] else [])
  {
    if |ns| > 0 {
      assert (ns + [n])[1..] == ns[1..] + [n];
      ProxyUnlocksAppend(cfg, ns[1..], n);
    }
  }

  /** `r` carries the candidate's provenance. */
  predicate CorrelatedWith(r: DstTx, c: Candidate) {
    r.srcChainId == c.srcChainId && r.polyTx == c.polyTx && r.dstHeight == c.dstHeight && r.srcTx == ""
  }

  /** A record with the candidate's provenance filled in, when there is a
      candidate; the payload is left as it is. */
  function Correlate(r: DstTx, candidate: Option<Candidate>, height: nat): (out: DstTx)
    ensures out.dstTx == r.dstTx && out.dstChainId == r.dstChainId && out.srcTx == r.srcTx
    ensures out.dstAsset == r.dstAsset && out.to == r.to && out.amount == r.amount
    ensures candidate.None? ==> out == r
    ensures candidate.Some? ==>
      out.srcChainId == candidate.value.srcChainId && out.polyTx == candidate.value.polyTx && out.dstHeight == height
  {
    match candidate
    case Some(c) => r.(srcChainId := c.srcChainId, polyTx := c.polyTx, dstHeight := height)
    case None => r
  }

  /** `Correlate` applied to every record. */
  function CorrelateAll(rs: seq<DstTx>, candidate: Option<Candidate>, height: nat): (out: seq<DstTx>)
    ensures |out| == |rs|
    ensures forall k :: 0 <= k < |rs| ==> out[k] == Correlate(rs[k], candidate, height)
  {
    seq(|rs|, k requires 0 <= k < |rs| => Correlate(rs[k], candidate, height))
  }

  /** The records of one transaction: its unlocks, correlated with the
      candidate only when there is exactly one unlock. */
  function TxRecords(cfg: Config, height: nat, tx: TxEvents): (recs: seq<DstTx>)
    ensures |recs| == |ProxyUnlocks(cfg, tx.notify)|
    ensures forall k :: 0 <= k < |recs| ==>
      var e := ProxyUnlocks(cfg, tx.notify)[k];
      && recs[k].dstTx == tx.txHash
      && recs[k].dstChainId == cfg.chainId
      && recs[k].dstAsset == e.asset
      && recs[k].to == e.to
      && recs[k].amount == LittleEndian(HexDecode(e.amountHex))
      && recs[k].srcTx == ""
    ensures forall i :: 0 <= i < |tx.notify| && FirstCcmAt(cfg, tx.notify, i) && |recs| == 1 ==>
      CorrelatedWith(recs[0], CandidateOf(Classify(cfg, tx.notify[i]), height))
    ensures |recs| != 1 || (forall i :: 0 <= i < |tx.notify| ==> !Classify(cfg, tx.notify[i]).CcmUnlock?) ==>
      forall k :: 0 <= k < |recs| ==> Uncorrelated(recs[k])
  {
    var st := Gather(cfg, height, tx.txHash, tx.notify);
    var candidate := if |st.unlocks| != 1 then None else st.candidate;
    CorrelateAll(st.unlocks, candidate, height)
  }

  /** The records of a block's transactions, transaction by transaction. */
  function ScanTxs(cfg: Config, height: nat, txs: seq<TxEvents>): (recs: seq<DstTx>)
    ensures |recs| == UnlockCount(cfg, txs)
  {
    if |txs| == 0 then [] else TxRecords(cfg, height, txs[0]) + ScanTxs(cfg, height, txs[1..])
  }

  /** The number of proxy unlock notifications in a block. */
  function UnlockCount(cfg: Config, txs: seq<TxEvents>): nat {
    if |txs| == 0 then 0 else |ProxyUnlocks(cfg, txs[0].notify)| + UnlockCount(cfg, txs[1..])
  }

  /** `OntValidator.Scan` at one height, given the block's events query: the
      records of each transaction, as `TxRecords` gives them, one transaction
      after the other in block order. */
  function Scan(cfg: Config, height: nat, events: Result<seq<TxEvents>, Error>): (r: Result<seq<DstTx>, Error>)
    ensures events.Failure? ==> r == Failure(events.error)
    ensures events.Success? ==> r.Success? && |r.value| == UnlockCount(cfg, events.value)
    ensures r.Success? ==> r.value == Flatten(TxParts(cfg, height, events.value))
    ensures r.Success? ==> forall i :: 0 <= i < |events.value| ==>
      var parts := TxParts(cfg, height, events.value);
      r.value == Flatten(parts[..i]) + TxRecords(cfg, height, events.value[i]) + Flatten(parts[i + 1..])
    ensures r.Success? ==> forall k :: 0 <= k < |r.value| ==>
      r.value[k].srcTx == "" && r.value[k].dstChainId == cfg.chainId &&
      exists i :: 0 <= i < |events.value| && r.value[k].dstTx == events.value[i].txHash
  {
    match events
    case Failure(e) => Failure(e)
    case Success(txs) =>
      ScanTxsHashes(cfg, height, txs);
      ScanTxsFlatten(cfg, height, txs);
      var parts := TxParts(cfg, height, txs);
      assert forall i :: 0 <= i < |txs| ==>
        Flatten(parts) == Flatten(parts[..i]) + TxRecords(cfg, height, txs[i]) + Flatten(parts[i + 1..]) by {
        forall i | 0 <= i < |txs| {
          FlattenAround(parts, i);
        }
      }
      Success(ScanTxs(cfg, height, txs))
  }

  /** The lists of `parts` one after the other. */
  function Flatten<T>(parts: seq<seq<T>>): seq<T> {
    if |parts| == 0 then [] else parts[0] + Flatten(parts[1..])
  }

  lemma {:induction false} FlattenAppend<T>(a: seq<seq<T>>, b: seq<seq<T>>)
    ensures Flatten(a + b) == Flatten(a) + Flatten(b)
  {
    if |a| > 0 {
      assert (a + b)[1..] == a[1..] + b;
      FlattenAppend(a[1..], b);
    } else {
      assert a + b == b;
    }
  }

  /** List `i` of `parts` sits between the lists before it and the lists after it. */
  lemma FlattenAround<T>(parts: seq<seq<T>>, i: nat)
    requires i < |parts|
    ensures Flatten(parts) == Flatten(parts[..i]) + parts[i] + Flatten(parts[i + 1..])
  {
    var before := parts[..i];
    var rest := parts[i..];
    assert parts == before + rest;
    FlattenAppend(before, rest);
    assert rest[1..] == parts[i + 1..];
    assert Flatten(rest) == parts[i] + Flatten(parts[i + 1..]);
    assert Flatten(before) + (parts[i] + Flatten(parts[i + 1..])) == Flatten(before) + parts[i] + Flatten(parts[i + 1..]);
  }

  /** The records of each transaction of a block, in block order. */
  function TxParts(cfg: Config, height: nat, txs: seq<TxEvents>): (parts: seq<seq<DstTx>>)
    ensures |parts| == |txs|
    ensures forall i :: 0 <= i < |txs| ==> parts[i] == TxRecords(cfg, height, txs[i])
  {
    seq(|txs|, i requires 0 <= i < |txs| => TxRecords(cfg, height, txs[i]))
  }

  /** The block's records are the transactions' records one after the other. */
  lemma {:induction false} ScanTxsFlatten(cfg: Config, height: nat, txs: seq<TxEvents>)
    ensures ScanTxs(cfg, height, txs) == Flatten(TxParts(cfg, height, txs))
  {
    if |txs| > 0 {
      ScanTxsFlatten(cfg, height, txs[1..]);
      assert TxParts(cfg, height, txs)[1..] == TxParts(cfg, height, txs[1..]);
    }
  }

  /** Every record of the block carries the hash of one of its transactions,
      the configured chain id, and no source hash. */
  lemma {:induction false} ScanTxsHashes(cfg: Config, height: nat, txs: seq<TxEvents>)
    ensures var recs := ScanTxs(cfg, height, txs);
      && |recs| == UnlockCount(cfg, txs)
      && forall k :: 0 <= k < |recs| ==>
        recs[k].srcTx == "" && recs[k].dstChainId == cfg.chainId &&
        exists i :: 0 <= i < |txs| && recs[k].dstTx == txs[i].txHash
  {
    if |txs| > 0 {
      ScanTxsHashes(cfg, height, txs[1..]);
      var here := TxRecords(cfg, height, txs[0]);
      var rest := ScanTxs(cfg, height, txs[1..]);
      var recs := ScanTxs(cfg, height, txs);
      assert recs == here + rest;
      forall k | 0 <= k < |recs|
        ensures recs[k].srcTx == "" && recs[k].dstChainId == cfg.chainId
        ensures exists i :: 0 <= i < |txs| && recs[k].dstTx == txs[i].txHash
      {
        if k < |here| {
          assert recs[k] == here[k];
          assert recs[k].dstTx == txs[0].txHash;
        } else {
          assert recs[k] == rest[k - |here|];
          var i :| 0 <= i < |txs[1..]| && rest[k - |here|].dstTx == txs[1..][i].txHash;
          assert recs[k].dstTx == txs[i + 1].txHash;
        }
      }
    }
  }

  /** A transaction holding a manager unlock and then a single proxy unlock
      yields exactly one record, correlated with the manager unlock. */
  lemma SingleUnlockIsCorrelated(cfg: Config, height: nat, tx: TxEvents, c: Notify, u: Notify)
    requires tx.notify == [c, u]
    requires Classify(cfg, c).CcmUnlock? && Classify(cfg, u).ProxyUnlock?
    ensures |TxRecords(cfg, height, tx)| == 1
    ensures CorrelatedWith(TxRecords(cfg, height, tx)[0], CandidateOf(Classify(cfg, c), height))
  {
    assert tx.notify[1..] == [u];
    assert tx.notify[1..][1..] == [];
    assert ProxyUnlocks(cfg, tx.notify) == [Classify(cfg, u)];
    assert FirstCcmAt(cfg, tx.notify, 0);
  }

  /** A transaction holding a manager unlock and two proxy unlocks yields two
      records, neither correlated: the candidate is dropped as ambiguous. */
  lemma TwoUnlocksAreUncorrelated(cfg: Config, height: nat, tx: TxEvents, c: Notify, u1: Notify, u2: Notify)
    requires tx.notify == [c, u1, u2]
    requires Classify(cfg, c).CcmUnlock? && Classify(cfg, u1).ProxyUnlock? && Classify(cfg, u2).ProxyUnlock?
    ensures |TxRecords(cfg, height, tx)| == 2
    ensures forall k :: 0 <= k < 2 ==> Uncorrelated(TxRecords(cfg, height, tx)[k])
  {
    var ns := tx.notify;
    assert ns[1..] == [u1, u2];
    assert ns[1..][1..] == [u2];
    assert ns[1..][1..][1..] == [];
    assert ProxyUnlocks(cfg, ns[1..][1..]) == [Classify(cfg, u2)];
    assert ProxyUnlocks(cfg, ns[1..]) == [Classify(cfg, u1), Classify(cfg, u2)];
    assert ProxyUnlocks(cfg, ns) == [Classify(cfg, u1), Classify(cfg, u2)];
  }

  /** A manager unlock whose transaction holds no proxy unlock yields no record. */
  lemma CandidateAloneIsNotEmitted(cfg: Config, height: nat, tx: TxEvents, c: Notify)
    requires tx.notify == [c]
    requires Classify(cfg, c).CcmUnlock?
    ensures TxRecords(cfg, height, tx) == []
  {
    assert tx.notify[1..] == [];
  }

  /** A block without transactions scans to nothing. */
  lemma ScanEmptyBlock(cfg: Config, height: nat)
    ensures Scan(cfg, height, Success([])) == Success([])
  {
  }

  /** `OntValidator.Validate`: an explicit placeholder that accepts every record. */
  function Validate(tx: DstTx): (r: Outcome<Error>)
    ensures r == Pass
  {
    Pass
  }
}
