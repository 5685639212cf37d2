# poly-validator validation core in Dafny

This project models the validation core of the poly-validator bridge monitor. The monitor scans newly produced blocks for unlocks, meaning funds released on a destination chain. It then correlates each unlock with the cross-chain manager (CCM) event that executed it. Finally it checks that a matching lock exists on the source chain. The model has three parts:

- **Codec** (`codec.dfy`, from `validator/util.go`) covers these functions:
  - `HexReverse` reverses a byte string.
  - `HexStringReverse` decodes hex, reverses the bytes and re-encodes the result as lower-case hex.
  - `ParseInt` reads an amount. Under the type tag `"Integer"` it reads base 10. Under any other tag it reads little-endian hex.

  The module also models the Go library routines that the validators rely on:
  - `hex.DecodeString` and `hex.EncodeToString`, called by `HexStringReverse` (`validator/util.go:47-49`), by the EVM `Scan` (`validator/eth.go:83-84`) and by the Ontology `Scan` (`validator/ont.go:85`).
  - `big.Int.SetString` in base 10 and base 16, called by `ParseInt` (`validator/util.go:30-32`) and by the Ontology `Scan` for unlock amounts (`validator/ont.go:87`).
  - `big.Int.String`, which writes the amount into the EVM `Validate` failure message (`validator/eth.go:148`).
  - `strings.ToLower`, which the EVM `Scan` applies to asset and recipient (`validator/eth.go:99-100`).
- **EVM adapter** (`eth.dfy`, from `validator/eth.go`) has two operations:
  - `Scan` builds a table keyed by destination transaction hash from the CCM's `VerifyHeaderAndExecuteTx` events. If two events share a hash, the last one wins. `Scan` then emits one record per lock proxy `Unlock` event, in configuration order and then event order. A record takes its provenance from the table when the table holds its hash.
  - `Validate` looks up the receipt of the record's source transaction. It then searches the proxies' `Lock` events at that height, in order, for an exact (amount, recipient, destination chain, asset) match.
- **Account-model (Ontology) adapter** (`ont.dfy`, from `validator/ont.go`) has two operations:
  - `Scan` first classifies each notification of a transaction. It keeps the first `verifyToOntProof` notification of the cross-chain manager as the transaction's candidate. Each proxy notification whose hex-decoded method is `unlock` becomes a record, and its amount falls back to 0 when it cannot be parsed. The candidate is applied only when the transaction holds exactly one unlock.
  - `Validate` always succeeds.

`records.dfy` holds the shared record (`DstTx`) and the error value. `wrappers.dfy` holds `Option`, `Result` and `Outcome`.

Every node query is an input to the model. The CCM and unlock filter queries are each either an event list or an error. The receipt lookup is a function from the source hash to a height or an error. Each proxy's lock query is a function from a height to an event list or an error. The Ontology block query is either the per-transaction notification lists or an error.

Behaviour that is easy to misread:

- Asset and recipient texts: `Scan` drops the first two characters and lower-cases the rest (`validator/eth.go:98-100`). It does not parse or normalise the text.
- CCM method name: the Ontology CCM method is compared raw, not decoded (`validator/ont.go:69-70`). Only the proxy method is hex-decoded (`validator/ont.go:84-86`).
- `ParseInt`: it returns nothing (a nil `*big.Int`) on a parse failure. It does not substitute 0; only the Ontology unlock amount does that (`validator/ont.go:87-91`).
- Malformed hex: `HexStringReverse` reverses whatever prefix of valid digit pairs `hex.DecodeString` decodes. It never fails, and it returns the empty string only when no complete valid digit pair starts the input.

## Model

| member | source | states |
|---|---|---|
| `Codec.HexReverse` | validator/util.go:37-44 | The result has the input's length, and its byte `i` is input byte `len-1-i`. |
| `Codec.HexReverseInvolution` | validator/util.go:37-44 | Reversing twice returns the original bytes. |
| `Codec.HexEncode` | validator/util.go:49 | Hex encoding writes two lower-case digits per byte, and digit pair `k` reads back as byte `k`. |
| `Codec.HexDecode` | validator/util.go:47 | `hex.DecodeString` keeping the bytes decoded before any error: at most one byte per two characters, and exactly one per pair on valid even-length hex. |
| `Codec.HexDecodePairs` | validator/util.go:47 | Decoded byte `k` is the value of digit pair `k` of the input, in either case. |
| `Codec.HexDecodeStops` | validator/util.go:47 | Decoding stops only at a pair holding a non-hex character, or at a trailing odd character. |
| `Codec.DecodeEncode` | validator/util.go:47-49 | Decoding the encoding of any byte string gives the bytes back. |
| `Codec.EncodeDecode` | validator/util.go:47-49 | Encoding the decoding of valid even-length hex gives the text back, lower-cased. |
| `Codec.HexStringReverse` | validator/util.go:46-50 | The output is even-length lower-case hex. It decodes to the reversal of the bytes decoded from the input. On valid hex it has the input's length. |
| `Codec.HexStringReverseInvolution` | validator/util.go:46-50 | On valid even-length hex, applying the function twice gives the input lower-cased, so the involution holds only up to case. |
| `Codec.HexStringReverseLowerInvolution` | validator/util.go:46-50 | On valid lower-case hex, applying the function twice gives the input exactly. |
| `Codec.HexStringReverseEmpty` | validator/util.go:46-50 | The empty string maps to the empty string. |
| `Codec.HexValueOfReversal` | validator/util.go:31-32 | The reversed bytes' hex, read in base 16, equals the little-endian value of the bytes, that is the sum of `b[i]*256^i`. |
| `Codec.ParseLittleEndianHex` | validator/util.go:32 | `SetString(HexStringReverse(v), 16)` yields a value iff at least one byte decodes. The value is then the little-endian value of the decoded bytes. |
| `Codec.DecimalText` | validator/eth.go:148 | `big.Int.String` writes non-empty decimal digits with no leading zero, and their positional value is the number. |
| `Codec.ParseInt` | validator/util.go:27-35 | Under "Integer" it yields a value iff the text is non-empty decimal digits, and the value is their positional value. Under any other tag it yields a value iff a byte decodes, and the value is then the little-endian value of the decoded bytes. |
| `Codec.ParseIntDecimalRoundTrip` | validator/util.go:29-30 | The decimal text of any amount parses back to the amount under "Integer". |
| `Codec.ParseIntHexRoundTrip` | validator/util.go:31-32 | Under a non-"Integer" tag, the hex of any non-empty byte string parses to the bytes' little-endian value. |
| `Codec.ParseIntExamples` | validator/util.go:27-35 | "0100" gives 100 under "Integer" and 1 as hex. The empty string in hex mode gives nothing, and "12a" under "Integer" gives nothing. |
| `Eth.ProvenanceOf` | validator/eth.go:81-86 | A CCM table entry keeps the event's source chain and block number. Its source and relay hashes are the byte-reversed hex of the event's hash bytes. |
| `Eth.CcmTable` | validator/eth.go:76-87 | The table's keys are exactly the CCM events' destination hashes, with "0x" dropped, and each hash maps to the entry of the last CCM event that carries it. |
| `Eth.UnlockRecord` | validator/eth.go:95-109 | The record of one unlock event: its hash without "0x", the configured chain id, asset and recipient lower-cased, the amount, and the table's provenance for its hash if there is an entry, none otherwise. |
| `Eth.ScanProxies` | validator/eth.go:89-112 | If any unlock query fails, the result is the first failing query's error. Otherwise it has one record per unlock event, in proxy order and then event order. Each record takes its payload from its event and its provenance from the table. |
| `Eth.Scan` | validator/eth.go:64-115 | A failed CCM query is returned unchanged. Otherwise it behaves like `ScanProxies` over the CCM table of the height. |
| `Eth.ScanCorrelation` | validator/eth.go:103-109 | A record whose hash is carried by some CCM event takes its source chain and height from the last such event. Its source and relay hashes are that event's hashes, byte-reversed. A record whose hash no CCM event carries is left uncorrelated. |
| `Eth.ScanWithoutUnlocks` | validator/eth.go:89-112 | With no unlock events the scan is empty, whatever CCM events exist. |
| `Eth.ScanExample` | validator/eth.go:64-115 | Worked scan: a CCM event from chain 2 with hashes aabb/ccdd, plus an unlock of 500 in transaction 0x1234, gives one record. It is correlated and holds the asset and user lower-cased. |
| `Eth.Validate` | validator/eth.go:117-150 | A failed receipt lookup is returned unchanged. Otherwise the first proxy whose lock query fails or holds an exact 4-tuple match decides the result. A failed query returns its error and a match returns success. If no proxy decides, the result is the no-match error. |
| `Eth.DecidesPassIff` | validator/eth.go:129-146 | Validation succeeds iff some proxy, reached without an earlier query failing or matching, holds a lock with equal amount, recipient, chain id and asset. |
| `Eth.DecidesUnique` | validator/eth.go:129-149 | The search has exactly one outcome. |
| `Eth.NoMatchError` | validator/eth.go:148 | The failure message starts with "Failed to validate tx " and holds the record's source hash, recipient and asset at their places. It ends with the amount in decimal, which parses back to the amount. |
| `Ont.IsProxyContract` | validator/ont.go:49-56 | True iff the address equals one of the configured proxy addresses. |
| `Ont.Classify` | validator/ont.go:67-101 | A CCM notification counts iff its raw method is "verifyToOntProof". A notification from a configured proxy that is not the CCM counts iff its hex-decoded method is "unlock". Each kind carries the matching state fields. |
| `Ont.ProxyMethodEitherCase` | validator/ont.go:84-86 | The proxy method is hex text, and both "756e6c6f636b" and "756E6C6F636B" decode to "unlock". |
| `Ont.CcmContractIsNotProxy` | validator/ont.go:67-82 | A CCM notification is never a proxy unlock, even when the CCM address is also listed as a proxy. |
| `Ont.UnlockAmount` | validator/ont.go:87-91 | The amount is the little-endian value of the decoded amount bytes. It is 0 when nothing decodes, so it is never absent. |
| `Ont.CandidateOf` | validator/ont.go:71-75 | A CCM unlock offers its source chain id, the scan height, and the relay hash as even-length lower-case hex that decodes to the byte-reversed relay hash bytes. |
| `Ont.UnlockRecord` | validator/ont.go:87-99 | A proxy unlock's record holds the tx hash, the configured chain id, the asset, the recipient and the little-endian amount, and no provenance. |
| `Ont.Step` | validator/ont.go:66-101 | One notification adds at most one record at the end and keeps the records before it. It adds one iff the notification is a proxy unlock. The candidate changes only when there was none and the notification is a CCM unlock, and it then becomes that unlock's candidate. |
| `Ont.Gather` | validator/ont.go:63-102 | The notification loop keeps the first CCM unlock as the candidate, with no candidate iff there is none. It yields one record per proxy unlock, in notification order. |
| `Ont.TxRecords` | validator/ont.go:103-114 | A transaction gives one record per proxy unlock, holding the tx hash, the configured chain id, the asset, the recipient and the fail-open amount, and never a source hash. The first CCM candidate is applied iff there is exactly one unlock; otherwise every record stays uncorrelated. |
| `Ont.ScanTxs` | validator/ont.go:63-115 | The block gives as many records as it has proxy unlocks. |
| `Ont.ScanTxsFlatten` | validator/ont.go:63-115 | The block's records are the records of each transaction, one transaction after the other in block order. |
| `Ont.FlattenAround` | validator/ont.go:107-114 | In such a concatenation, the records of transaction `i` sit right after those of the transactions before it and right before those of the transactions after it. |
| `Ont.ScanTxsHashes` | validator/ont.go:63-115 | Every record carries the hash of one of the block's transactions, the configured chain id and no source hash. |
| `Ont.Scan` | validator/ont.go:58-117 | A failed block query is returned unchanged. Otherwise there is one record per proxy unlock in the block. The records of transaction `i` are exactly that transaction's records as `TxRecords` gives them, placed after the records of the transactions before it and before those of the transactions after it. So each record has its own transaction's hash, payload, fail-open amount and ambiguity rule. |
| `Ont.SingleUnlockIsCorrelated` | validator/ont.go:103-113 | A CCM unlock followed by one proxy unlock gives exactly one record, correlated with that CCM unlock. |
| `Ont.TwoUnlocksAreUncorrelated` | validator/ont.go:103-106 | A CCM unlock followed by two proxy unlocks gives two records, both uncorrelated. |
| `Ont.CandidateAloneIsNotEmitted` | validator/ont.go:103-114 | A CCM unlock with no proxy unlock gives no record. |
| `Ont.ScanEmptyBlock` | validator/ont.go:58-117 | A block without transactions scans to an empty list. |
| `Ont.Validate` | validator/ont.go:119-121 | Every record validates. |

## Left out

- `Setup` and `LatestHeight` of both adapters (`validator/eth.go:42-62`, `validator/ont.go:39-47`) are left out. They make node connections and bind contracts through external SDKs.
- The RPC calls are inputs rather than models: the filter queries, `TransactionReceipt` and `GetSmartContractEventByBlock`. Go's iterators can stop early on a decoding error that the code never checks; the event lists stand for whatever the iterators yield.
- The `logs.*` calls are diagnostics only and are left out. This includes the log line for a second CCM unlock and the one for an invalid amount.
- The `Format` display types and methods (`validator/util.go:52-142`) are left out. They are presentation for the alerting sink.
- go-ethereum's `Hash` and `Address` `.String()` rendering and checksum casing are not modelled. They appear as opaque text that carries a two-character "0x" prefix.
- `common.HexToHash(tx.SrcTx)` is not modelled. The receipt lookup is keyed by the record's source hash text directly.
- The width conversions are not modelled, because every height and chain id is a `nat` input. These are `uint64(data.BlockNumber.Int64())` (`validator/eth.go:122`), `uint32(height)` (`validator/ont.go:59`) and the float64-to-uint64 conversion of the source chain id (`validator/ont.go:72`).
- The file that declares `DstTx` and `ChainConfig` is not part of this model. The record's fields are taken from their uses in the adapters.
- Polling, orchestration and any concurrency between adapters are left out.
- `Codec.ParseInt`: `big.Int.SetString` also accepts a leading "+" or "-". The model uses `nat` amounts and digits only, so a signed text yields nothing here.
- `Codec.ToLower`: this is ASCII lower-casing. Go's `strings.ToLower` also maps non-ASCII letters; the model does not.
- `Ont.Classify`: when a notification's state list has the wrong shape, the Go code panics on a type assertion or an index, and the model classifies the notification as unrecognized and skips it. The wrong shapes are an empty list, a non-list, too few elements, or an element of the wrong type.
- `Eth.Validate`: lock events' asset and recipient are raw byte strings in Go. They are compared as opaque text, exactly as given, and the model does not relate them to the hex text in records.
