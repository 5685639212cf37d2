/** The cross-chain transaction record every chain adapter produces, and the
    error value adapters pass back. */
module Records {

  /** One unlock seen on a destination chain (the Go `DstTx`).
      `amount`, `dstTx`, `dstChainId`, `dstAsset` and `to` always come from the
      proxy unlock; `srcChainId`, `srcTx`, `polyTx` and `dstHeight` are filled
      in only when the unlock was correlated with a cross-chain-manager event,
      and are zero or empty otherwise. */
  datatype DstTx = DstTx(
    srcChainId: nat,
    srcTx: string,
    polyTx: string,
    dstHeight: nat,
    dstTx: string,
    dstChainId: nat,
    dstAsset: string,
    to: string,
    amount: nat
  )

  /** A Go `error`: the RPC layer's errors are carried through unchanged, and
      the validator builds its own with a message. */
  datatype Error = Error(message: string)

  /** The provenance fields of a record that has not been correlated. */
  predicate Uncorrelated(r: DstTx) {
    r.srcChainId == 0 && r.srcTx == "" && r.polyTx == "" && r.dstHeight == 0
  }
}
