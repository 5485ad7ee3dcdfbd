/** The values that the chain is made of. */
module Core {
  /** A 256-bit digest: block hashes, transaction hashes, asset ids. */
  type Uint256(==, !new)

  /** A program hash: the address that an output pays to. */
  type Uint168(==, !new)

  type uint16 = x: nat | x < 0x1_0000

  type uint32 = x: nat | x < 0x1_0000_0000

  type byte = x: nat | x < 0x100

  type Bytes = seq<byte>

  datatype Option<+T> = None | Some(value: T)

  datatype OutPoint = OutPoint(txId: Uint256, index: uint16)

  datatype Input = Input(previous: OutPoint, sequence: uint32)

  /** `value` is an amount in the smallest unit. */
  datatype Output = Output(assetId: Uint256, value: int, programHash: Uint168)

  datatype Asset = Asset(name: string, precision: nat)

  /** The transaction type together with the part of its payload that the chain store uses.  The
      main chain transaction inside a recharge payload may fail to decode. */
  datatype TxKind =
    | CoinBase
    | RegisterAsset(asset: Asset)
    | RechargeToSideChain(mainchainTx: Option<Uint256>)
    | RegisterIdentification(keys: seq<string>)
    | Transfer

  datatype Tx = Tx(hash: Uint256, kind: TxKind, inputs: seq<Input>, outputs: seq<Output>, lockTime: uint32)

  datatype Header = Header(hash: Uint256, previous: Uint256, merkleRoot: Uint256, timestamp: uint32, bits: uint32, height: uint32)

  datatype Block = Block(header: Header, txs: seq<Tx>)

  ghost predicate NoDup<T>(s: seq<T>) {
    forall i, j :: 0 <= i < j < |s| ==> s[i] != s[j]
  }
}
