/** The ledger that a chain of blocks stands for, as plain sets and maps.  What the chain store keeps
    on disk is a representation of such a ledger; see `ChainStores`. */
module Ledgers {
  import opened Core

  /** A stored transaction with the height of its block. */
  datatype TxRecord = TxRecord(tx: Tx, height: uint32)

  /** A block as it is stored: the header and the hashes of its transactions. */
  datatype TrimmedBlock = TrimmedBlock(header: Header, txHashes: seq<Uint256>)

  datatype Tip = Tip(hash: Uint256, height: int)

  datatype Ledger = Ledger(
    headers: map<Uint256, TrimmedBlock>,
    blockHashes: map<int, Uint256>,
    txs: map<Uint256, TxRecord>,
    assets: map<Uint256, Asset>,
    mainchain: set<Uint256>,
    unspent: set<OutPoint>,
    tip: Option<Tip>)

  const EMPTY := Ledger(map[], map[], map[], map[], {}, {}, None)

  // ----- What the transactions of a block do -----

  function TxHashes(txs: seq<Tx>): seq<Uint256> {
    seq(|txs|, i requires 0 <= i < |txs| => txs[i].hash)
  }

  ghost function HashSet(txs: seq<Tx>): set<Uint256> {
    set i | 0 <= i < |txs| :: txs[i].hash
  }

  /** Only these kinds of transactions touch the unspent outputs at all. */
  predicate MovesValue(tx: Tx) {
    !tx.kind.RegisterAsset?
  }

  ghost function OutsUpTo(tx: Tx, n: nat): set<OutPoint> {
    if !MovesValue(tx) then {}
    else set i: nat | i < n && i < |tx.outputs| && i < 0x1_0000 :: OutPoint(tx.hash, i)
  }

  ghost function Outs(tx: Tx): set<OutPoint> {
    OutsUpTo(tx, |tx.outputs|)
  }

  ghost function CreatedBy(txs: seq<Tx>): set<OutPoint> {
    if txs == [] then {} else Outs(txs[0]) + CreatedBy(txs[1..])
  }

  /** What the inputs of a transaction refer to. */
  ghost function InputsOfTx(tx: Tx): seq<OutPoint> {
    seq(|tx.inputs|, i requires 0 <= i < |tx.inputs| => tx.inputs[i].previous)
  }

  /** The outputs that a transaction spends. */
  ghost function SpentBy(tx: Tx): seq<OutPoint> {
    if !MovesValue(tx) || tx.kind.CoinBase? then [] else InputsOfTx(tx)
  }

  ghost function InputsOf(txs: seq<Tx>): seq<OutPoint> {
    if txs == [] then [] else SpentBy(txs[0]) + InputsOf(txs[1..])
  }

  ghost function ToSet<T>(s: seq<T>): set<T> {
    set x | x in s
  }

  ghost function PutTxs(m: map<Uint256, TxRecord>, txs: seq<Tx>, height: uint32): map<Uint256, TxRecord> {
    if txs == [] then m
    else var last := |txs| - 1; PutTxs(m, txs[..last], height)[txs[last].hash := TxRecord(txs[last], height)]
  }

  ghost function PutAssets(m: map<Uint256, Asset>, txs: seq<Tx>): map<Uint256, Asset> {
    if txs == [] then m
    else
      var last := |txs| - 1;
      var m' := PutAssets(m, txs[..last]);
      if txs[last].kind.RegisterAsset? then m'[txs[last].hash := txs[last].kind.asset] else m'
  }

  /** The main chain transactions that a block recharges from, in order. */
  ghost function Recharged(txs: seq<Tx>): seq<Option<Uint256>> {
    if txs == [] then []
    else
      var last := |txs| - 1;
      Recharged(txs[..last]) + if txs[last].kind.RechargeToSideChain? then [txs[last].kind.mainchainTx] else []
  }

  ghost function RechargedSet(txs: seq<Tx>): set<Uint256> {
    set r | r in Recharged(txs) && r.Some? :: r.value
  }

  // ----- Extending a ledger by a block -----

  ghost function UnspentAfter(unspent: set<OutPoint>, txs: seq<Tx>): set<OutPoint> {
    unspent - ToSet(InputsOf(txs)) + CreatedBy(txs)
  }

  ghost function Apply(l: Ledger, b: Block): Ledger {
    Ledger(
      l.headers[b.header.hash := TrimmedBlock(b.header, TxHashes(b.txs))],
      l.blockHashes[b.header.height := b.header.hash],
      PutTxs(l.txs, b.txs, b.header.height),
      PutAssets(l.assets, b.txs),
      l.mainchain + RechargedSet(b.txs),
      UnspentAfter(l.unspent, b.txs),
      Some(Tip(b.header.hash, b.header.height)))
  }

  /** The transactions are new to the ledger and distinct, and their outputs can be numbered with 16 bits. */
  ghost predicate FreshTxs(l: Ledger, txs: seq<Tx>) {
    && NoDup(TxHashes(txs))
    && (forall i :: 0 <= i < |txs| ==> txs[i].hash !in l.txs)
    && (forall i :: 0 <= i < |txs| ==> |txs[i].outputs| <= 0x1_0000)
  }

  /** Spending the outputs one after the other always finds the next one unspent. */
  ghost predicate Spendable(unspent: set<OutPoint>, ops: seq<OutPoint>) {
    ops == [] || (ops[0] in unspent && Spendable(unspent - {ops[0]}, ops[1..]))
  }

  ghost predicate FreshRecharges(l: Ledger, txs: seq<Tx>) {
    && NoDup(Recharged(txs))
    && forall r :: r in Recharged(txs) ==> r.Some? && r.value !in l.mainchain
  }

  /** The block is new and above everything in the ledger. */
  ghost predicate OnTop(l: Ledger, b: Block) {
    && b.header.hash !in l.headers
    && (l.tip.Some? ==> l.tip.value.height < b.header.height)
  }

  /** Everything but the spending of outputs. */
  ghost predicate FreshBlock(l: Ledger, b: Block) {
    FreshTxs(l, b.txs) && FreshRecharges(l, b.txs) && OnTop(l, b)
  }

  /** The block spends distinct unspent outputs. */
  ghost predicate Writable(l: Ledger, b: Block) {
    Spendable(l.unspent, InputsOf(b.txs))
  }

  ghost predicate ValidNext(l: Ledger, b: Block) {
    FreshBlock(l, b) && Writable(l, b)
  }

  ghost predicate InRange(txs: map<Uint256, TxRecord>, op: OutPoint) {
    op.txId in txs && op.index < |txs[op.txId].tx.outputs|
  }

  ghost predicate WellFormed(l: Ledger) {
    && (forall op :: op in l.unspent ==> InRange(l.txs, op))
    && (forall h :: h in l.txs ==> l.txs[h].tx.hash == h)
    && l.assets.Keys <= l.txs.Keys
    && (forall h :: h in l.blockHashes ==> l.tip.Some? && 0 <= h <= l.tip.value.height)
    && (l.tip.Some? ==> l.tip.value.height >= 0)
  }

  // ----- The ledger of a chain -----

  ghost function LedgerOf(chain: seq<Block>): Ledger {
    if chain == [] then EMPTY else Apply(LedgerOf(chain[..|chain| - 1]), chain[|chain| - 1])
  }

  ghost predicate ValidChain(chain: seq<Block>) {
    chain == [] || (ValidChain(chain[..|chain| - 1]) && ValidNext(LedgerOf(chain[..|chain| - 1]), chain[|chain| - 1]))
  }

  /** Each block is the child of the one before it, from height zero. */
  ghost predicate Contiguous(chain: seq<Block>) {
    && (chain != [] ==> chain[0].header.height == 0)
    && forall i :: 1 <= i < |chain| ==>
         chain[i].header.previous == chain[i - 1].header.hash && chain[i].header.height == chain[i - 1].header.height + 1
  }

  /** The blocks that reach the store when the blocks of a chain are saved one after the other: a
      block that spends what is not there is passed over. */
  ghost function Persisted(chain: seq<Block>): seq<Block> {
    if chain == [] then []
    else
      var init, b := Persisted(chain[..|chain| - 1]), chain[|chain| - 1];
      if Writable(LedgerOf(init), b) then init + [b] else init
  }

  // ----- Properties of the pieces -----

  lemma {:induction false} ConcatAssoc<T>(a: seq<T>, b: seq<T>, c: seq<T>)
    ensures a + (b + c) == a + b + c
  {
  }

  lemma {:induction false} InputsOfConcat(a: seq<Tx>, b: seq<Tx>)
    ensures InputsOf(a + b) == InputsOf(a) + InputsOf(b)
  {
    hide SpentBy;
    if a == [] {
      assert a + b == b;
    } else {
      InputsOfConcat(a[1..], b);
      assert (a + b)[1..] == a[1..] + b && (a + b)[0] == a[0];
      assert InputsOf(a + b) == SpentBy(a[0]) + (InputsOf(a[1..]) + InputsOf(b));
      ConcatAssoc(SpentBy(a[0]), InputsOf(a[1..]), InputsOf(b));
    }
  }

  lemma {:induction false} CreatedByConcat(a: seq<Tx>, b: seq<Tx>)
    ensures CreatedBy(a + b) == CreatedBy(a) + CreatedBy(b)
  {
    if a == [] {
      assert a + b == b;
    } else {
      CreatedByConcat(a[1..], b);
      assert (a + b)[1..] == a[1..] + b;
    }
  }

  lemma {:induction false} OneMore(txs: seq<Tx>, n: nat)
    requires n < |txs|
    ensures InputsOf(txs[..n + 1]) == InputsOf(txs[..n]) + SpentBy(txs[n])
    ensures CreatedBy(txs[..n + 1]) == CreatedBy(txs[..n]) + Outs(txs[n])
    ensures InputsOf(txs[n..]) == SpentBy(txs[n]) + InputsOf(txs[n + 1..])
  {
    assert txs[..n + 1] == txs[..n] + [txs[n]];
    InputsOfConcat(txs[..n], [txs[n]]);
    CreatedByConcat(txs[..n], [txs[n]]);
    assert InputsOf([txs[n]]) == SpentBy(txs[n]) + InputsOf([]);
    assert CreatedBy([txs[n]]) == Outs(txs[n]) + CreatedBy([]);
    assert txs[n..][1..] == txs[n + 1..];
  }

  lemma {:induction false} CreatedByTx(txs: seq<Tx>, op: OutPoint)
    ensures op in CreatedBy(txs) <==> exists i :: 0 <= i < |txs| && op in Outs(txs[i])
  {
    if txs != [] {
      CreatedByTx(txs[1..], op);
      if i :| 0 <= i < |txs| && op in Outs(txs[i]) {
        assert i > 0 ==> op in Outs(txs[1..][i - 1]);
      }
      if i :| 0 <= i < |txs[1..]| && op in Outs(txs[1..][i]) {
        assert op in Outs(txs[i + 1]);
      }
    }
  }

  lemma {:induction false} SpendableConcat(u: set<OutPoint>, a: seq<OutPoint>, b: seq<OutPoint>)
    ensures Spendable(u, a + b) <==> Spendable(u, a) && Spendable(u - ToSet(a), b)
  {
    if a == [] {
      assert a + b == b && u - ToSet(a) == u;
    } else {
      SpendableConcat(u - {a[0]}, a[1..], b);
      assert (a + b)[1..] == a[1..] + b;
      assert u - ToSet(a) == u - {a[0]} - ToSet(a[1..]);
    }
  }

  /** Spending in turn succeeds exactly when the outputs are distinct and all unspent at the start. */
  lemma {:induction false} SpendableMeans(u: set<OutPoint>, ops: seq<OutPoint>)
    ensures Spendable(u, ops) <==> NoDup(ops) && ToSet(ops) <= u
  {
    if ops != [] {
      SpendableMeans(u - {ops[0]}, ops[1..]);
      assert ops == [ops[0]] + ops[1..];
      if NoDup(ops) {
        assert forall i :: 0 <= i < |ops[1..]| ==> ops[1..][i] == ops[i + 1] != ops[0];
      }
      if NoDup(ops[1..]) && ops[0] !in ops[1..] {
        forall i, j | 0 <= i < j < |ops| ensures ops[i] != ops[j] {
          assert ops[j] == ops[1..][j - 1];
          assert i > 0 ==> ops[i] == ops[1..][i - 1];
        }
      }
      assert ToSet(ops) == {ops[0]} + ToSet(ops[1..]);
    }
  }

  lemma {:induction false} PutTxsKeys(m: map<Uint256, TxRecord>, txs: seq<Tx>, height: uint32)
    ensures PutTxs(m, txs, height).Keys == m.Keys + HashSet(txs)
    ensures forall h :: h in m && h !in HashSet(txs) ==> PutTxs(m, txs, height)[h] == m[h]
    ensures NoDup(TxHashes(txs)) ==> forall i :: 0 <= i < |txs| ==> PutTxs(m, txs, height)[txs[i].hash] == TxRecord(txs[i], height)
  {
    if txs != [] {
      var last := |txs| - 1;
      var init := txs[..last];
      PutTxsKeys(m, init, height);
      assert HashSet(txs) == HashSet(init) + {txs[last].hash} by {
        assert forall i :: 0 <= i < last ==> txs[i] == init[i];
      }
      if NoDup(TxHashes(txs)) {
        assert forall i :: 0 <= i < last ==> TxHashes(init)[i] == TxHashes(txs)[i];
        forall i | 0 <= i < |txs| ensures PutTxs(m, txs, height)[txs[i].hash] == TxRecord(txs[i], height) {
          if i < last {
            assert TxHashes(txs)[i] != TxHashes(txs)[last];
            assert init[i] == txs[i];
          }
        }
      }
    }
  }

  lemma {:induction false} PutAssetsKeys(m: map<Uint256, Asset>, txs: seq<Tx>)
    ensures m.Keys <= PutAssets(m, txs).Keys <= m.Keys + HashSet(txs)
    ensures forall h :: h in m && h !in HashSet(txs) ==> PutAssets(m, txs)[h] == m[h]
  {
    if txs != [] {
      var last := |txs| - 1;
      PutAssetsKeys(m, txs[..last]);
      assert HashSet(txs) == HashSet(txs[..last]) + {txs[last].hash} by {
        assert forall i :: 0 <= i < last ==> txs[i] == txs[..last][i];
      }
    }
  }

  lemma {:induction false} ApplyWellFormed(l: Ledger, b: Block)
    requires WellFormed(l) && ValidNext(l, b)
    ensures WellFormed(Apply(l, b))
  {
    var l' := Apply(l, b);
    PutTxsKeys(l.txs, b.txs, b.header.height);
    PutAssetsKeys(l.assets, b.txs);
    forall op | op in l'.unspent ensures InRange(l'.txs, op) {
      if op in CreatedBy(b.txs) {
        CreatedByTx(b.txs, op);
        var i :| 0 <= i < |b.txs| && op in Outs(b.txs[i]);
        assert l'.txs[b.txs[i].hash] == TxRecord(b.txs[i], b.header.height);
      } else {
        assert InRange(l.txs, op);
        assert op.txId !in HashSet(b.txs);
      }
    }
    forall h | h in l'.txs ensures l'.txs[h].tx.hash == h {
      if h in HashSet(b.txs) {
        var i :| 0 <= i < |b.txs| && b.txs[i].hash == h;
        assert l'.txs[b.txs[i].hash] == TxRecord(b.txs[i], b.header.height);
      }
    }
  }

  lemma {:induction false} ChainWellFormed(chain: seq<Block>)
    requires ValidChain(chain)
    ensures WellFormed(LedgerOf(chain))
  {
    if chain != [] {
      var init := chain[..|chain| - 1];
      ChainWellFormed(init);
      ApplyWellFormed(LedgerOf(init), chain[|chain| - 1]);
    }
  }

  /** Taking back what a block did to the unspent outputs. */
  lemma {:induction false} UnspentUndone(l: Ledger, txs: seq<Tx>)
    requires WellFormed(l) && FreshTxs(l, txs) && Spendable(l.unspent, InputsOf(txs))
    ensures UnspentAfter(l.unspent, txs) - CreatedBy(txs) + ToSet(InputsOf(txs)) == l.unspent
    ensures CreatedBy(txs) !! l.unspent
  {
    SpendableMeans(l.unspent, InputsOf(txs));
    forall op | op in CreatedBy(txs) ensures op !in l.unspent {
      CreatedByTx(txs, op);
    }
  }
}
