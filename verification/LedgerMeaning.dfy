/** What the ledger of a chain holds, said of the blocks and transactions of the chain themselves. */
module LedgerMeaning {
  import opened Core
  import opened Ledgers
  import opened BlockValidator

  // ----- Outputs that are created and spent -----

  predicate Creates(tx: Tx, op: OutPoint) {
    !tx.kind.RegisterAsset? && op.txId == tx.hash && op.index < |tx.outputs|
  }

  ghost predicate Spends(tx: Tx, op: OutPoint) {
    !tx.kind.CoinBase? && !tx.kind.RegisterAsset? && exists k :: 0 <= k < |tx.inputs| && tx.inputs[k].previous == op
  }

  ghost predicate BlockCreates(b: Block, op: OutPoint) {
    exists t :: 0 <= t < |b.txs| && Creates(b.txs[t], op)
  }

  ghost predicate BlockSpends(b: Block, op: OutPoint) {
    exists t :: 0 <= t < |b.txs| && Spends(b.txs[t], op)
  }

  ghost predicate CreatedIn(chain: seq<Block>, op: OutPoint) {
    exists i :: 0 <= i < |chain| && BlockCreates(chain[i], op)
  }

  ghost predicate SpentIn(chain: seq<Block>, op: OutPoint) {
    exists i :: 0 <= i < |chain| && BlockSpends(chain[i], op)
  }

  lemma {:induction false} CreatedByBlock(b: Block, op: OutPoint)
    ensures op in CreatedBy(b.txs) <==> BlockCreates(b, op)
  {
    CreatedByTx(b.txs, op);
    if op in CreatedBy(b.txs) {
      var t :| 0 <= t < |b.txs| && op in Outs(b.txs[t]);
      assert Creates(b.txs[t], op);
    }
    if BlockCreates(b, op) {
      var t :| 0 <= t < |b.txs| && Creates(b.txs[t], op);
      assert op in Outs(b.txs[t]);
    }
  }

  lemma {:induction false} SpentByBlock(b: Block, op: OutPoint)
    ensures op in InputsOf(b.txs) <==> BlockSpends(b, op)
  {
    if op in InputsOf(b.txs) {
      InputsFrom(b.txs, op);
      var t :| 0 <= t < |b.txs| && op in SpentBy(b.txs[t]);
      var k :| 0 <= k < |SpentBy(b.txs[t])| && SpentBy(b.txs[t])[k] == op;
      assert b.txs[t].inputs[k].previous == op;
      assert Spends(b.txs[t], op);
    }
    if BlockSpends(b, op) {
      var t :| 0 <= t < |b.txs| && Spends(b.txs[t], op);
      var k :| 0 <= k < |b.txs[t].inputs| && b.txs[t].inputs[k].previous == op;
      assert SpentBy(b.txs[t])[k] == op;
      SpentFrom(b.txs, t, op);
    }
  }

  lemma {:induction false} LastOrBefore(chain: seq<Block>, op: OutPoint)
    requires chain != []
    ensures var last := |chain| - 1;
      && (CreatedIn(chain, op) <==> CreatedIn(chain[..last], op) || BlockCreates(chain[last], op))
      && (SpentIn(chain, op) <==> SpentIn(chain[..last], op) || BlockSpends(chain[last], op))
  {
    hide BlockCreates, BlockSpends;
    var last := |chain| - 1;
    assert forall i :: 0 <= i < last ==> chain[..last][i] == chain[i];
  }

  /** A valid last block creates outputs of new transactions and spends unspent ones of known ones. */
  lemma {:induction false} LastBlock(chain: seq<Block>, op: OutPoint)
    requires ValidChain(chain) && chain != []
    ensures var l, b := LedgerOf(chain[..|chain| - 1]), chain[|chain| - 1];
      && ValidChain(chain[..|chain| - 1])
      && (BlockCreates(b, op) ==> op.txId !in l.txs && op !in l.unspent)
      && (BlockSpends(b, op) ==> op in l.unspent)
      && (op in l.unspent ==> op.txId in l.txs)
      && (op in LedgerOf(chain).unspent <==> (op in l.unspent && !BlockSpends(b, op)) || BlockCreates(b, op))
      && LedgerOf(chain).txs.Keys == l.txs.Keys + HashSet(b.txs)
  {
    var l, b := LedgerOf(chain[..|chain| - 1]), chain[|chain| - 1];
    ChainWellFormed(chain[..|chain| - 1]);
    SpendableMeans(l.unspent, InputsOf(b.txs));
    CreatedByBlock(b, op);
    SpentByBlock(b, op);
    PutTxsKeys(l.txs, b.txs, b.header.height);
    hide Spendable, InputsOf, CreatedBy, PutTxs, PutAssets, BlockSpends, ValidChain;
    if BlockCreates(b, op) {
      var t :| 0 <= t < |b.txs| && Creates(b.txs[t], op);
    }
  }

  /** What was spent or created belongs to a known transaction. */
  lemma {:induction false} Known(chain: seq<Block>, op: OutPoint)
    requires ValidChain(chain) && (CreatedIn(chain, op) || SpentIn(chain, op))
    ensures op.txId in LedgerOf(chain).txs
  {
    if chain != [] {
      LastOrBefore(chain, op);
      LastBlock(chain, op);
      hide LedgerOf, ValidChain, CreatedIn, SpentIn, BlockSpends;
      var last := |chain| - 1;
      if CreatedIn(chain[..last], op) || SpentIn(chain[..last], op) {
        Known(chain[..last], op);
      } else if BlockCreates(chain[last], op) {
        var t :| 0 <= t < |chain[last].txs| && Creates(chain[last].txs[t], op);
        assert op.txId in HashSet(chain[last].txs);
      }
    }
  }

  /** An output is unspent after a chain if and only if a transaction of the chain created it and none
      spent it. */
  lemma {:induction false} UnspentMeans(chain: seq<Block>, op: OutPoint)
    requires ValidChain(chain)
    ensures op in LedgerOf(chain).unspent <==> CreatedIn(chain, op) && !SpentIn(chain, op)
  {
    if chain != [] {
      var last := |chain| - 1;
      LastOrBefore(chain, op);
      LastBlock(chain, op);
      hide LedgerOf, ValidChain, CreatedIn, SpentIn, BlockCreates, BlockSpends;
      UnspentMeans(chain[..last], op);
      if BlockCreates(chain[last], op) && SpentIn(chain[..last], op) {
        Known(chain[..last], op);
      }
    }
  }

  // ----- Blocks, transactions, assets and recharges -----

  /** The entries for one block of a chain and for its transactions. */
  ghost predicate Entered(l: Ledger, b: Block) {
    && b.header.hash in l.headers && l.headers[b.header.hash] == TrimmedBlock(b.header, TxHashes(b.txs))
    && b.header.height in l.blockHashes && l.blockHashes[b.header.height] == b.header.hash
    && forall t :: 0 <= t < |b.txs| ==> TxEntered(l, b.txs[t], b.header.height)
  }

  ghost predicate TxEntered(l: Ledger, tx: Tx, height: uint32) {
    && tx.hash in l.txs && l.txs[tx.hash] == TxRecord(tx, height)
    && (tx.kind.RegisterAsset? ==> tx.hash in l.assets && l.assets[tx.hash] == tx.kind.asset)
    && (tx.kind.RechargeToSideChain? && tx.kind.mainchainTx.Some? ==> tx.kind.mainchainTx.value in l.mainchain)
  }

  lemma {:induction false} AssetsPut(m: map<Uint256, Asset>, txs: seq<Tx>, t: nat)
    requires t < |txs| && txs[t].kind.RegisterAsset? && NoDup(TxHashes(txs))
    ensures txs[t].hash in PutAssets(m, txs) && PutAssets(m, txs)[txs[t].hash] == txs[t].kind.asset
  {
    var last := |txs| - 1;
    if t < last {
      assert TxHashes(txs)[t] != TxHashes(txs)[last];
      assert TxHashes(txs[..last]) == TxHashes(txs)[..last];
      assert NoDup(TxHashes(txs[..last]));
      AssetsPut(m, txs[..last], t);
    }
  }

  lemma {:induction false} RechargePut(txs: seq<Tx>, t: nat)
    requires t < |txs| && txs[t].kind.RechargeToSideChain?
    ensures txs[t].kind.mainchainTx in Recharged(txs)
  {
    if t < |txs| - 1 {
      RechargePut(txs[..|txs| - 1], t);
    }
  }

  lemma {:induction false} LastEntered(l: Ledger, b: Block)
    requires FreshTxs(l, b.txs)
    ensures Entered(Apply(l, b), b)
  {
    PutTxsKeys(l.txs, b.txs, b.header.height);
    hide PutTxs, PutAssets, Recharged, UnspentAfter, FreshTxs;
    forall t | 0 <= t < |b.txs| ensures TxEntered(Apply(l, b), b.txs[t], b.header.height) {
      EachEntered(l, b, t);
    }
  }

  lemma {:induction false} EachEntered(l: Ledger, b: Block, t: nat)
    requires FreshTxs(l, b.txs) && t < |b.txs|
    ensures TxEntered(Apply(l, b), b.txs[t], b.header.height)
  {
    PutTxsKeys(l.txs, b.txs, b.header.height);
    assert b.txs[t].hash in HashSet(b.txs);
    if b.txs[t].kind.RegisterAsset? {
      AssetsPut(l.assets, b.txs, t);
    }
    if b.txs[t].kind.RechargeToSideChain? {
      RechargePut(b.txs, t);
    }
  }

  /** A valid block takes nothing away that was entered before. */
  lemma {:induction false} StaysEntered(l: Ledger, b: Block, earlier: Block)
    requires WellFormed(l) && ValidNext(l, b) && Entered(l, earlier)
    ensures Entered(Apply(l, b), earlier)
  {
    PutTxsKeys(l.txs, b.txs, b.header.height);
    PutAssetsKeys(l.assets, b.txs);
    hide PutTxs, PutAssets, Recharged, UnspentAfter, Writable;
    assert earlier.header.height != b.header.height;
    forall t | 0 <= t < |earlier.txs| ensures TxEntered(Apply(l, b), earlier.txs[t], earlier.header.height) {
      assert TxEntered(l, earlier.txs[t], earlier.header.height);
      assert earlier.txs[t].hash !in HashSet(b.txs);
    }
  }

  /** Every block of a chain and all that its transactions bring are in the ledger of the chain. */
  lemma {:induction false} AllEntered(chain: seq<Block>, i: nat)
    requires ValidChain(chain) && i < |chain|
    ensures Entered(LedgerOf(chain), chain[i])
  {
    hide Entered, FreshRecharges, Writable, Apply;
    var last := |chain| - 1;
    if i == last {
      LastEntered(LedgerOf(chain[..last]), chain[last]);
    } else {
      AllEntered(chain[..last], i);
      ChainWellFormed(chain[..last]);
      StaysEntered(LedgerOf(chain[..last]), chain[last], chain[i]);
    }
  }

  ghost predicate HasTx(chain: seq<Block>, tx: Tx) {
    exists i :: 0 <= i < |chain| && tx in chain[i].txs
  }

  ghost predicate HasAsset(chain: seq<Block>, hash: Uint256) {
    exists tx :: HasTx(chain, tx) && tx.kind.RegisterAsset? && tx.hash == hash
  }

  ghost predicate HasRecharge(chain: seq<Block>, r: Uint256) {
    exists tx :: HasTx(chain, tx) && tx.kind == RechargeToSideChain(Some(r))
  }

  lemma {:induction false} MoreTxs(chain: seq<Block>, tx: Tx)
    requires chain != []
    ensures HasTx(chain, tx) <==> HasTx(chain[..|chain| - 1], tx) || tx in chain[|chain| - 1].txs
  {
    var last := |chain| - 1;
    assert forall i :: 0 <= i < last ==> chain[..last][i] == chain[i];
  }

  lemma {:induction false} MoreTxsAll(chain: seq<Block>)
    requires chain != []
    ensures forall tx :: HasTx(chain, tx) <==> HasTx(chain[..|chain| - 1], tx) || tx in chain[|chain| - 1].txs
  {
    hide HasTx;
    forall tx ensures HasTx(chain, tx) <==> HasTx(chain[..|chain| - 1], tx) || tx in chain[|chain| - 1].txs {
      MoreTxs(chain, tx);
    }
  }

  lemma {:induction false} AssetsFrom(m: map<Uint256, Asset>, txs: seq<Tx>, hash: Uint256)
    requires hash in PutAssets(m, txs)
    ensures hash in m || exists tx :: tx in txs && tx.kind.RegisterAsset? && tx.hash == hash
  {
    if txs != [] {
      var last := |txs| - 1;
      if txs[last].kind.RegisterAsset? && txs[last].hash == hash {
        assert txs[last] in txs;
      } else {
        AssetsFrom(m, txs[..last], hash);
      }
    }
  }

  lemma {:induction false} RechargesFrom(txs: seq<Tx>, r: Uint256)
    requires Some(r) in Recharged(txs)
    ensures exists tx :: tx in txs && tx.kind == RechargeToSideChain(Some(r))
  {
    var last := |txs| - 1;
    if txs[last].kind == RechargeToSideChain(Some(r)) {
      assert txs[last] in txs;
    } else {
      RechargesFrom(txs[..last], r);
    }
  }

  /** Every block, height and transaction in the ledger of a chain is one of the chain, */
  lemma {:induction false} NoOtherBlocks(chain: seq<Block>, hash: Uint256)
    ensures hash in LedgerOf(chain).headers <==> exists i :: 0 <= i < |chain| && chain[i].header.hash == hash
  {
    if chain != [] {
      hide PutTxs, PutAssets, UnspentAfter, RechargedSet, TxHashes;
      var last := |chain| - 1;
      NoOtherBlocks(chain[..last], hash);
      assert LedgerOf(chain).headers.Keys == LedgerOf(chain[..last]).headers.Keys + {chain[last].header.hash};
      hide LedgerOf;
      assert forall i :: 0 <= i < last ==> chain[..last][i] == chain[i];
    }
  }

  lemma {:induction false} NoOtherHeights(chain: seq<Block>, height: int)
    ensures height in LedgerOf(chain).blockHashes <==> exists i :: 0 <= i < |chain| && chain[i].header.height == height
  {
    if chain != [] {
      hide PutTxs, PutAssets, UnspentAfter, RechargedSet, TxHashes;
      var last := |chain| - 1;
      NoOtherHeights(chain[..last], height);
      assert LedgerOf(chain).blockHashes.Keys == LedgerOf(chain[..last]).blockHashes.Keys + {chain[last].header.height as int};
      hide LedgerOf;
      assert forall i :: 0 <= i < last ==> chain[..last][i] == chain[i];
    }
  }

  lemma {:induction false} NoOtherTxs(chain: seq<Block>, hash: Uint256)
    ensures hash in LedgerOf(chain).txs <==> exists tx :: HasTx(chain, tx) && tx.hash == hash
  {
    hide PutAssets, UnspentAfter, RechargedSet, HasTx;
    if chain != [] {
      var last := |chain| - 1;
      var b := chain[last];
      NoOtherTxs(chain[..last], hash);
      MoreTxsAll(chain);
      PutTxsKeys(LedgerOf(chain[..last]).txs, b.txs, b.header.height);
      assert hash in HashSet(b.txs) <==> exists tx :: tx in b.txs && tx.hash == hash by {
        if hash in HashSet(b.txs) {
          var t :| 0 <= t < |b.txs| && b.txs[t].hash == hash;
          assert b.txs[t] in b.txs;
        }
      }
      hide PutTxs, HashSet;
    } else {
      NoTxs();
    }
  }

  lemma {:induction false} NoTxs()
    ensures forall tx :: !HasTx([], tx)
  {
  }

  /** and so is every registered asset and every recharge. */
  lemma {:induction false} NoOtherAssets(chain: seq<Block>, hash: Uint256)
    requires hash in LedgerOf(chain).assets
    ensures HasAsset(chain, hash)
  {
    hide PutTxs, UnspentAfter, RechargedSet, HasTx;
    var last := |chain| - 1;
    MoreTxsAll(chain);
    AssetsFrom(LedgerOf(chain[..last]).assets, chain[last].txs, hash);
    hide PutAssets;
    if hash in LedgerOf(chain[..last]).assets {
      NoOtherAssets(chain[..last], hash);
    }
  }

  lemma {:induction false} NoOtherRecharges(chain: seq<Block>, r: Uint256)
    requires r in LedgerOf(chain).mainchain
    ensures HasRecharge(chain, r)
  {
    hide PutTxs, UnspentAfter, PutAssets, HasTx;
    var last := |chain| - 1;
    MoreTxsAll(chain);
    if r in LedgerOf(chain[..last]).mainchain {
      NoOtherRecharges(chain[..last], r);
    } else {
      assert r in RechargedSet(chain[last].txs);
      RechargesFrom(chain[last].txs, r);
    }
  }
}
