/** Small chains on which things go wrong: a reorganisation that is aborted, and a block that the chain
    accepts and the store cannot write. */
module Witnesses {
  import opened Core
  import opened Words
  import opened Difficulty
  import opened HeaderChains
  import opened Ledgers
  import opened ChainStores
  import opened BlockValidator
  import opened Switching
  import opened Values
  import opened BlockRules
  import opened BlockTree
  import opened Blockchains

  /** A block at a height of the regression test network, with its height for a timestamp. */
  function BlockAt(hash: Uint256, previous: Uint256, height: uint32, txs: seq<Tx>): Block {
    Block(Header(hash, previous, hash, height, REGNET.powLimitBits, height), txs)
  }

  /** A coinbase that pays out nothing, as is right for a block without other transactions. */
  function Coinbase(hash: Uint256, emptyHash: Uint256, asset: Uint256, address: Uint168): Tx {
    Tx(hash, CoinBase, [Input(OutPoint(emptyHash, 0xffff), 0xffff_ffff)], [Output(asset, 0, address), Output(asset, 0, address)], 0)
  }

  // ----- Checks that these blocks pass -----

  lemma {:induction false} AllBelow(s: seq<nat>, x: nat)
    requires forall i :: 0 <= i < |s| ==> s[i] < x
    ensures Below(s, x) == |s|
  {
    if s != [] {
      AllBelow(s[1..], x);
    }
  }

  /** The median is not above every timestamp. */
  lemma {:induction false} MedianAtMost(chain: seq<Header>, t: nat)
    requires chain != [] && forall i :: 0 <= i < |chain| ==> chain[i].timestamp <= t
    ensures MedianTime(chain) <= t
  {
    hide Sort;
    var w := Window(chain);
    SortSorted(w);
    if MedianTime(chain) > t {
      BelowInSorted(Sort(w), |w| / 2, 0);
      AllBelow(w, MedianTime(chain));
    }
  }

  lemma {:induction false} RegnetRules(chain: seq<Header>, b: Block)
    requires chain != [] && forall i :: 0 <= i < |chain| ==> chain[i].timestamp < |chain| && chain[i].bits == REGNET.powLimitBits
    requires b.header.timestamp == |chain| && b.header.bits == REGNET.powLimitBits && AllFinalized(b.txs, |chain|)
    ensures ContextRules(REGNET, chain, b)
  {
    Networks();
    hide MedianTime, CompactToBig, ByteLen, Pow2;
    MedianAtMost(chain, |chain| - 1);
  }

  lemma {:induction false} TargetOk()
    ensures TargetInRange(REGNET.powLimitBits, REGNET.powLimit) && GoodParams(REGNET) && CompactToBig(REGNET.powLimitBits) >= 0
    ensures CalcWork(REGNET.powLimitBits) > 0
  {
    Networks();
    hide CompactToBig, ByteLen, Pow2, CalcWork;
    WorkIsPositive(REGNET.powLimitBits, REGNET.powLimit);
  }

  lemma {:induction false} OneCoinbase(tx: Tx, emptyHash: Uint256, asset: Uint256, address: Uint168, recharge: RechargeFees)
    requires tx == Coinbase(tx.hash, emptyHash, asset, address)
    ensures Sane([tx]) && Shaped([tx], asset) && (forall h: nat :: AllFinalized([tx], h)) && InputsOf([tx]) == []
    ensures forall txs :: RewardIsFees(txs, [tx], asset, recharge)
  {
    var txs, o := [tx], tx.outputs;
    assert txs[..0] == [] && txs[1..] == [];
    assert AllInputs(txs) == AllInputs([]) + InputsOfTx(tx);
    assert Recharged(txs) == Recharged([]) + [];
    assert o[..1] == [o[0]] && o[..1][..0] == [];
    assert SumValues(o) == SumValues(o[..1]) + 0 && SumValues(o[..1]) == SumValues([]) + 0;
  }

  lemma {:induction false} EmptyGenesis(genesis: Block)
    requires genesis.txs == []
    ensures ValidNext(EMPTY, genesis)
  {
  }

  // ----- A recharge that slips through -----

  /** A coinbase that pays out the fee of a recharge, and the recharge, whose input is not there: the
      block passes the checks on rewards, duplicates and transactions, and the store cannot write it. */
  lemma {:induction false} RechargeSlipsThrough(l: Ledger, b: Block, op: OutPoint, asset: Uint256, recharge: RechargeFees)
    requires |b.txs| == 2 && b.txs[0].kind.CoinBase? && b.txs[1].kind.RechargeToSideChain? && b.txs[1].kind.mainchainTx.Some?
    requires b.txs[0].hash != b.txs[1].hash && b.txs[0].hash !in l.txs && b.txs[1].hash !in l.txs && b.txs[1].kind.mainchainTx.value !in l.mainchain
    requires |b.txs[0].inputs| == 1 == |b.txs[1].inputs| && b.txs[1].inputs[0].previous == op != b.txs[0].inputs[0].previous && op !in l.unspent
    requires SumValues(b.txs[0].outputs) == Fee(l.txs, b.txs[1], asset, recharge)
    ensures RewardIsFees(l.txs, b.txs, asset, recharge) && NoDuplicates(b.txs) && AllOk(l, b.txs)
    ensures !RechargesSpendUnspent(l, b.txs) && !Writable(l, b)
  {
    hide Fee;
    var cb, tx, txs := b.txs[0], b.txs[1], b.txs;
    assert txs[..1] == [cb] && txs[..1][..0] == [] && txs[1..] == [tx] && txs[1..][1..] == [];
    assert FeesUpTo(l.txs, txs, asset, recharge, 2) == FeesUpTo(l.txs, txs, asset, recharge, 1) + Fee(l.txs, tx, asset, recharge);
    assert AllInputs(txs) == [cb.inputs[0].previous, op] by {
      assert AllInputs(txs[..1]) == AllInputs([]) + InputsOfTx(cb);
      assert AllInputs(txs) == AllInputs(txs[..1]) + InputsOfTx(tx);
    }
    assert Recharged(txs[..1]) == Recharged([]) && Recharged(txs) == Recharged(txs[..1]) + [tx.kind.mainchainTx];
    assert InputsOf(txs) == SpentBy(cb) + InputsOf(txs[1..]) && InputsOf(txs[1..]) == SpentBy(tx) + InputsOf([]);
    assert InputsOf(txs)[0] == op;
  }

  // ----- Chains of such blocks -----

  /** All blocks of the tree are of the form of this module. */
  ghost predicate Plain(c: Blockchain)
    reads c
  {
    && c.params == REGNET
    && forall n :: n in c.index.Values ==> n.block.header.timestamp == n.block.header.height && n.block.header.bits == REGNET.powLimitBits
  }

  lemma {:induction false} PlainFits(c: Blockchain, b: Block)
    requires c.Valid() && Plain(c) && b.header.previous in c.index && b.header.previous != c.emptyHash
    requires b.header.height == c.index[b.header.previous].height + 1 && b.header.timestamp == b.header.height && b.header.bits == REGNET.powLimitBits
    requires AllFinalized(b.txs, b.header.height)
    ensures c.Placed(b) && c.Expected(b) == c.ExpectedOn(c.store.Held(), c.State(), c.index[b.header.previous], b)
  {
    hide Blockchain.Marked, Blockchain.Cached, Blockchain.Stored, GoodParams, ContextRules, Blockchain.ExpectedOn, Blockchain.Vetted, Full, Tree, NodeOk, HeldAt;
    c.HeldNow();
    var prev := c.index[b.header.previous];
    var headers := HeadersOf(Blocks(Full(prev)));
    c.HeadersLinked(prev);
    forall i | 0 <= i < |headers| ensures headers[i].timestamp < |headers| && headers[i].bits == REGNET.powLimitBits {
      PathInTree(c.index.Values, c.root, prev, i);
    }
    RegnetRules(headers, b);
  }

  /** A node whose block names another node as its parent is linked to it. */
  lemma {:induction false} ParentIs(c: Blockchain, n: BlockNode, p: BlockNode)
    requires c.Valid() && n in c.index.Values && p in c.index.Values && n != c.root && n.block.header.previous == p.hash
    ensures n.parent == p && Full(n) == Full(p) + [n] && n.workSum == p.workSum + CalcWork(n.block.header.bits)
  {
    hide Blockchain.Marked, Blockchain.Cached, Blockchain.Stored, Blockchain.AllVetted, GoodParams, CalcWork;
    assert NodeOk(n);
    ByHash(c.index, n.parent);
    ByHash(c.index, p);
  }

  lemma {:induction false} NodeFacts(c: Blockchain, n: BlockNode)
    requires c.Valid() && n in c.index.Values
    ensures n.hash == n.block.header.hash && n.height == n.block.header.height
  {
    hide Blockchain.Marked, Blockchain.Cached, Blockchain.Stored, Blockchain.AllVetted, GoodParams, Tree, NodeOk;
    c.SameHeader(n);
  }

  lemma {:induction false} CoinbaseIsOk(others: OtherChecks, l: Ledger, b: Block, emptyHash: Uint256, asset: Uint256, address: Uint168)
    requires |b.txs| == 1 && b.txs[0] == Coinbase(b.txs[0].hash, emptyHash, asset, address)
    ensures Passes(others, l, b) <==> b.txs[0].hash !in l.txs
  {
    if b.txs[0].hash !in l.txs {
      assert TxPasses(others, l, b.txs[0]);
    } else {
      assert !TxPasses(others, l, b.txs[0]);
    }
  }

  /** Two blocks with the same coinbase are not both connected. */
  lemma {:induction false} SecondFails(others: OtherChecks, l: Ledger, a: Block, b: Block, emptyHash: Uint256, asset: Uint256, address: Uint168, recharge: RechargeFees)
    requires |a.txs| == 1 && a.txs == b.txs && a.txs[0] == Coinbase(a.txs[0].hash, emptyHash, asset, address)
    ensures Connects(others, l, [a, b]) != 2
  {
    hide Passes, LedgerOf;
    OneCoinbase(a.txs[0], emptyHash, asset, address, recharge);
    assert a.txs == [a.txs[0]];
    var l' := Next(l, a);
    assert Writable(l, a);
    PutTxsKeys(l.txs, a.txs, a.header.height);
    assert a.txs[0].hash in HashSet(a.txs);
    CoinbaseIsOk(others, l', b, emptyHash, asset, address);
    assert [a, b][1..] == [b];
    hide Next, Writable;
    assert Connects(others, l', [b]) == 0;
  }

  /** A chain that holds only a genesis block without transactions has none stored. */
  lemma {:induction false} NothingStored(c: Blockchain, genesis: Block)
    requires c.Valid() && c.Synced() && c.bestChain == c.root && c.root.block == genesis && genesis.txs == []
    ensures c.store.Held().txs == map[] && c.store.Held().unspent == {} && c.store.Held().mainchain == {} && c.Main() == [genesis]
    ensures c.root.height == 0 && c.root.hash == genesis.header.hash
  {
    hide Blockchain.Marked, Blockchain.Cached, GoodParams, Written, Passed, Represents, CompactToBig, ContextRules, ValidChain, Sane, TargetInRange;
    RootOnPath(c.index.Values, c.root, c.bestChain);
    assert NodeOk(c.root) && c.Vetted(c.root);
    assert Full(c.root) == [c.root];
    assert c.Main() == [genesis];
    assert [genesis][..0] == [] && LedgerOf([]) == EMPTY;
    assert LedgerOf([genesis]) == Apply(EMPTY, genesis);
  }

  lemma {:induction false} FirstExtends(c: Blockchain, genesis: Block, b: Block, address: Uint168, recharge: RechargeFees)
    requires c.Valid() && c.Synced() && Plain(c) && c.bestChain == c.root && c.root.block == genesis && genesis.txs == []
    requires c.index == map[genesis.header.hash := c.root] && genesis.header.hash != c.emptyHash
    requires b == BlockAt(b.header.hash, genesis.header.hash, 1, b.txs)
    requires |b.txs| == 1 && b.txs[0] == Coinbase(b.txs[0].hash, c.emptyHash, c.asset, address)
    ensures c.Checked(b) && c.Expected(b) == Extended
  {
    hide Blockchain.Valid, Passes, GoodParams, CompactToBig, Sane, Shaped, AllFinalized;
    NothingStored(c, genesis);
    TargetOk();
    OneCoinbase(b.txs[0], c.emptyHash, c.asset, address, recharge);
    assert b.txs == [b.txs[0]];
    CoinbaseIsOk(c.others, c.store.Held(), b, c.emptyHash, c.asset, address);
    PlainFits(c, b);
  }

  /** The chain after the genesis block and one block on it. */
  method ExtendGenesis(genesis: Block, b: Block, others: OtherChecks, asset: Uint256, emptyHash: Uint256, address: Uint168, recharge: RechargeFees)
    returns (c: Blockchain)
    requires genesis == BlockAt(genesis.header.hash, emptyHash, 0, []) && genesis.header.hash != emptyHash
    requires b == BlockAt(b.header.hash, genesis.header.hash, 1, b.txs) && b.header.hash != genesis.header.hash
    requires |b.txs| == 1 && b.txs[0] == Coinbase(b.txs[0].hash, emptyHash, asset, address)
    ensures fresh(c) && fresh(c.store) && fresh(c.index.Values) && c.Valid() && Plain(c)
    ensures c.others == others && c.asset == asset && c.emptyHash == emptyHash
    ensures c.bestChain.block == b && c.index.Keys == {genesis.header.hash, b.header.hash} && c.index[genesis.header.hash] == c.root
    ensures c.root.block == genesis
  {
    hide Blockchain.Valid, Blockchain.Expected, HeldAt, Blockchain.Checked, ValidNext, GoodParams, CompactToBig;
    hide Next, Blockchain.WorkAfter, Blockchain.MissedKept, SyncedAt, Coinbase, TargetInRange, CalcWork;
    EmptyGenesis(genesis);
    TargetOk();
    c := new Blockchain.Init(genesis, REGNET, others, asset, emptyHash);
    assert c.index.Values == {c.root} by {
      assert c.index[genesis.header.hash] == c.root;
    }
    FirstExtends(c, genesis, b, address, recharge);
    ghost var index := c.index;
    var outcome := c.MaybeAcceptBlock(b);
    StaysPlain(c, index, b);
  }

  lemma {:induction false} StaysPlain(c: Blockchain, index: map<Uint256, BlockNode>, b: Block)
    requires GrewBy(index, b, c.index) && c.params == REGNET && b == BlockAt(b.header.hash, b.header.previous, b.header.height, b.txs)
    requires forall n :: n in index.Values ==> n.block.header.timestamp == n.block.header.height && n.block.header.bits == REGNET.powLimitBits
    ensures Plain(c)
  {
    forall n | n in c.index.Values ensures n.block.header.timestamp == n.block.header.height && n.block.header.bits == REGNET.powLimitBits {
      var h :| h in c.index && c.index[h] == n;
      if h != b.header.hash {
        assert index[h] == n;
      }
    }
  }

  // ----- An aborted reorganisation -----

  /** A genesis block, a block on it, and a branch of two blocks beside that one, the second of which
      repeats the coinbase of the first: the branch has more work, and moving to it is aborted. */
  method AbortedReorganisation(genesis: Block, a: Block, b1: Block, b2: Block, others: OtherChecks, asset: Uint256, emptyHash: Uint256,
                               address: Uint168, recharge: RechargeFees) returns (c: Blockchain, first: Outcome, second: Outcome)
    requires genesis == BlockAt(genesis.header.hash, emptyHash, 0, [])
    requires a == BlockAt(a.header.hash, genesis.header.hash, 1, a.txs) && b1 == BlockAt(b1.header.hash, genesis.header.hash, 1, b1.txs)
    requires b2 == BlockAt(b2.header.hash, b1.header.hash, 2, b1.txs)
    requires NoDup([emptyHash, genesis.header.hash, a.header.hash, b1.header.hash, b2.header.hash])
    requires |a.txs| == 1 && a.txs[0] == Coinbase(a.txs[0].hash, emptyHash, asset, address)
    requires |b1.txs| == 1 && b1.txs[0] == Coinbase(b1.txs[0].hash, emptyHash, asset, address)
    ensures first == SideChain && second == Aborted && c.Valid() && !MostWork(c.index.Values, c.bestChain)
  {
    hide Blockchain.Valid, Blockchain.Expected, HeldAt, Blockchain.Checked, Passes, GoodParams, CompactToBig;
    ghost var hashes := [emptyHash, genesis.header.hash, a.header.hash, b1.header.hash, b2.header.hash];
    assert hashes[0] != hashes[1] && hashes[1] != hashes[2] && hashes[2] != hashes[3] && hashes[1] != hashes[3] && hashes[0] != hashes[3];
    assert hashes[4] != hashes[1] && hashes[4] != hashes[2] && hashes[4] != hashes[3];
    c := ExtendGenesis(genesis, a, others, asset, emptyHash, address, recharge);
    SideExpected(c, genesis, a, b1, address, recharge);
    ghost var index := c.index;
    first := c.MaybeAcceptBlock(b1);
    StaysPlain(c, index, b1);
    AbortExpected(c, genesis, a, b1, b2, address, recharge);
    second := c.MaybeAcceptBlock(b2);
  }

  lemma {:induction false} SideExpected(c: Blockchain, genesis: Block, a: Block, b: Block, address: Uint168, recharge: RechargeFees)
    requires c.Valid() && Plain(c) && c.root.block == genesis && c.bestChain.block == a && genesis.header.hash in c.index && c.index[genesis.header.hash] == c.root
    requires genesis.header.hash != c.emptyHash && a.header.hash != genesis.header.hash
    requires genesis.header.height == 0 && a == BlockAt(a.header.hash, genesis.header.hash, 1, a.txs) && b == BlockAt(b.header.hash, genesis.header.hash, 1, b.txs)
    requires |b.txs| == 1 && b.txs[0] == Coinbase(b.txs[0].hash, c.emptyHash, c.asset, address)
    ensures c.Checked(b) && c.Expected(b) == SideChain
  {
    hide Blockchain.Valid, Passes, GoodParams, CompactToBig, Sane, Shaped, AllFinalized, CalcWork, SwitchesTo;
    Tips(c, genesis, a);
    TargetOk();
    OneCoinbase(b.txs[0], c.emptyHash, c.asset, address, recharge);
    assert b.txs == [b.txs[0]];
    PlainFits(c, b);
  }

  /** The tip is a child of the root. */
  lemma {:induction false} Tips(c: Blockchain, genesis: Block, a: Block)
    requires c.Valid() && c.root.block == genesis && c.bestChain.block == a && genesis.header.hash in c.index && c.index[genesis.header.hash] == c.root
    requires a.header.hash != genesis.header.hash && a.header.previous == genesis.header.hash && genesis.header.height == 0
    ensures c.bestChain in c.index.Values && c.root in c.index.Values && c.bestChain != c.root && c.root.height == 0
    ensures c.bestChain.parent == c.root && Full(c.root) == [c.root] && Full(c.bestChain) == [c.root, c.bestChain]
    ensures c.bestChain.workSum == c.root.workSum + CalcWork(a.header.bits)
  {
    hide Blockchain.Marked, Blockchain.Cached, Blockchain.Stored, GoodParams, CalcWork, Blockchain.AllVetted;
    RootOnPath(c.index.Values, c.root, c.bestChain);
    assert NodeOk(c.root);
    ParentIs(c, c.bestChain, c.root);
  }

  lemma {:induction false} AbortExpected(c: Blockchain, genesis: Block, a: Block, b1: Block, b2: Block, address: Uint168, recharge: RechargeFees)
    requires c.Valid() && Plain(c) && c.root.block == genesis && c.bestChain.block == a && genesis.header.hash in c.index && c.index[genesis.header.hash] == c.root
    requires a.header.hash != genesis.header.hash && genesis.header.height == 0
    requires a == BlockAt(a.header.hash, genesis.header.hash, 1, a.txs) && b1 == BlockAt(b1.header.hash, genesis.header.hash, 1, b1.txs)
    requires b2 == BlockAt(b2.header.hash, b1.header.hash, 2, b1.txs)
    requires b1.header.hash in c.index && c.index[b1.header.hash].block == b1 && b1.header.hash != c.emptyHash && b1.header.hash != genesis.header.hash && b1.header.hash != a.header.hash
    requires |b1.txs| == 1 && b1.txs[0] == Coinbase(b1.txs[0].hash, c.emptyHash, c.asset, address)
    ensures c.Checked(b2) && c.Expected(b2) == Aborted
  {
    hide Blockchain.Valid, Passes, GoodParams, CompactToBig, Sane, Shaped, AllFinalized, CalcWork, Connects, Remains, ForkLedger;
    Tips(c, genesis, a);
    TargetOk();
    OneCoinbase(b1.txs[0], c.emptyHash, c.asset, address, recharge);
    assert b2.txs == [b1.txs[0]];
    var n := c.index[b1.header.hash];
    NodeFacts(c, n);
    NodeFacts(c, c.root);
    PlainFits(c, b2);
    ParentIs(c, n, c.root);
    var best := c.bestChain;
    assert Full(n) == [c.root, n];
    CommonLenIs(Full(best), Full(n), 1);
    assert Blocks(Full(n)[1..]) + [b2] == [b1, b2];
    SecondFails(c.others, ForkLedger(c.Main(), 1, c.store.db.current), b1, b2, c.emptyHash, c.asset, address, recharge);
  }

  // ----- A block that the store cannot write -----

  /** A block with a coinbase and a recharge of an input that does not exist becomes the tip, while
      the store stays at genesis.  From then on the chain rejects every block on the tip that carries the
      number after the height of the store, as all templates do. */
  method UnwrittenBlock(genesis: Block, b: Block, op: OutPoint, others: OtherChecks, asset: Uint256, emptyHash: Uint256, recharge: RechargeFees)
    returns (c: Blockchain, outcome: Outcome)
    requires genesis == BlockAt(genesis.header.hash, emptyHash, 0, []) && genesis.header.hash != emptyHash
    requires b == BlockAt(b.header.hash, genesis.header.hash, 1, b.txs) && b.header.hash != genesis.header.hash
    requires UnbackedRecharge(b.txs, op, others, asset, recharge)
    ensures outcome == Extended && c.Valid() && c.bestChain.block == b
    ensures !c.Synced() && c.store.Held().txs == map[] && RewardIsFees(map[], b.txs, asset, recharge)
    ensures c.bestChain.height == 1 && c.store.currentBlockHeight == 0
    ensures forall t: Block :: t.header.previous == c.bestChain.hash && t.header.height == c.store.currentBlockHeight + 1 ==> c.Expected(t) == Rejected
  {
    hide Blockchain.Valid, Blockchain.Expected, HeldAt, Blockchain.Checked, ValidNext, GoodParams, CompactToBig;
    hide Blockchain.WorkAfter, Blockchain.MissedKept, SyncedAt, TargetInRange, CalcWork, UnbackedRecharge, RewardIsFees, Writable, RechargesSpendUnspent;
    EmptyGenesis(genesis);
    TargetOk();
    c := new Blockchain.Init(genesis, REGNET, others, asset, emptyHash);
    assert c.index.Values == {c.root} by {
      assert c.index[genesis.header.hash] == c.root;
    }
    UnwrittenExpected(c, genesis, b, op, recharge);
    c.HeldNow();
    outcome := c.MaybeAcceptBlock(b);
    c.HeldNow();
    StoreHeight(c);
    StoreBelowTip(c);
  }

  lemma {:induction false} StoreHeight(c: Blockchain)
    requires c.Valid()
    ensures c.store.currentBlockHeight == HeightOf(c.store.Held().tip)
  {
    hide Blockchain.Marked, Blockchain.Cached, Blockchain.Linked, Blockchain.AllVetted, GoodParams, Persisted, Passed, Represents, Written, ValidChain, LedgerOf;
  }

  /** With the store below the tip, no block on the tip with the number after the height of the store
      has its place. */
  lemma {:induction false} StoreBelowTip(c: Blockchain)
    requires c.Valid() && c.store.currentBlockHeight != c.bestChain.height
    ensures forall t: Block :: t.header.previous == c.bestChain.hash && t.header.height == c.store.currentBlockHeight + 1 ==> c.Expected(t) == Rejected
  {
    hide Blockchain.Marked, Blockchain.Cached, Blockchain.Stored, Blockchain.AllVetted, GoodParams, Tree, NodeOk, Full, HeldAt, Blockchain.ExpectedOn;
    ByHash(c.index, c.bestChain);
  }

  /** A coinbase that pays out the fee of a recharge, and the recharge, with an input that nothing backs. */
  ghost predicate UnbackedRecharge(txs: seq<Tx>, op: OutPoint, others: OtherChecks, asset: Uint256, recharge: RechargeFees) {
    && |txs| == 2 && txs[0].kind.CoinBase? && txs[1].kind.RechargeToSideChain? && txs[1].kind.mainchainTx.Some?
    && txs[0].hash != txs[1].hash && |txs[0].inputs| == 1 == |txs[1].inputs|
    && txs[1].inputs[0].previous == op && op != txs[0].inputs[0].previous
    && SumValues(txs[0].outputs) == Fee(map[], txs[1], asset, recharge)
    && (forall i :: 0 <= i < |txs[0].outputs| ==> txs[0].outputs[i].assetId == asset)
    && |txs[0].outputs| <= 0x1_0000 && |txs[1].outputs| <= 0x1_0000
    && txs[1].lockTime == 0 && others(map[], 0, txs[1])
  }

  lemma {:induction false} UnwrittenExpected(c: Blockchain, genesis: Block, b: Block, op: OutPoint, recharge: RechargeFees)
    requires c.Valid() && c.Synced() && Plain(c) && c.bestChain == c.root && c.root.block == genesis
    requires genesis == BlockAt(genesis.header.hash, c.emptyHash, 0, []) && c.index == map[genesis.header.hash := c.root] && genesis.header.hash != c.emptyHash
    requires b == BlockAt(b.header.hash, genesis.header.hash, 1, b.txs) && UnbackedRecharge(b.txs, op, c.others, c.asset, recharge)
    ensures c.Checked(b) && c.Expected(b) == Extended && RewardIsFees(map[], b.txs, c.asset, recharge)
    ensures !RechargesSpendUnspent(c.store.Held(), b.txs) && !Writable(c.store.Held(), b) && c.store.Held().txs == map[] && HeightOf(c.store.Held().tip) == 0
  {
    hide Blockchain.Valid, GoodParams, CompactToBig, NoDuplicates, RewardIsFees, RechargesSpendUnspent, Writable, Fee, SumValues, LedgerOf, AllOk, Passes;
    NothingStored(c, genesis);
    TargetOk();
    var l := c.store.Held();
    RechargeSlipsThrough(l, b, op, c.asset, recharge);
    CurrentIsGenesis(c, genesis);
    UnbackedPasses(c.others, l, b, op, c.asset, recharge);
    UnbackedShape(b.txs, op, c.others, c.asset, recharge);
    hide UnbackedRecharge, Sane, Shaped, AllFinalized, TargetInRange, CalcWork, SwitchesTo;
    PlainFits(c, b);
  }

  lemma {:induction false} UnbackedShape(txs: seq<Tx>, op: OutPoint, others: OtherChecks, asset: Uint256, recharge: RechargeFees)
    requires UnbackedRecharge(txs, op, others, asset, recharge) && NoDuplicates(txs)
    ensures Sane(txs) && Shaped(txs, asset) && AllFinalized(txs, 1)
  {
    hide Fee, SumValues, NoDuplicates;
  }

  lemma {:induction false} UnbackedPasses(others: OtherChecks, l: Ledger, b: Block, op: OutPoint, asset: Uint256, recharge: RechargeFees)
    requires UnbackedRecharge(b.txs, op, others, asset, recharge) && AllOk(l, b.txs) && l.txs == map[] && HeightOf(l.tip) == 0
    ensures Passes(others, l, b)
  {
    hide Fee, SumValues, TxOk;
    forall i | 0 <= i < |b.txs| ensures TxPasses(others, l, b.txs[i]) {
      assert TxOk(l, b.txs[i]);
    }
  }

  lemma {:induction false} CurrentIsGenesis(c: Blockchain, genesis: Block)
    requires c.Valid() && c.Synced() && c.Main() == [genesis] && genesis.header.height == 0
    ensures HeightOf(c.store.Held().tip) == 0
  {
    hide Blockchain.Marked, Blockchain.Cached, Blockchain.Linked, Blockchain.AllVetted, GoodParams, Persisted, Passed, Represents, Written, ValidChain;
    PersistedAll(c.Main());
  }
}
