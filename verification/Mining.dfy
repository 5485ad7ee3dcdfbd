/** Templates for new blocks, and what the chain makes of them. */
module Mining {
  import opened Core
  import opened Difficulty
  import opened Ledgers
  import opened ChainStores
  import opened BlockValidator
  import opened Switching
  import opened Values
  import opened HeaderChains
  import opened BlockRules
  import opened BlockTree
  import opened Blockchains
  import opened BlockProcessing
  import opened BlockTemplates

  /** A block that names the tip as its parent, carries the number after the height of the store, obeys
      the rules for its place and pays out its fees. */
  ghost predicate Template(c: Blockchain, recharge: RechargeFees, t: Block)
    reads c, c.store
  {
    && t.header.previous == c.bestChain.hash && t.header.height == c.store.currentBlockHeight + 1
    && ContextRules(c.params, HeadersOf(c.Main()), t)
    && NoDuplicates(t.txs) && Shaped(t.txs, c.asset) && RewardIsFees(c.store.db.txs, t.txs, c.asset, recharge)
  }

  /** The store is as high as the tip. */
  ghost predicate StoreAtTip(c: Blockchain)
    reads c, c.store
  {
    c.store.currentBlockHeight == c.bestChain.height
  }

  // ----- The miner -----

  /** What a chain has for the miner: its headers, and a store that is not ahead of the tip. */
  lemma {:induction false} MinerInput(c: Blockchain)
    requires c.Valid()
    ensures c.Linked() && c.bestChain in c.index.Values && GoodParams(c.params)
    ensures var headers := HeadersOf(c.Main());
      && HeaderChains.Linked(headers) && |headers| == c.bestChain.height + 1
      && headers[|headers| - 1].hash == c.bestChain.hash && CompactToBig(headers[|headers| - 1].bits) >= 0
    ensures c.store.currentBlockHeight <= c.bestChain.height
  {
    hide GoodParams, Blockchain.Marked, Blockchain.Cached, Blockchain.Vetted, Full, Tree, NodeOk, ChainStore.Valid, LedgerOf, Persisted, Written, Passed, CompactToBig;
    c.HeadersLinked(c.bestChain);
    c.TargetNotNegative(c.bestChain);
    c.LastHeader(c.bestChain);
    c.SameHeader(c.bestChain);
    FullEnds(c.bestChain);
  }

  /** Builds a template on the chain as it is. */
  method GenerateOn(c: Blockchain, cfg: Config, recharge: RechargeFees, share: int -> int, ghost pool: seq<PoolTx>, s: seq<PoolTx>,
                    coinbaseHash: Uint256, placeholder: OutPoint, coinbaseSize: nat, now: nat, hash: Uint256, merkleRoot: Uint256)
    returns (t: Block)
    requires c.Valid() && c.bestChain.height + 1 < 0x1_0000_0000 && cfg.asset == c.asset && cfg.maxTxInBlock >= 1
    requires now < 0x1_0000_0000 && MedianTime(HeadersOf(c.Main())) + 1 < 0x1_0000_0000
    requires PoolOk(pool, placeholder) && Sorted(s, pool) && forall i :: 0 <= i < |pool| ==> pool[i].tx.hash != coinbaseHash
    ensures Template(c, recharge, t) && t.header.hash == hash && t.txs[0].hash == coinbaseHash
    ensures forall i :: 1 <= i < |t.txs| ==> InPool(pool, t.txs[i])
    ensures SplitsReward(cfg, share, SumFees(Context(c.store.db.txs, c.asset, c.store.currentBlockHeight + 1), recharge, t.txs[1..]), t.txs[0].outputs)
  {
    hide Blockchain.Valid, GoodParams, CompactToBig, MedianTime, ContextRules, PoolOk, Sorted, FillsUp, HeaderChains.Linked, NoDuplicates, RewardIsFees, Shaped, InPool, Full, Tree, NodeOk;
    MinerInput(c);
    var headers := c.HeadersUpTo(c.bestChain);
    var k;
    t, k := GenerateBlock(cfg, c.params, headers, c.store.currentBlockHeight, c.store.db.txs, recharge, share, pool, s, coinbaseHash, placeholder,
                          coinbaseSize, now, hash, merkleRoot);
  }

  // ----- The validator -----

  /** A template has its place in the tree if and only if the store is as high as the tip. */
  lemma {:induction false} TemplatePlaced(c: Blockchain, recharge: RechargeFees, t: Block)
    requires c.Valid() && Template(c, recharge, t)
    ensures c.Placed(t) <==> StoreAtTip(c) && c.bestChain.hash != c.emptyHash
    ensures c.bestChain.hash in c.index && c.index[c.bestChain.hash] == c.bestChain
  {
    hide GoodParams, ContextRules, Blockchain.Marked, Blockchain.Cached, Blockchain.Stored, Blockchain.AllVetted, Full, Tree, NodeOk, NoDuplicates, Shaped, RewardIsFees;
    ByHash(c.index, c.bestChain);
  }

  /** It then extends the tip if and only if its transactions pass their checks, and is rejected
      otherwise. */
  lemma {:induction false} TemplateExpected(c: Blockchain, recharge: RechargeFees, t: Block)
    requires c.Valid() && Template(c, recharge, t)
    ensures c.Expected(t) ==
              if !StoreAtTip(c) || c.bestChain.hash == c.emptyHash then Rejected
              else if c.ContextOk(t) then Extended
              else Refused
  {
    hide Blockchain.Valid, HeldAt, ContextRules, Passes, NoDuplicates, Shaped, RewardIsFees;
    TemplatePlaced(c, recharge, t);
    hide Blockchain.PlacedIn;
    c.HeldNow();
  }

  /** The store is as high as the tip whenever it has the block of the tip. */
  lemma {:induction false} AtTipWhenWritten(c: Blockchain)
    requires c.Valid() && c.TipWritten()
    ensures StoreAtTip(c)
  {
    hide GoodParams, Blockchain.Marked, Blockchain.Cached, Blockchain.AllVetted, Full, Tree, NodeOk, LedgerOf, Persisted, Written, Passed, Represents, ValidChain;
    c.SameHeader(c.bestChain);
    FullEnds(c.bestChain);
  }

  /** What becomes of a new template: only the target and the checks that are not modelled can fail
      before its place is looked at; it is never an orphan; and it extends the tip if and only if the
      store is as high as the tip and its transactions pass their checks. */
  lemma {:induction false} MinedBlock(p: BlockProcessor, t: Block, e: Event)
    requires p.Valid() && Template(p.chain, p.recharge, t)
    requires e.before == p.Now() && e.block == t && p.EventOk(e) && p.IsNew(e.before, t)
    ensures e.verdict.Insane? <==> !TargetInRange(t.header.bits, p.chain.params.powLimit) || !p.otherSanity(t)
    ensures !e.verdict.Insane? ==>
              if StoreAtTip(p.chain) && p.chain.bestChain.hash != p.chain.emptyHash && p.chain.ContextOk(t) then e.verdict.Accepted? && e.verdict.outcome == Extended
              else e.verdict == Failed(if StoreAtTip(p.chain) && p.chain.bestChain.hash != p.chain.emptyHash then Refused else Rejected)
  {
    hide BlockProcessor.Valid, Blockchain.Valid, HeldAt, ContextRules, Passes, NoDuplicates, Shaped, RewardIsFees, Blockchain.LeadsAt, TargetInRange, WellFormed;
    var c := p.chain;
    p.StoredTxs();
    TemplateExpected(c, p.recharge, t);
    TemplatePlaced(c, p.recharge, t);
    hide Blockchain.ExpectedAt;
    assert p.SanityOn(HeldAt(c.State()).txs, t) <==> TargetInRange(t.header.bits, c.params.powLimit) && p.otherSanity(t);
  }
}
