/** What holds of the chain whatever blocks were processed, because every way of processing a block
    keeps the chain valid. */
module ChainProperties {
  import opened Core
  import opened Difficulty
  import opened HeaderChains
  import opened Ledgers
  import opened ChainStores
  import opened StoreProperties
  import opened BlockValidator
  import opened BlockRules
  import opened BlockTree
  import opened Switching
  import opened Values
  import opened Blockchains

  /** Every branch of the tree, main or side, obeys the rules for targets and timestamps. */
  lemma {:induction false} BranchesObeyRules(c: Blockchain, n: BlockNode)
    requires c.Valid() && n in c.index.Values
    ensures Accepted(c.params, HeadersOf(Blocks(Full(n)))) && TimesAdvance(HeadersOf(Blocks(Full(n))))
  {
    hide ChainStore.Valid, Blockchain.Marked, Blockchain.Cached, Blockchain.Stored, GoodParams, NodeOk, Tree, ContextRules, Accepted, TimesAdvance, Linked;
    var chain := Blocks(Full(n));
    c.HeadersLinked(n);
    forall i | 1 <= i < |chain| ensures ContextRules(c.params, HeadersOf(chain[..i]), chain[i]) {
      BranchBlock(c, n, i);
    }
    ObeyedRules(c.params, chain);
  }

  lemma {:induction false} BranchBlock(c: Blockchain, n: BlockNode, i: nat)
    requires c.Linked() && c.AllVetted() && n in c.index.Values && 1 <= i < |Full(n)|
    ensures var chain := Blocks(Full(n));
      ContextRules(c.params, HeadersOf(chain[..i]), chain[i])
  {
    hide NodeOk, Full, ContextRules, Tree, Sane, TargetInRange;
    var m, p := Full(n)[i], Full(n)[i - 1];
    PathInTree(c.index.Values, c.root, n, i);
    PathInTree(c.index.Values, c.root, n, i - 1);
    assert c.Vetted(m);
    assert Blocks(Full(n))[..i] == Blocks(Full(p));
  }

  /** On every branch, targets stay within the limit and within a factor of four from one block to
      the next (up to rounding), and the median time never goes back. */
  lemma {:induction false} BranchTargetsAndTimes(c: Blockchain, n: BlockNode, i: nat)
    requires c.Valid() && Adjusts(c.params) && n in c.index.Values && 1 <= i < |Full(n)|
    ensures var h := HeadersOf(Blocks(Full(n)));
      && 0 < CompactToBig(h[i].bits) <= c.params.powLimit
      && (i >= 2 ==>
            var t, t0 := CompactToBig(h[i].bits), CompactToBig(h[i - 1].bits);
            t <= 4 * t0 && t0 * 0x8000 <= 4 * (t * 0x8001) + 3 * 0x8000)
      && MedianTime(h[..i]) <= MedianTime(h[..i + 1])
  {
    hide Blockchain.Valid, Adjusts, GoodParams, CompactToBig, NextBits, MedianTime, BlocksPerRetarget, TimesAdvance, Accepted;
    var h := HeadersOf(Blocks(Full(n)));
    BranchesObeyRules(c, n);
    RetargetBound(c.params, h, i);
    if i >= 2 {
      RetargetBound(c.params, h, i - 1);
    }
    TargetPositive(c, n, i);
    MedianNeverDecreases(h, i, i + 1);
  }

  lemma {:induction false} TargetPositive(c: Blockchain, n: BlockNode, i: nat)
    requires c.Valid() && n in c.index.Values && 1 <= i < |Full(n)|
    ensures CompactToBig(HeadersOf(Blocks(Full(n)))[i].bits) > 0
  {
    hide ChainStore.Valid, Blockchain.Marked, Blockchain.Cached, Blockchain.Stored, GoodParams, ContextRules, CompactToBig;
    PathInTree(c.index.Values, c.root, n, i);
    assert c.Vetted(Full(n)[i]);
  }

  // ----- The store -----

  /** Whatever forks and reorganisations there were, aborted ones included, the store equals the one
      obtained by saving the blocks of the current main chain from genesis in order, of which it passes
      over those that it cannot write.  If it is in step, that is the whole main chain. */
  method ReplayMainChain(c: Blockchain, stored: seq<Block>) returns (replayed: ChainStore)
    requires c.Valid() && stored == Persisted(c.Main())
    ensures fresh(replayed) && replayed.chain == stored && SameStore(c.store.db, replayed.db.(current := c.store.db.current))
    ensures c.Synced() ==> stored == c.Main() && SameStore(c.store.db, replayed.db)
  {
    hide Blockchain.Linked, Blockchain.Marked, Blockchain.Cached, Blockchain.AllVetted, GoodParams, Represents, LedgerOf, SameStore, Persisted, Written, Passed, ValidChain;
    replayed := Replay(stored);
    SameAfter(c.store, replayed.db, replayed.Held());
    if c.Synced() {
      WholeChain(c.Main());
    }
  }

  /** A block cannot displace a main chain of at least the length of its own branch whose blocks above
      the fork meet targets that are no larger, one by one: it joins a side chain. */
  lemma {:induction false} EasierStaysAside(c: Blockchain, b: Block)
    requires c.Valid() && !c.ClaimsGenesis(b) && c.Placed(b) && c.index[b.header.previous] != c.bestChain
    ensures var main, branch := BitsOf(Full(c.bestChain)), BitsOf(Full(c.index[b.header.previous])) + [b.header.bits];
      HarderAbove(main, branch, CommonLen(Full(c.bestChain), Full(c.index[b.header.previous]))) ==> c.Expected(b) == SideChain
  {
    hide GoodParams, ContextRules, Blockchain.Marked, Blockchain.Cached, Blockchain.Stored, Blockchain.AllVetted, Full, NodeOk, CompactToBig, CalcWork, SwitchesTo, HeldAt, Passes, Tree, HarderAbove;
    var prev := c.index[b.header.previous];
    var k, main, branch := CommonLen(Full(c.bestChain), Full(prev)), BitsOf(Full(c.bestChain)), BitsOf(Full(prev)) + [b.header.bits];
    WorkIsSummed(c.index.Values, c.root, c.bestChain);
    WorkIsSummed(c.index.Values, c.root, prev);
    assert branch[..|branch| - 1] == BitsOf(Full(prev));
    if HarderAbove(main, branch, k) {
      HarderBranch(main, branch, k);
    }
  }

  lemma {:induction false} WholeChain(chain: seq<Block>)
    requires Persisted(chain) == chain && chain != []
    ensures Written(chain, |chain| - 1)
  {
    hide Persisted, Written;
    PersistedAll(chain);
  }

  /** The flag, the side chain cache and the store agree on what the main chain is, but for the blocks
      that the store could not write. */
  lemma {:induction false} ForkState(c: Blockchain, n: BlockNode)
    requires c.Valid() && n in c.index.Values
    ensures n.inMainChain <==> n in Full(c.bestChain)
    ensures n.inMainChain <==> n.hash !in c.blockCache
    ensures n.hash in c.store.db.headers <==> n.inMainChain && |n.path| < |c.Main()| && Written(c.Main(), |n.path|)
    ensures c.TipWritten() ==> c.store.currentBlockHeight == c.bestChain.height && c.store.db.current == Some(Tip(c.bestChain.hash, c.bestChain.height))
    ensures c.Synced() ==> c.TipWritten()
  {
    hide GoodParams, ContextRules, LedgerOf, Persisted, Written, Passed, Represents, ValidChain;
    if c.Synced() {
      WholeChain(c.Main());
    }
    c.SameHeader(c.bestChain);
    FullEnds(c.bestChain);
    StoredHeader(c, n);
  }

  lemma {:induction false} StoredHeader(c: Blockchain, n: BlockNode)
    requires c.Valid() && n in c.index.Values
    ensures n.hash in c.store.db.headers <==> n in Full(c.bestChain) && |n.path| < |c.Main()| && Written(c.Main(), |n.path|)
  {
    hide GoodParams, LedgerOf, Blockchain.Marked, Blockchain.Cached, Blockchain.AllVetted, Full, Tree, NodeOk, Persisted, Written, Passed, Represents, ValidChain;
    var path, main := Full(c.bestChain), c.Main();
    HeadersHeld(c.store);
    HeadersInDb(c.store);
    HeadersOfChain(c.store.chain, n.hash);
    forall i | 0 <= i < |path| ensures path[i].block.header.hash == n.hash <==> path[i] == n {
      OnlyOne(c, n, i);
    }
    if n in path {
      OnPath(c.index.Values, c.root, c.bestChain, n);
      var i := |n.path|;
      assert main[i] == n.block && main[i].header.hash == n.hash;
      forall j | 0 <= j < |main| && main[j].header.hash == n.hash ensures j == i {
        PathInTree(c.index.Values, c.root, c.bestChain, j);
        FullEnds(path[j]);
      }
      PersistedHas(main, i);
    } else {
      PersistedFrom(main);
      forall b | b in Persisted(main) ensures b.header.hash != n.hash {
        var i :| 0 <= i < |main| && main[i] == b;
      }
    }
  }

  lemma {:induction false} HeadersInDb(store: ChainStore)
    requires store.Valid()
    ensures store.db.headers == LedgerOf(store.chain).headers
  {
  }

  lemma {:induction false} OnlyOne(c: Blockchain, n: BlockNode, i: nat)
    requires c.Linked() && n in c.index.Values && i < |Full(c.bestChain)|
    ensures Full(c.bestChain)[i].block.header.hash == n.hash <==> Full(c.bestChain)[i] == n
  {
    var m := Full(c.bestChain)[i];
    PathInTree(c.index.Values, c.root, c.bestChain, i);
    hide Full;
    ByHash(c.index, n);
    ByHash(c.index, m);
    assert NodeOk(m) && NodeOk(n);
  }

  /** The store is in step with the main chain exactly when the recharges of each block of it spend
      outputs that were unspent in what was stored before. */
  lemma {:induction false} WhenSynced(c: Blockchain)
    requires c.Valid()
    ensures c.Synced() <==> forall i :: 1 <= i < |c.Main()| ==> RechargesWritten(c.Main(), i)
  {
    hide GoodParams, ContextRules, LedgerOf, Persisted, Written, Represents, ValidChain, Blockchain.Marked, Blockchain.Cached, Blockchain.AllVetted, Blockchain.Linked, RechargesSpendUnspent;
    var main := c.Main();
    PersistedAll(main);
    forall i | 1 <= i < |main| ensures Written(main, i) <==> RechargesWritten(main, i) {
      assert PassedAt(c.others, main, i);
      WrittenMeans(c.others, main, i);
    }
  }

  ghost predicate RechargesWritten(main: seq<Block>, i: nat)
    requires i < |main|
  {
    RechargesSpendUnspent(LedgerOf(Persisted(main[..i])), main[i].txs)
  }

  lemma {:induction false} WrittenMeans(others: OtherChecks, main: seq<Block>, i: nat)
    requires 1 <= i < |main| && PassedAt(others, main, i)
    ensures Written(main, i) <==> RechargesWritten(main, i)
  {
    hide LedgerOf, Persisted, RechargesSpendUnspent, Writable, Sane, AllOk, PassedAt;
    PassedAllOk(others, main, i);
    ChecksSuffice(LedgerOf(Persisted(main[..i])), main[i]);
  }

  /** A store that missed a block never catches up: the block stays on the main chain for good. */
  lemma {:induction false} BehindForever(best: BlockNode, best': BlockNode)
    requires MissedStay(best, best') && !SyncedAt(best)
    ensures !SyncedAt(best')
  {
    hide Full, Written, Persisted;
    PersistedAll(Blocks(Full(best)));
    var i :| 0 <= i < |Full(best)| && !Written(Blocks(Full(best)), i);
    assert SharesUpTo(best, best', i);
    SameWritten(best, best', i);
    PersistedAll(Blocks(Full(best')));
  }

  /** In particular it is in step if no recharge of the main chain carries inputs. */
  lemma {:induction false} NoRechargeInputs(c: Blockchain)
    requires c.Valid()
    requires forall i, t :: 1 <= i < |c.Main()| && 0 <= t < |c.Main()[i].txs| && c.Main()[i].txs[t].kind.RechargeToSideChain? ==> c.Main()[i].txs[t].inputs == []
    ensures c.Synced()
  {
    hide GoodParams, LedgerOf, Persisted, Written, Represents, ValidChain, Passed, Blockchain.Linked, Blockchain.Marked, Blockchain.Cached, Blockchain.AllVetted, Full, Blocks;
    WhenSynced(c);
    forall i | 1 <= i < |c.Main()| ensures RechargesWritten(c.Main(), i) {
    }
  }

  /** At all times, every transaction of the main chain was new when its block was connected, and spent
      outputs that were unspent then, or recharged for the first time. */
  lemma {:induction false} MainChainChecked(c: Blockchain, i: nat, t: nat)
    requires c.Valid() && 1 <= i < |c.Main()| && t < |c.Main()[i].txs|
    ensures TxOk(LedgerOf(Persisted(c.Main()[..i])), c.Main()[i].txs[t])
  {
    hide GoodParams, LedgerOf, Persisted, Written, Represents, ValidChain, TxOk, PassedAt;
    assert PassedAt(c.others, c.Main(), i);
    PassedAllOk(c.others, c.Main(), i);
  }

  /** Every transaction of the main chain but the coinbases passed the other checks as well, on the
      transactions that were stored before its block and at the height of the block before, or no higher
      if the store did not have that; and it was final at the height of its block. */
  lemma {:induction false} MainChainPasses(c: Blockchain, i: nat, t: nat) returns (height: int)
    requires c.Valid() && 1 <= i < |c.Main()| && 1 <= t < |c.Main()[i].txs|
    ensures c.others(LedgerOf(Persisted(c.Main()[..i])).txs, height, c.Main()[i].txs[t])
    ensures height <= i - 1 && (Written(c.Main(), i - 1) ==> height == i - 1)
    ensures Finalized(c.Main()[i].txs[t], i)
  {
    hide Blockchain.Valid, LedgerOf, Persisted, Written, TxOk, PassedAt, Shaped, CoinbaseFirst, Full, ContextRules;
    MainChainBlock(c, i);
    var main, stored := c.Main(), LedgerOf(Persisted(c.Main()[..i]));
    var current :| PassedOn(c.others, main, i, current);
    height := HeightOf(current);
    assert TxPasses(c.others, stored.(tip := current), main[i].txs[t]);
    hide Passes, TxPasses;
    CoinbaseOnlyFirst(main[i].txs, c.asset, t);
  }

  lemma {:induction false} CoinbaseOnlyFirst(txs: seq<Tx>, asset: Uint256, t: nat)
    requires Shaped(txs, asset) && 1 <= t < |txs|
    ensures !txs[t].kind.CoinBase?
  {
  }

  lemma {:induction false} MainChainBlock(c: Blockchain, i: nat)
    requires c.Valid() && 1 <= i < |c.Main()|
    ensures exists current :: PassedOn(c.others, c.Main(), i, current)
    ensures c.Main()[i - 1].header.height == i - 1 && Shaped(c.Main()[i].txs, c.asset) && AllFinalized(c.Main()[i].txs, i)
  {
    hide GoodParams, LedgerOf, Persisted, Written, Represents, ValidChain, Finalized, Blockchain.Marked, Blockchain.Cached, Shaped, Full, Tree, NodeOk, Blockchain.Vetted, Passes;
    assert PassedAt(c.others, c.Main(), i);
    c.HeadersLinked(c.bestChain);
    assert HeadersOf(c.Main())[i - 1].height == i - 1;
    PathInTree(c.index.Values, c.root, c.bestChain, i);
    PathInTree(c.index.Values, c.root, c.bestChain, i - 1);
    RootOnPath(c.index.Values, c.root, c.bestChain);
    VettedShaped(c, Full(c.bestChain)[i]);
    BranchBlock(c, c.bestChain, i);
  }

  // ----- The supply -----

  /** At all times, the supply of the chain asset is what genesis left, what recharges brought in, and
      what coinbases paid out beyond the fees on the ledger that their blocks were attached to; and it
      is the sum of all amounts that the index by address holds for it. */
  lemma {:induction false} SupplyOfChain(c: Blockchain, recharge: RechargeFees)
    requires c.Valid()
    ensures Supply(c.store.Held(), c.asset)
         == Supply(LedgerOf([c.root.block]), c.asset) + Imported(c.store.chain, c.asset, recharge) + Overpaid(c.store.chain, c.asset, recharge)
    ensures Supply(c.store.Held(), c.asset) == SumIndex(c.store.db.utxos, c.asset, c.store.db.utxos.Keys)
  {
    hide Blockchain.Valid, LedgerOf, Imported, Overpaid, ValidChain, Shaped, Total, Represents, SumIndex;
    StoredShaped(c);
    c.TxsHeld();
    SupplyIsIndexed(c.store.db, c.store.Held(), c.asset);
    ChainConservation(c.store.chain, c.asset, recharge);
  }

  lemma {:induction false} StoredShaped(c: Blockchain)
    requires c.Valid()
    ensures var stored := c.store.chain;
      |stored| >= 1 && stored[..1] == [c.root.block] && ValidChain(stored) && forall n :: 1 <= n < |stored| ==> Shaped(stored[n].txs, c.asset)
  {
    hide GoodParams, LedgerOf, Written, Represents, Passed, Blockchain.Marked, Blockchain.Cached, Persisted, ValidChain, Shaped, Full, Tree, NodeOk, Blockchain.Vetted;
    var main, stored := c.Main(), c.store.chain;
    PersistedTail(main);
    forall n | 1 <= n < |stored| ensures Shaped(stored[n].txs, c.asset) {
      var i :| 0 <= i < |main[1..]| && main[1..][i] == stored[n];
      PathInTree(c.index.Values, c.root, c.bestChain, i + 1);
      VettedShaped(c, Full(c.bestChain)[i + 1]);
    }
    PathInTree(c.index.Values, c.root, c.bestChain, 0);
  }

  lemma {:induction false} VettedShaped(c: Blockchain, n: BlockNode)
    requires c.Vetted(n) && n.parent != null
    ensures Shaped(n.block.txs, c.asset)
  {
  }
}
