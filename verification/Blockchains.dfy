/** Chain selection: the in-memory block tree, the side chain cache and the store, and how they move
    together when blocks are connected, disconnected and reorganised. */
module Blockchains {
  import opened Core
  import opened Words
  import opened Difficulty
  import opened Ledgers
  import opened ChainStores
  import opened BlockValidator
  import opened Switching
  import opened BlockTree
  import opened Values
  import opened BlockRules
  import HeaderChains

  // ----- Blocks of nodes -----

  lemma {:induction false} BlocksOfChild(tip: BlockNode, node: BlockNode)
    requires NodeOk(node) && node.parent == tip
    ensures Full(node) == Full(tip) + [node] && Blocks(Full(node)) == Blocks(Full(tip)) + [node.block]
    ensures Blocks(Full(node))[..|Full(node)| - 1] == Blocks(Full(tip))
  {
  }

  // ----- Moving to another branch -----

  /** The tip that a move to the branch of a node ends at. */
  ghost function TipAfter(others: OtherChecks, best: BlockNode, current: Option<Tip>, node: BlockNode, k: nat): BlockNode
    requires 1 <= k <= |Full(best)| && k <= |Full(node)|
  {
    var main := Blocks(Full(best));
    var n := Remains(main, k);
    if n > k then Full(best)[n - 1]
    else Full(node)[k - 1 + Connects(others, ForkLedger(main, k, current), Blocks(Full(node)[k..]))]
  }

  /** The blocks that a new child of a node adds to what it shares with the main chain. */
  ghost function BranchOf(best: BlockNode, prev: BlockNode, block: Block): seq<Block> {
    Blocks(Full(prev)[CommonLen(Full(best), Full(prev))..]) + [block]
  }

  /** The main chain can be left for a new child of a node. */
  ghost predicate SwitchesTo(others: OtherChecks, best: BlockNode, current: Option<Tip>, prev: BlockNode, block: Block) {
    var k := CommonLen(Full(best), Full(prev));
    1 <= k && Switches(others, Blocks(Full(best)), k, current, BranchOf(best, prev, block))
  }

  /** Where an attempt to do so stops otherwise: at the highest block that could not be disconnected,
      or at the last one that could be connected. */
  ghost function StopsAt(others: OtherChecks, best: BlockNode, current: Option<Tip>, prev: BlockNode, block: Block): BlockNode {
    var main, k := Blocks(Full(best)), CommonLen(Full(best), Full(prev));
    if k < 1 then best
    else
      var n := Remains(main, k);
      if n > k then Full(best)[n - 1]
      else
        var i := k - 1 + Connects(others, ForkLedger(main, k, current), BranchOf(best, prev, block));
        if i < |Full(prev)| then Full(prev)[i] else prev
  }

  /** The ledger that is held then. */
  ghost function HeldOnMove(others: OtherChecks, best: BlockNode, current: Option<Tip>, prev: BlockNode, block: Block): Ledger {
    var k := CommonLen(Full(best), Full(prev));
    if k < 1 then EMPTY else HeldAfter(others, Blocks(Full(best)), k, current, BranchOf(best, prev, block))
  }

  /** For a new node, this is what moving to its branch does. */
  lemma {:induction false} SwitchToChild(others: OtherChecks, best: BlockNode, current: Option<Tip>, prev: BlockNode, node: BlockNode, k: nat)
    requires Full(node) == Full(prev) + [node] && node !in Full(best) && ForkAt(best, node, k)
    ensures SwitchesTo(others, best, current, prev, node.block) <==> Switches(others, Blocks(Full(best)), k, current, Blocks(Full(node)[k..]))
    ensures TipAfter(others, best, current, node, k) ==
              if SwitchesTo(others, best, current, prev, node.block) then node else StopsAt(others, best, current, prev, node.block)
    ensures HeldAfter(others, Blocks(Full(best)), k, current, Blocks(Full(node)[k..])) == HeldOnMove(others, best, current, prev, node.block)
  {
    hide Full, Remains, Connects, ForkLedger, HeldAfter;
    ForkIs(best, node, k);
    ForkOfChild(best, prev, node);
    assert Full(node)[k..] == Full(prev)[k..] + [node];
    assert Blocks(Full(node)[k..]) == BranchOf(best, prev, node.block);
  }

  /** Blocks of the main chain that the store missed stay on the main chain, with all that is below them. */
  ghost predicate MissedStay(best: BlockNode, best': BlockNode) {
    forall i :: 0 <= i < |Full(best)| && !Written(Blocks(Full(best)), i) ==> SharesUpTo(best, best', i)
  }

  ghost predicate SharesUpTo(best: BlockNode, best': BlockNode, i: nat)
    requires i < |Full(best)|
  {
    i < |Full(best')| && Full(best')[..i + 1] == Full(best)[..i + 1]
  }

  lemma {:induction false} SameWritten(best: BlockNode, best': BlockNode, i: nat)
    requires i < |Full(best)| && SharesUpTo(best, best', i)
    ensures Written(Blocks(Full(best)), i) == Written(Blocks(Full(best')), i)
  {
    hide Full, Writable, LedgerOf, Persisted;
    assert forall j :: 0 <= j <= i ==> Full(best)[j] == Full(best)[..i + 1][j] && Full(best')[j] == Full(best')[..i + 1][j];
    assert Blocks(Full(best))[..i] == Blocks(Full(best'))[..i];
  }

  lemma {:induction false} MissedAdds(a: BlockNode, b: BlockNode, c: BlockNode)
    requires MissedStay(a, b) && MissedStay(b, c)
    ensures MissedStay(a, c)
  {
    hide Full, Written;
    forall i | 0 <= i < |Full(a)| && !Written(Blocks(Full(a)), i) ensures SharesUpTo(a, c, i) {
      assert SharesUpTo(a, b, i);
      SameWritten(a, b, i);
      assert SharesUpTo(b, c, i);
    }
  }

  lemma {:induction false} MissedSame(best: BlockNode)
    ensures MissedStay(best, best)
  {
    hide Full, Written;
  }

  lemma {:induction false} MissedByChild(best: BlockNode, node: BlockNode)
    requires Full(node) == Full(best) + [node]
    ensures MissedStay(best, node)
  {
    hide Full, Written;
    forall i | 0 <= i < |Full(best)| ensures SharesUpTo(best, node, i) {
    }
  }

  /** Moving to another branch leaves what the store missed in place. */
  lemma {:induction false} MissedByMove(nodes: set<BlockNode>, root: BlockNode, others: OtherChecks, best: BlockNode, current: Option<Tip>, node: BlockNode, k: nat)
    requires Tree(nodes, root) && best in nodes && node in nodes && ForkAt(best, node, k)
    ensures MissedStay(best, TipAfter(others, best, current, node, k))
  {
    hide Full, Tree, Written, Connects, ForkLedger;
    var main := Blocks(Full(best));
    var n := Remains(main, k);
    RemainsMeans(main, k);
    hide Remains;
    var tip := TipAfter(others, best, current, node, k);
    if n > k {
      PathInTree(nodes, root, best, n - 1);
    } else {
      PathInTree(nodes, root, node, k - 1 + Connects(others, ForkLedger(main, k, current), Blocks(Full(node)[k..])));
    }
    forall i | 0 <= i < |Full(best)| && !Written(main, i) ensures SharesUpTo(best, tip, i) {
      assert i < n;
      if n <= k {
        assert Full(best)[..i + 1] == Full(best)[..k][..i + 1] == Full(node)[..k][..i + 1] == Full(node)[..i + 1];
      }
      assert Full(tip)[..i + 1] == Full(best)[..i + 1];
    }
  }

  /** What became of a new block: it extends the main chain, joins a side chain, causes a complete
      reorganisation, fails the checks on top of the tip, causes a reorganisation that stops half way,
      does not fit its place in the tree, or makes the node dereference a parent that is not there. */
  datatype Outcome = Extended | SideChain | Reorganized | Refused | Aborted | Rejected | Crashed

  /** The outcomes that leave everything as it was. */
  predicate Untouched(outcome: Outcome) {
    outcome.Refused? || outcome.Rejected? || outcome.Crashed?
  }

  // ----- The state of the chain as a value -----

  /** What decides about the next block: the tree, the tip, and the block that the store names as the
      current one.  Nodes in the tree never change but for the main chain flag. */
  datatype ChainState = ChainState(index: map<Uint256, BlockNode>, best: BlockNode, current: Option<Tip>)

  /** The ledger that the store holds in a state. */
  ghost function HeldAt(s: ChainState): Ledger {
    LedgerOf(Persisted(Blocks(Full(s.best)))).(tip := s.current)
  }

  /** The store holds all of the chain that ends in a node. */
  ghost predicate SyncedAt(best: BlockNode) {
    Persisted(Blocks(Full(best))) == Blocks(Full(best))
  }

  /** A node for a block on top of another. */
  ghost predicate ChildOf(node: BlockNode, prev: BlockNode, block: Block) {
    && node.block == block && node.hash == block.header.hash && node.height == block.header.height
    && Full(node) == Full(prev) + [node] && node.workSum == prev.workSum + CalcWork(block.header.bits)
  }

  /** The tree gained a node for the block, and nothing else. */
  ghost predicate GrewBy(index: map<Uint256, BlockNode>, block: Block, index': map<Uint256, BlockNode>) {
    && block.header.previous in index && block.header.hash in index'
    && ChildOf(index'[block.header.hash], index[block.header.previous], block)
    && index' == index[block.header.hash := index'[block.header.hash]]
  }

  class Blockchain {
    var bestChain: BlockNode
    var index: map<Uint256, BlockNode>
    var blockCache: map<Uint256, Block>
    const store: ChainStore
    const params: HeaderChains.ChainParams
    const others: OtherChecks
    const asset: Uint256
    const emptyHash: Uint256
    ghost const root: BlockNode

    // ----- The invariant -----

    /** Every indexed node is linked to the root, and found under its own hash. */
    ghost predicate Linked()
      reads this
    {
      && Tree(index.Values, root)
      && Indexed(index)
      && bestChain in index.Values
    }

    /** The main chain flag marks exactly the best chain. */
    ghost predicate Marked()
      reads this, index.Values
    {
      forall n :: n in index.Values ==> (n.inMainChain <==> n in Full(bestChain))
    }

    /** The side chain cache holds exactly the blocks that are not on the main chain. */
    ghost predicate Cached(cache: map<Uint256, Block>)
      reads this, index.Values
    {
      && cache.Keys <= index.Keys
      && forall n :: n in index.Values ==>
           (n.hash in cache <==> !n.inMainChain) && (n.hash in cache ==> cache[n.hash] == n.block)
    }

    /** A block that passed the sanity check, and the rules for its place in the chain.  For the
        genesis block, which is checked for nothing, only its place is known. */
    ghost predicate Vetted(n: BlockNode) {
      if n.parent == null then
        n.height == 0 && CompactToBig(n.bits) >= 0
      else
        && Sane(n.block.txs) && Shaped(n.block.txs, asset) && TargetInRange(n.bits, params.powLimit)
        && ContextRules(params, HeadersOf(Blocks(Full(n.parent))), n.block)
    }

    ghost predicate AllVetted()
      reads this
    {
      forall n :: n in index.Values ==> Vetted(n)
    }

    /** The blocks of the main chain. */
    ghost function Main(): seq<Block>
      reads this
    {
      Blocks(Full(bestChain))
    }

    /** The store holds what it keeps of the main chain. */
    ghost predicate Stored()
      reads this, store
    {
      Keeps(store, others, Main())
    }

    /** The store holds all of the main chain. */
    ghost predicate Synced()
      reads this
    {
      SyncedAt(bestChain)
    }

    ghost predicate Valid()
      reads this, store, index.Values
    {
      HeaderChains.GoodParams(params) && Linked() && Marked() && Cached(blockCache) && AllVetted() && Stored()
    }

    /** Valid, but for a block that is still in the side chain cache. */
    ghost predicate ValidBut(hash: Uint256)
      reads this, store, index.Values
    {
      HeaderChains.GoodParams(params) && Linked() && Marked() && Cached(blockCache - {hash}) && AllVetted() && Stored()
    }

    /** A chain that holds only the genesis block. */
    constructor Init(genesis: Block, params: HeaderChains.ChainParams, others: OtherChecks, asset: Uint256, emptyHash: Uint256)
      requires ValidNext(EMPTY, genesis) && genesis.header.height == 0
      requires HeaderChains.GoodParams(params) && CompactToBig(genesis.header.bits) >= 0
      ensures Valid() && Synced() && bestChain == root && root.block == genesis && index == map[genesis.header.hash := bestChain]
      ensures fresh(store) && fresh(bestChain)
      ensures this.params == params && this.others == others && this.asset == asset && this.emptyHash == emptyHash
    {
      hide ChainStore.Valid, ValidNext, Sane, CalcWork, HeaderChains.GoodParams, CompactToBig;
      var node := new BlockNode.NewBlockNode(genesis, null);
      node.inMainChain := true;
      store := new ChainStore.InitWithGenesisBlock(genesis);
      bestChain, root, index, blockCache := node, node, map[genesis.header.hash := node], map[];
      this.params, this.others, this.asset, this.emptyHash := params, others, asset, emptyHash;
      new;
      assert Full(node) == [node];
      assert Blocks(Full(node)) == [genesis];
      GenesisIsKept(store, others, genesis);
      assert index.Values == {node} by {
        assert index[genesis.header.hash] == node;
      }
    }

    /** With nothing pruned from memory, whatever is stored is indexed. */
    lemma {:induction false} StoredIsIndexed(hash: Uint256)
      requires Linked() && Stored() && hash in store.db.headers
      ensures hash in index
    {
      hide LedgerOf, Persisted, Written, Passed;
      var path := Full(bestChain);
      HeadersHeld(store);
      HeadersOfChain(store.chain, hash);
      PersistedFrom(Main());
      var b :| b in store.chain && b.header.hash == hash;
      var i :| 0 <= i < |Main()| && Main()[i] == b;
      PathInTree(index.Values, root, bestChain, i);
      ByHash(index, path[i]);
    }

    // ----- Connecting and disconnecting -----

    /** Every transaction of the block passes its checks against the store. */
    ghost predicate ContextOk(block: Block)
      reads store
    {
      Passes(others, store.Held(), block)
    }

    method CheckBlockContext(block: Block) returns (ok: bool)
      requires store.Valid()
      ensures ok <==> ContextOk(block)
    {
      hide ChainStore.Valid, LedgerOf, TxPasses;
      for i := 0 to |block.txs|
        invariant forall j :: 0 <= j < i ==> TxPasses(others, store.Held(), block.txs[j])
      {
        ok := CheckTransactionContext(store, block.txs[i], others);
        if !ok {
          return false;
        }
      }
      return true;
    }

    /** Makes a child of the tip the new tip.  A block that fails its checks changes nothing.  The store
        stays in step exactly when the recharges of the block spend unspent outputs. */
    method ConnectBlock(node: BlockNode, block: Block) returns (ok: bool)
      requires Valid() && Connectable(node) && block == node.block
      modifies this, store, node
      ensures ok <==> old(ContextOk(block))
      ensures !ok ==> Valid() && unchanged(this, node, store)
      ensures ok ==> bestChain == node && index == old(index)[node.hash := node] && blockCache == old(blockCache)
      ensures ok ==> ValidBut(node.hash) && store.Held() == Next(old(store.Held()), block)
      ensures ok ==> (Synced() <==> old(Synced() && RechargesSpendUnspent(store.Held(), block.txs)))
    {
      hide ChainStore.Valid, ContextOk, Vetted, Blocks, Full, NodeOk, Tree, HeaderChains.GoodParams, Keeps, Persisted, RechargesSpendUnspent;
      StoreValid();
      ok := CheckBlockContext(block);
      if !ok {
        return;
      }
      ParentHash(node);
      if block.header.previous != bestChain.hash {
        return false;
      }
      SyncedNext(node);
      SaveNode(node, block);
      LinkTip(node);
    }

    lemma {:induction false} StoreValid()
      requires Stored()
      ensures store.Valid()
    {
    }

    /** A child of the tip that is on a side chain or new. */
    ghost predicate Connectable(node: BlockNode)
      reads this, node
    {
      && NodeOk(node) && node.parent == bestChain && Vetted(node)
      && if node.hash in index then index[node.hash] == node && !node.inMainChain else node !in index.Values
    }

    method SaveNode(node: BlockNode, block: Block)
      requires Valid() && Connectable(node) && block == node.block && ContextOk(block)
      modifies store
      ensures Keeps(store, others, Blocks(Full(node))) && store.Held() == Next(old(store.Held()), block)
    {
      hide ChainStore.Valid, Passes, Vetted, Blocks, Full, NodeOk, Tree, HeaderChains.GoodParams, Keeps, Next, EndsInChild, Sane, AllOk;
      ChildEnds(node);
      ChildChecked(node);
      SaveNext(store, others, Main(), block);
    }

    /** The chain that ends in a new child of the tip. */
    lemma {:induction false} ChildEnds(node: BlockNode)
      requires Linked() && Marked() && Connectable(node)
      ensures Blocks(Full(node)) == Main() + [node.block] && EndsInChild(Main() + [node.block])
    {
      hide Vetted, Tree;
      BlocksOfChild(bestChain, node);
      SameHeader(bestChain);
      FullEnds(bestChain);
      var main, chain := Main(), Main() + [node.block];
      forall i | 0 <= i < |main| ensures main[i].header.hash != node.hash {
        PathInTree(index.Values, root, bestChain, i);
        var n := Full(bestChain)[i];
        SameHeader(n);
        ByHash(index, n);
        assert n in Full(bestChain);
      }
      assert chain[|chain| - 2] == bestChain.block && chain[|chain| - 1] == node.block;
      assert forall i :: 0 <= i < |main| ==> chain[i] == main[i];
    }

    lemma {:induction false} ChildChecked(node: BlockNode)
      requires Vetted(node) && node.parent != null && ContextOk(node.block)
      ensures Sane(node.block.txs) && AllOk(store.Held(), node.block.txs)
    {
      hide Sane, ContextRules, TxOk;
      forall i | 0 <= i < |node.block.txs| ensures TxOk(store.Held(), node.block.txs[i]) {
        assert TxPasses(others, store.Held(), node.block.txs[i]);
      }
    }

    lemma {:induction false} SyncedNext(node: BlockNode)
      requires Valid() && Connectable(node) && ContextOk(node.block)
      ensures Persisted(Blocks(Full(node))) == Blocks(Full(node)) <==> Synced() && RechargesSpendUnspent(store.Held(), node.block.txs)
    {
      hide ChainStore.Valid, ContextOk, Vetted, Blocks, Full, NodeOk, Tree, HeaderChains.GoodParams, EndsInChild, Sane, AllOk, RechargesSpendUnspent, Persisted, Passed;
      ChildEnds(node);
      ChildChecked(node);
      ChecksSuffice(store.Held(), node.block);
      var main, b := Main(), node.block;
      assert (main + [b])[..|main|] == main;
      LastWritten(main + [b]);
      PersistedAll(main);
      HeldWritable(store, others, main, b);
    }

    lemma {:induction false} ParentHash(node: BlockNode)
      requires NodeOk(node) && node.parent != null
      ensures node.block.header.previous == node.parent.hash
    {
    }

    /** The in-memory part of connecting a block. */
    method LinkTip(node: BlockNode)
      requires Linked() && Marked() && Cached(blockCache) && AllVetted()
      requires NodeOk(node) && node.parent == bestChain && Vetted(node)
      requires node.hash in index ==> index[node.hash] == node
      modifies this`index, this`bestChain, node`inMainChain
      ensures bestChain == node && index == old(index)[node.hash := node]
      ensures Linked() && Marked() && AllVetted() && Cached(blockCache - {node.hash})
    {
      hide Vetted, NodeOk, Tree;
      IndexGrows(index, root, node);
      OtherHashes(node);
      BlocksOfChild(bestChain, node);
      hide Full, Indexed;
      node.inMainChain := true;
      index := index[node.hash := node];
      bestChain := node;
    }

    /** No other node has the hash of a node that is indexed, or can be. */
    lemma {:induction false} OtherHashes(node: BlockNode)
      requires Indexed(index) && (node.hash in index ==> index[node.hash] == node)
      ensures forall n :: n in index.Values && n != node ==> n.hash != node.hash
    {
    }

    /** Makes the parent of the tip the new tip, and keeps the old tip as a side chain block. */
    method DisconnectBlock(node: BlockNode, block: Block) returns (ok: bool)
      requires Valid() && node in index.Values && node.parent != null && block == node.block
      requires node == bestChain ==> TipWritten()
      modifies this, store, node
      ensures Valid() && index == old(index)
      ensures ok <==> node == old(bestChain)
      ensures ok ==> bestChain == node.parent && blockCache == old(blockCache)[node.hash := block]
      ensures ok ==> store.db.current == TipAt(node.parent.block)
      ensures !ok ==> unchanged(this)
    {
      hide ChainStore.Valid, LedgerOf, Blocks, NodeOk, Tree, Vetted, Keeps, Written, EndsInChild, HeaderChains.GoodParams;
      ByHash(index, bestChain);
      ByHash(index, node);
      if node.hash != bestChain.hash {
        return false;
      }
      TipEnds();
      DropLast(store, others, Main(), node.hash);
      UnlinkTip(block);
      return true;
    }

    /** The store has the block of the tip. */
    ghost predicate TipWritten()
      reads this
    {
      Written(Main(), |Main()| - 1)
    }

    lemma {:induction false} TipEnds()
      requires Linked() && bestChain.parent != null
      ensures bestChain.parent in index.Values && EndsInChild(Main())
      ensures Main()[..|Main()| - 1] == Blocks(Full(bestChain.parent)) && Main()[|Main()| - 1] == bestChain.block
      ensures Main()[|Main()| - 2] == bestChain.parent.block && bestChain.block.header.hash == bestChain.hash
    {
      hide Vetted, Full;
      var p := bestChain.parent;
      NotItsOwnAncestor(bestChain);
      FullEnds(p);
      FullEnds(bestChain);
      SameHeader(bestChain);
      SameHeader(p);
      forall i | 0 <= i < |Full(p)| ensures Full(p)[i].block.header.hash != bestChain.hash {
        OtherOnPath(p, i, bestChain);
      }
      hide Tree, Indexed;
      assert Main()[..|Main()| - 1] == Blocks(Full(p));
    }

    lemma {:induction false} OtherOnPath(p: BlockNode, i: nat, n: BlockNode)
      requires Linked() && p in index.Values && i < |Full(p)| && n in index.Values && n !in Full(p)
      ensures Full(p)[i].block.header.hash != n.hash
    {
      PathInTree(index.Values, root, p, i);
      ByHash(index, Full(p)[i]);
      ByHash(index, n);
      assert Full(p)[i] in Full(p);
      SameHeader(Full(p)[i]);
    }

    /** The in-memory part of disconnecting the tip. */
    method UnlinkTip(block: Block)
      requires Linked() && Marked() && Cached(blockCache) && AllVetted() && bestChain.parent != null && block == bestChain.block
      modifies this`bestChain, this`blockCache, bestChain`inMainChain
      ensures bestChain == old(bestChain).parent && blockCache == old(blockCache)[old(bestChain).hash := block]
      ensures Linked() && Marked() && AllVetted() && Cached(blockCache)
    {
      hide Vetted, NodeOk, Tree, Full;
      var node := bestChain;
      ByHash(index, node);
      OtherHashes(node);
      NotItsOwnAncestor(node);
      hide Indexed;
      node.inMainChain := false;
      blockCache := blockCache[node.hash := block];
      bestChain := node.parent;
    }

    lemma {:induction false} NotItsOwnAncestor(node: BlockNode)
      requires Linked() && node in index.Values && node.parent != null
      ensures node !in Full(node.parent) && node.parent in index.Values
      ensures Full(node) == Full(node.parent) + [node]
    {
      BlocksOfChild(node.parent, node);
      if node in Full(node.parent) {
        OnPath(index.Values, root, node.parent, node);
      }
    }

    // ----- Reorganising -----

    /** The nodes to detach, tip first, and the nodes to attach, fork first: exactly the two branches
        above the last common ancestor. */
    method GetReorganizeNodes(node: BlockNode) returns (detach: seq<BlockNode>, attach: seq<BlockNode>, ghost k: nat)
      requires Linked() && Marked() && node in index.Values
      ensures ForkAt(bestChain, node, k)
      ensures detach == Reverse(Full(bestChain)[k..]) && attach == Full(node)[k..]
    {
      hide NodeOk, Tree, Full, ForkAt, Reverse;
      detach := [];
      var ancestor;
      ancestor, attach := FindFork(node);
      k := |Full(ancestor)|;
      ForkIsCommon(node, ancestor);
      FullEnds(bestChain);
      FullEnds(ancestor);
      var n := bestChain;
      EmptyReverse(Full(bestChain));
      ghost var i := |bestChain.path|;
      while n.parent != null && n.hash != ancestor.hash
        invariant k - 1 <= i < |Full(bestChain)| && n == Full(bestChain)[i] && n in index.Values
        invariant detach == Reverse(Full(bestChain)[i + 1..])
        decreases i
      {
        Above(index.Values, root, bestChain, i);
        ReverseStep(Full(bestChain), i);
        detach := detach + [n];
        n := n.parent;
        i := i - 1;
      }
      ByHash(index, n);
      ByHash(index, ancestor);
      PathInTree(index.Values, root, bestChain, i);
      assert i == k - 1;
    }

    /** Walks up from a node to the first ancestor on the main chain. */
    method FindFork(node: BlockNode) returns (ancestor: BlockNode, attach: seq<BlockNode>)
      requires Linked() && Marked() && node in index.Values
      ensures ancestor in Full(node) && ancestor in index.Values && ancestor.inMainChain
      ensures |Full(ancestor)| <= |Full(node)| && attach == Full(node)[|Full(ancestor)|..]
      ensures forall x :: x in attach ==> !x.inMainChain && x in index.Values
    {
      hide NodeOk, Tree, Full;
      FullEnds(node);
      attach, ancestor := [], node;
      ghost var p, j := Full(node), |node.path|;
      while ancestor.parent != null && !ancestor.inMainChain
        invariant p == Full(node) && 0 <= j < |p| && ancestor == p[j] && ancestor in index.Values
        invariant attach == p[j + 1..]
        invariant forall x :: x in attach ==> !x.inMainChain && x in index.Values
        decreases j
      {
        Above(index.Values, root, node, j);
        assert p[j..] == [ancestor] + p[j + 1..];
        attach := [ancestor] + attach;
        ancestor := ancestor.parent;
        j := j - 1;
      }
      PathInTree(index.Values, root, node, j);
      RootOnPath(index.Values, root, bestChain);
      if ancestor.parent == null {
        RootIsAlone(ancestor);
      }
    }

    lemma {:induction false} RootIsAlone(n: BlockNode)
      requires Linked() && n in index.Values && n.parent == null
      ensures n == root
    {
    }

    lemma {:induction false} EmptyReverse(s: seq<BlockNode>)
      ensures Reverse(s[|s|..]) == []
    {
    }

    lemma {:induction false} ForkIsCommon(node: BlockNode, ancestor: BlockNode)
      requires Linked() && Marked() && node in index.Values && ancestor in Full(node) && ancestor in index.Values && ancestor.inMainChain
      requires |Full(ancestor)| <= |Full(node)|
      requires forall x :: x in Full(node)[|Full(ancestor)|..] ==> !x.inMainChain && x in index.Values
      ensures ForkAt(bestChain, node, |Full(ancestor)|) && |Full(ancestor)| <= |Full(bestChain)|
      ensures Full(bestChain)[|Full(ancestor)| - 1] == ancestor
    {
      hide NodeOk, Tree, Full, ForkAt;
      var k := |Full(ancestor)|;
      assert k < |Full(node)| ==> Full(node)[k] in Full(node)[k..];
      ForkCommon(index.Values, root, bestChain, node, ancestor);
    }

    /** Disconnects the tip with the block that the store has for it; fails if the store has none. */
    method DetachOne(n: BlockNode) returns (ok: bool)
      requires Valid() && n == bestChain && n.parent != null
      modifies this, store, n
      ensures Valid() && index == old(index)
      ensures ok <==> old(TipWritten())
      ensures ok ==> bestChain == n.parent && store.db.current == TipAt(n.parent.block)
      ensures !ok ==> unchanged(this, store)
    {
      hide ChainStore.Valid, LedgerOf, Blocks, NodeOk, Vetted, Tree, Full, HeaderChains.GoodParams, Keeps, Written, EndsInChild;
      TipEnds();
      TipReads();
      var block := store.GetBlock(n.hash);
      if block.None? {
        return false;
      }
      ok := DisconnectBlock(n, block.value);
    }

    lemma {:induction false} TipReads()
      requires Linked() && Stored() && EndsInChild(Main()) && Main()[|Main()| - 1] == bestChain.block && bestChain.block.header.hash == bestChain.hash
      ensures bestChain.hash in store.db.headers <==> TipWritten()
      ensures TipWritten() ==> store.Valid() && store.chain != [] && store.chain[|store.chain| - 1] == bestChain.block
      ensures TipWritten() ==> forall i :: 0 <= i < |store.db.headers[bestChain.hash].txHashes| ==> store.db.headers[bestChain.hash].txHashes[i] in store.db.txs
    {
      hide ChainStore.Valid, Persisted, Written, EndsInChild, Passed, Blocks, Full, NodeOk, Tree;
      KnowsLast(store, others, Main());
      if TipWritten() {
        store.TipInDb();
      }
    }

    /** The main chain is what remains of it above its first `k` blocks. */
    twostate predicate Detached(k: nat, ok: bool)
      reads this, store
    {
      && 1 <= k <= |Full(old(bestChain))|
      && var main := Blocks(Full(old(bestChain)));
         && (ok <==> Remains(main, k) == k)
         && bestChain == Full(old(bestChain))[Remains(main, k) - 1]
         && store.Held() == ForkLedger(main, Remains(main, k), old(store.db.current))
    }

    /** Disconnects the main chain down to the fork, or to a block that the store does not have. */
    method DetachAll(detach: seq<BlockNode>, ghost k: nat) returns (ok: bool)
      requires Valid() && 1 <= k <= |Full(bestChain)| && detach == Reverse(Full(bestChain)[k..])
      modifies this, store, index.Values
      ensures Valid() && index == old(index)
      ensures Detached(k, ok)
    {
      hide Valid, Full, Written, Remains, ForkLedger;
      FullEnds(bestChain);
      BestIsIndexed();
      ghost var path, main := Full(bestChain), Main();
      for i := 0 to |detach|
        invariant Valid() && index == old(index) && bestChain == path[|path| - 1 - i] && Main() == main[..|path| - i]
        invariant Remains(Main(), k) == Remains(main, k)
        invariant store.db.current == if i == 0 then old(store.db.current) else TipAt(main[|path| - 1 - i])
      {
        ParentOnPath(old(bestChain), |path| - 1 - i);
        RemainsStep(Main(), k);
        ok := DetachOne(detach[i]);
        if !ok {
          HeldAtFork(old(bestChain), |path| - i, old(store.db.current));
          return;
        }
        MainShrinks(old(bestChain), |path| - 1 - i);
      }
      RemainsEnd(Main());
      HeldAtFork(old(bestChain), k, old(store.db.current));
      return true;
    }

    lemma {:induction false} ParentOnPath(tip: BlockNode, i: nat)
      requires Valid() && tip in index.Values && 1 <= i < |Full(tip)|
      ensures Full(tip)[i].parent == Full(tip)[i - 1] && Full(tip)[i] in index.Values
    {
      hide ChainStore.Valid, NodeOk, Tree, Full, Marked, Cached, AllVetted, Stored, HeaderChains.GoodParams;
      PathInTree(index.Values, root, tip, i);
    }

    lemma {:induction false} MainShrinks(tip: BlockNode, i: nat)
      requires Valid() && tip in index.Values && 1 <= i < |Full(tip)| && bestChain == Full(tip)[i - 1]
      ensures Main() == Blocks(Full(tip))[..i] && Blocks(Full(tip))[..i + 1][..i] == Main()
    {
      hide ChainStore.Valid, NodeOk, Tree, Full, Marked, Cached, AllVetted, Stored, HeaderChains.GoodParams;
      PathInTree(index.Values, root, tip, i - 1);
      assert Blocks(Full(tip)[..i]) == Blocks(Full(tip))[..i];
    }

    /** A node of the branch that is being attached is the next child of the tip, and still in the cache. */
    lemma {:induction false} NextToAttach(node: BlockNode, j: nat)
      requires Valid() && node in index.Values && 0 < j < |Full(node)| && bestChain == Full(node)[j - 1]
      ensures var n := Full(node)[j];
        && n in index.Values && NodeOk(n) && n.parent == bestChain && Vetted(n)
        && n.hash in index && index[n.hash] == n && !n.inMainChain
        && n.hash in blockCache && blockCache[n.hash] == n.block
    {
      var n := Full(node)[j];
      PathInTree(index.Values, root, node, j);
      PathInTree(index.Values, root, node, j - 1);
      ByHash(index, n);
      FullEnds(n);
      if n in Full(bestChain) {
        OnPath(index.Values, root, bestChain, n);
      }
    }

    /** Connects a block of the side chain cache, and removes it from there. */
    method AttachOne(n: BlockNode) returns (ok: bool)
      requires Valid() && NodeOk(n) && n.parent == bestChain && Vetted(n)
      requires n.hash in index && index[n.hash] == n && !n.inMainChain
      requires n.hash in blockCache && blockCache[n.hash] == n.block
      modifies this, store, n
      ensures Valid() && index == old(index)
      ensures ok <==> old(ContextOk(n.block))
      ensures ok ==> bestChain == n && store.Held() == Next(old(store.Held()), n.block)
      ensures !ok ==> bestChain == old(bestChain) && unchanged(store)
    {
      hide ChainStore.Valid, LedgerOf, Blocks, NodeOk, Vetted, Tree, Full, ContextOk, HeaderChains.GoodParams, Keeps, Persisted, RechargesSpendUnspent, Next;
      ok := ConnectBlock(n, blockCache[n.hash]);
      if ok {
        assert index == old(index) by {
          assert index == old(index)[n.hash := n];
        }
        blockCache := blockCache - {n.hash};
      }
    }

    /** The main chain went as far towards the node as the checks allow. */
    twostate predicate Attached(node: BlockNode, k: nat, ok: bool)
      reads this, store
    {
      && 1 <= k <= |Full(node)|
      && var n := Connects(others, old(store.Held()), Blocks(Full(node)[k..]));
         && (ok <==> n == |Full(node)| - k) && bestChain == Full(node)[k - 1 + n]
         && store.Held() == NextAll(old(store.Held()), Blocks(Full(node)[k..])[..n])
    }

    /** Connects a branch on top of the fork; stops at the first block that fails its checks. */
    method AttachAll(attach: seq<BlockNode>, ghost node: BlockNode, ghost k: nat) returns (ok: bool)
      requires Valid() && node in index.Values && 1 <= k <= |Full(node)| && attach == Full(node)[k..] && bestChain == Full(node)[k - 1]
      modifies this, store, index.Values
      ensures Valid() && index == old(index)
      ensures Attached(node, k, ok)
    {
      hide Valid, NodeOk, Vetted, Full, Next, NextAll, Passes;
      FullEnds(node);
      NextAllNone(store.Held(), Blocks(attach));
      ghost var held, branch := store.Held(), Blocks(attach);
      assert branch[0..] == branch;
      for j := 0 to |attach|
        invariant Valid() && index == old(index) && bestChain == Full(node)[k - 1 + j]
        invariant Connects(others, held, branch) == j + Connects(others, store.Held(), branch[j..])
        invariant store.Held() == NextAll(held, branch[..j])
      {
        NextToAttach(node, k + j);
        NextAllStep(held, branch, j);
        assert branch[j..][0] == attach[j].block && branch[j..][1..] == branch[j + 1..];
        ok := AttachOne(attach[j]);
        if !ok {
          return;
        }
      }
      return true;
    }

    lemma {:induction false} NextAllNone(l: Ledger, blocks: seq<Block>)
      ensures NextAll(l, blocks[..0]) == l
    {
    }

    /** A move to the branch of a node succeeds exactly when it can, and its tip is the one that was
        to be expected. */
    twostate predicate Moved(node: BlockNode, k: nat, ok: bool)
      reads this, store
    {
      && 1 <= k <= |Full(old(bestChain))| && k <= |Full(node)|
      && (ok <==> Switches(others, Blocks(Full(old(bestChain))), k, old(store.db.current), Blocks(Full(node)[k..])))
      && bestChain == TipAfter(others, old(bestChain), old(store.db.current), node, k)
      && store.Held() == HeldAfter(others, Blocks(Full(old(bestChain))), k, old(store.db.current), Blocks(Full(node)[k..]))
    }

    /** Moves the main chain from one branch to another.  How far it gets is decided beforehand. */
    method ReorganizeChain(detach: seq<BlockNode>, attach: seq<BlockNode>, ghost node: BlockNode, ghost k: nat) returns (ok: bool)
      requires Valid() && node in index.Values && ForkAt(bestChain, node, k)
      requires detach == Reverse(Full(bestChain)[k..]) && attach == Full(node)[k..]
      modifies this, store, index.Values
      ensures Valid() && index == old(index)
      ensures Moved(node, k, ok)
    {
      hide Valid, Full, Reverse, Remains, Connects, ForkLedger, NextAll, LedgerOf;
      BestIsIndexed();
      AttachCached(node, k);
      ForkPoint(bestChain, node, k);
      hide ForkAt;
      for i := 0 to |attach| {
        if attach[i].hash !in blockCache {
          return false;
        }
      }
      ok := DetachAll(detach, k);
      if !ok {
        return;
      }
      ok := AttachAll(attach, node, k);
    }

    lemma {:induction false} ForkPoint(tip: BlockNode, node: BlockNode, k: nat)
      requires ForkAt(tip, node, k)
      ensures 1 <= k <= |Full(tip)| && k <= |Full(node)| && Full(tip)[k - 1] == Full(node)[k - 1]
    {
      hide Full;
      assert Full(tip)[..k][k - 1] == Full(node)[..k][k - 1];
    }

    lemma {:induction false} BestIsIndexed()
      requires Valid()
      ensures bestChain in index.Values
    {
    }

    lemma {:induction false} HeldAtFork(tip: BlockNode, k: nat, current: Option<Tip>)
      requires Valid() && tip in index.Values && 1 <= k <= |Full(tip)| && bestChain == Full(tip)[k - 1]
      requires store.db.current == if k == |Full(tip)| then current else TipAt(Blocks(Full(tip))[k - 1])
      ensures store.Held() == ForkLedger(Blocks(Full(tip)), k, current)
    {
      hide ChainStore.Valid, LedgerOf, Persisted, Written, Passed, NodeOk, Tree, Full, Marked, Cached, AllVetted, HeaderChains.GoodParams;
      PathInTree(index.Values, root, tip, k - 1);
      assert Main() == Blocks(Full(tip))[..k];
    }

    lemma {:induction false} AttachCached(node: BlockNode, k: nat)
      requires Valid() && node in index.Values && ForkAt(bestChain, node, k)
      ensures forall i :: k <= i < |Full(node)| ==> Full(node)[i].hash in blockCache
    {
      hide ChainStore.Valid, Vetted, NodeOk, Tree, Full, ForkAt, HeaderChains.GoodParams, Stored;
      forall i | k <= i < |Full(node)| ensures Full(node)[i].hash in blockCache {
        PathInTree(index.Values, root, node, i);
        AboveFork(index.Values, root, bestChain, node, k, i);
      }
    }

    // ----- Choosing the best chain -----

    /** Adds a block to a side chain. */
    method AddSideNode(node: BlockNode, block: Block)
      requires Linked() && Marked() && Cached(blockCache) && AllVetted()
      requires NodeOk(node) && Vetted(node) && node.parent != null && node.parent in index.Values
      requires node.hash !in index && block == node.block
      modifies this`index, this`blockCache, node`inMainChain
      ensures Linked() && Marked() && Cached(blockCache) && AllVetted()
      ensures index == old(index)[node.hash := node] && node in index.Values
    {
      hide Vetted, NodeOk, Tree;
      IndexGrows(index, root, node);
      OtherHashes(node);
      NotOnBestChain(node);
      hide Full, Indexed;
      blockCache := blockCache[node.hash := block];
      index := index[node.hash := node];
      node.inMainChain := false;
    }

    lemma {:induction false} NotOnBestChain(node: BlockNode)
      requires Linked() && node.hash !in index
      ensures node !in Full(bestChain) && node !in index.Values
    {
      ByHash(index, node);
      if node in Full(bestChain) {
        OnPath(index.Values, root, bestChain, node);
      }
    }

    /** A new block that passed the checks for its place in the tree. */
    ghost predicate NewNode(node: BlockNode, block: Block)
      reads this, node
    {
      && NodeOk(node) && Vetted(node) && node.parent != null && node.parent in index.Values
      && node.hash !in index && block == node.block && !node.inMainChain
    }

    // ----- What a new block will lead to -----

    /** The store has all the blocks that must be disconnected, and each block of the branch passes its
        checks on the ledger that those before it lead to. */
    ghost predicate CanSwitch(prev: BlockNode, block: Block)
      reads this, store
    {
      SwitchesTo(others, bestChain, store.db.current, prev, block)
    }

    ghost function State(): ChainState
      reads this, store
    {
      ChainState(index, bestChain, store.db.current)
    }

    /** The outcome for a new child of a node, told from the state before and the ledger held then. */
    ghost function ExpectedOn(held: Ledger, s: ChainState, prev: BlockNode, block: Block): Outcome {
      if prev == s.best then (if Passes(others, held, block) then Extended else Refused)
      else if prev.workSum + CalcWork(block.header.bits) <= s.best.workSum then SideChain
      else if SwitchesTo(others, s.best, s.current, prev, block) then Reorganized else Aborted
    }

    /** The tip that an aborted reorganisation for it leaves. */
    ghost function AbortedTip(prev: BlockNode, block: Block): BlockNode
      reads this, store
    {
      StopsAt(others, bestChain, store.db.current, prev, block)
    }

    /** The store took the step to a block on top of the tip, and is in step with the main chain if it
        was so before and the recharges of the block spend unspent outputs. */
    twostate predicate StoreFollows(block: Block)
      reads this, store
    {
      && store.Held() == Next(old(store.Held()), block)
      && (Synced() <==> old(Synced() && RechargesSpendUnspent(store.Held(), block.txs)))
    }

    /** What an outcome means for a new node. */
    twostate predicate Ends(outcome: Outcome, node: BlockNode, prev: BlockNode, block: Block)
      reads this, store
    {
      && index == (if outcome.Refused? then old(index) else old(index)[node.hash := node])
      && match outcome
         case Refused => ChainSame()
         case SideChain => bestChain == old(bestChain) && store.db.current == old(store.db.current)
         case Extended => bestChain == node && StoreFollows(block)
         case Reorganized => bestChain == node && store.Held() == HeldOnMove(others, old(bestChain), old(store.db.current), prev, block)
         case Aborted =>
           bestChain == old(AbortedTip(prev, block)) && store.Held() == HeldOnMove(others, old(bestChain), old(store.db.current), prev, block)
         case _ => false
    }

    /** Extends the main chain or a side chain with a new block, and reorganises if a side chain has
        more work than the main chain now. */
    method ConnectBestChain(node: BlockNode, block: Block) returns (outcome: Outcome)
      requires Valid() && NewNode(node, block)
      modifies this, store, node, index.Values
      ensures outcome == ExpectedOn(old(store.Held()), old(State()), node.parent, block) && Ends(outcome, node, node.parent, block)
      ensures MissedKept()
      ensures Valid()
    {
      hide ChainStore.Valid, LedgerOf, Blocks, NodeOk, Vetted, Tree, Full, Reverse, Passes, ForkAt, HeaderChains.GoodParams;
      hide Keeps, Persisted, RechargesSpendUnspent, Next, SwitchesTo, StopsAt, TipAfter, Switches, MissedStay, HeldOnMove;
      MissedSame(bestChain);
      SameHash(node.parent);
      NotOnBestChain(node);
      NewNodeSums(node, block);
      if node.parent.hash == bestChain.hash {
        var ok := ConnectBlock(node, block);
        if !ok {
          return Refused;
        }
        assert blockCache - {node.hash} == blockCache;
        MissedByChild(old(bestChain), node);
        return Extended;
      }
      AddSideNode(node, block);
      if node.workSum <= bestChain.workSum {
        return SideChain;
      }
      var ok := MoveTo(node);
      return if ok then Reorganized else Aborted;
    }

    /** Moves the main chain to the branch of a new node. */
    method MoveTo(node: BlockNode) returns (ok: bool)
      requires node.parent != null && Full(node) == Full(node.parent) + [node] && node !in Full(bestChain)
      requires Valid() && node in index.Values
      modifies this, store, index.Values
      ensures index == old(index) && ok == old(CanSwitch(node.parent, node.block))
      ensures bestChain == if ok then node else old(AbortedTip(node.parent, node.block))
      ensures store.Held() == HeldOnMove(others, old(bestChain), old(store.db.current), node.parent, node.block)
      ensures MissedKept()
      ensures Valid()
    {
      hide Valid, Full, Reverse, ForkAt, SwitchesTo, StopsAt, TipAfter, Switches, MissedStay, HeldAfter, HeldOnMove;
      BestIsIndexed();
      IsLinked();
      var detach, attach, k := GetReorganizeNodes(node);
      SwitchToChild(others, bestChain, store.db.current, node.parent, node, k);
      MissedByMove(index.Values, root, others, bestChain, store.db.current, node, k);
      ok := ReorganizeChain(detach, attach, node, k);
    }

    lemma {:induction false} IsLinked()
      requires Valid()
      ensures Linked() && Marked() && Tree(index.Values, root)
    {
    }

    lemma {:induction false} NewNodeSums(node: BlockNode, block: Block)
      requires NewNode(node, block)
      ensures node.workSum == node.parent.workSum + CalcWork(block.header.bits) && Full(node) == Full(node.parent) + [node]
      ensures ChildOf(node, node.parent, block)
    {
    }

    lemma {:induction false} SameHash(n: BlockNode)
      requires Linked() && n in index.Values
      ensures n.hash == bestChain.hash <==> n == bestChain
    {
    }

    // ----- Accepting a block -----

    lemma {:induction false} HeightIsDepth(n: BlockNode)
      requires Linked() && AllVetted() && n in index.Values
      ensures n.height == |n.path|
      decreases |n.path|
    {
      hide ContextRules, Sane, CompactToBig;
      assert Vetted(n);
      if n.parent != null {
        HeightIsDepth(n.parent);
      }
    }

    lemma {:induction false} HeadersLinked(n: BlockNode)
      requires Linked() && AllVetted() && n in index.Values
      ensures HeaderChains.Linked(HeadersOf(Blocks(Full(n))))
      ensures |HeadersOf(Blocks(Full(n)))| == n.height + 1
    {
      hide ContextRules, Sane, Vetted;
      HeightIsDepth(n);
      var headers := HeadersOf(Blocks(Full(n)));
      forall i | 0 <= i < |headers| ensures headers[i].height == i {
        PathInTree(index.Values, root, n, i);
        HeightIsDepth(Full(n)[i]);
        assert |Full(Full(n)[i])| == i + 1;
      }
    }

    lemma {:induction false} TargetNotNegative(n: BlockNode)
      requires AllVetted() && n in index.Values
      ensures CompactToBig(n.bits) >= 0
    {
      hide ContextRules, Sane;
      assert Vetted(n);
    }

    /** The headers from the root to a node, gathered by following the parents. */
    method HeadersUpTo(node: BlockNode) returns (headers: seq<Header>)
      requires Linked() && node in index.Values
      ensures headers == HeadersOf(Blocks(Full(node)))
    {
      hide NodeOk, Tree, Full;
      FullEnds(node);
      var n := node;
      headers := [node.header];
      ghost var all, j := HeadersOf(Blocks(Full(node))), |node.path|;
      SameHeader(node);
      while n.parent != null
        invariant 0 <= j < |Full(node)| && n == Full(node)[j] && n in index.Values && headers == all[j..]
        decreases j
      {
        Above(index.Values, root, node, j);
        n := n.parent;
        j := j - 1;
        SameHeader(n);
        headers := [n.header] + headers;
      }
      PathInTree(index.Values, root, node, j);
    }

    lemma {:induction false} SameHeader(n: BlockNode)
      requires Linked() && n in index.Values
      ensures n.header == n.block.header && n.hash == n.block.header.hash && n.height == n.block.header.height
    {
    }

    /** The block fits on top of its parent, which is known. */
    ghost predicate PlacedIn(index: map<Uint256, BlockNode>, block: Block) {
      && block.header.previous != emptyHash && block.header.previous in index
      && var prev := index[block.header.previous];
         block.header.height == prev.height + 1 && ContextRules(params, HeadersOf(Blocks(Full(prev))), block)
    }

    ghost predicate Placed(block: Block)
      reads this
    {
      PlacedIn(index, block)
    }

    /** What a check of the block alone tells about it. */
    ghost predicate Checked(block: Block) {
      Sane(block.txs) && Shaped(block.txs, asset) && TargetInRange(block.header.bits, params.powLimit)
    }

    /** A block that claims to be the first passes for one until its parent is looked at. */
    ghost predicate ClaimsGenesis(block: Block) {
      block.header.previous == emptyHash && block.header.height == 0
    }

    /** The outcome for a block, told from the state before. */
    ghost function ExpectedAt(s: ChainState, block: Block): Outcome {
      if ClaimsGenesis(block) then Crashed
      else if !PlacedIn(s.index, block) then Rejected
      else ExpectedOn(HeldAt(s), s, s.index[block.header.previous], block)
    }

    ghost function Expected(block: Block): Outcome
      reads this, store
    {
      ExpectedAt(State(), block)
    }

    /** What the outcome makes of the state: the tree, the tip and the ledger that the store holds. */
    ghost predicate LeadsAt(s: ChainState, block: Block, outcome: Outcome, s': ChainState) {
      if Untouched(outcome) then s' == s
      else
        && GrewBy(s.index, block, s'.index)
        && var node, prev := s'.index[block.header.hash], s.index[block.header.previous];
           match outcome
           case Extended =>
             && s'.best == node && HeldAt(s') == Next(HeldAt(s), block)
             && (SyncedAt(node) <==> SyncedAt(s.best) && RechargesSpendUnspent(HeldAt(s), block.txs))
           case SideChain => s'.best == s.best && s'.current == s.current
           case Reorganized => s'.best == node && HeldAt(s') == HeldOnMove(others, s.best, s.current, prev, block)
           case Aborted => s'.best == StopsAt(others, s.best, s.current, prev, block) && HeldAt(s') == HeldOnMove(others, s.best, s.current, prev, block)
           case _ => false
    }

    lemma {:induction false} HeldNow()
      requires Valid()
      ensures store.Held() == HeldAt(State())
    {
      hide Linked, Marked, Cached, AllVetted, HeaderChains.GoodParams, ChainStore.Valid, LedgerOf, Persisted, Written, Passed;
    }

    lemma {:induction false} TxsHeld()
      requires Valid()
      ensures Represents(store.db, store.Held()) && store.Held().txs == store.db.txs && WellFormed(store.Held())
    {
      hide Linked, Marked, Cached, AllVetted, HeaderChains.GoodParams, LedgerOf, Persisted, Written, Passed, ValidChain, WellFormed;
    }

    method CheckPlace(block: Block) returns (ok: bool)
      requires Valid() && Checked(block)
      ensures ok <==> Placed(block)
    {
      assert block.txs != [];
      hide ChainStore.Valid, NodeOk, Tree, Full, Vetted, Stored, HeaderChains.GoodParams, ContextRules, CompactToBig, Blocks, HeadersOf, HeaderChains.Linked;
      if block.header.previous == emptyHash || block.header.previous !in index {
        return false;
      }
      var prevNode := index[block.header.previous];
      if block.header.height != prevNode.height + 1 {
        return false;
      }
      HeadersLinked(prevNode);
      TargetNotNegative(prevNode);
      LastHeader(prevNode);
      var headers := HeadersUpTo(prevNode);
      ok := PowCheckBlockContext(params, headers, block);
    }

    lemma {:induction false} LastHeader(n: BlockNode)
      requires Linked() && n in index.Values
      ensures var headers := HeadersOf(Blocks(Full(n)));
        |headers| > 0 && headers[|headers| - 1].bits == n.bits
    {
    }

    /** What an outcome means for the tree, the tip and the store. */
    twostate predicate LeadsTo(outcome: Outcome, block: Block)
      reads this, store
    {
      && LeadsAt(old(State()), block, outcome, State())
      && (Untouched(outcome) ==> ChainSame())
    }

    twostate predicate ChainSame()
      reads this, store
    {
      index == old(index) && bestChain == old(bestChain) && blockCache == old(blockCache) && store.db == old(store.db) && store.chain == old(store.chain)
    }

    /** Nodes that are new in the index were just created. */
    twostate predicate Grown()
      reads this
    {
      fresh(index.Values - old(index.Values))
    }

    /** After an aborted reorganisation the tip has not the most work.  Else a tip with the most work is
        replaced by one, and every new tip has more work than the last. */
    twostate predicate WorkAfter(aborted: bool)
      reads this
    {
      if aborted then !MostWork(index.Values, bestChain)
      else Progress(old(index.Values), old(bestChain), index.Values, bestChain)
    }

    /** What the store missed is still on the main chain. */
    twostate predicate MissedKept()
      reads this
    {
      MissedStay(old(bestChain), bestChain)
    }

    /** Adds a block to the tree, and moves the main chain to it if it has the most work. */
    method MaybeAcceptBlock(block: Block) returns (outcome: Outcome)
      requires Valid() && Checked(block) && block.header.hash !in index
      modifies this, store, index.Values
      ensures Valid()
      ensures outcome == old(Expected(block)) && LeadsTo(outcome, block)
      ensures Grown() && WorkAfter(outcome.Aborted?) && MissedKept()
    {
      hide Valid, Checked, PlacedIn, ExpectedOn, Next, MissedStay, HeldAt;
      MissedSame(bestChain);
      if block.header.previous == emptyHash && block.header.height == 0 {
        SameProgress();
        return Crashed;
      }
      var ok := CheckPlace(block);
      if !ok {
        SameProgress();
        return Rejected;
      }
      PlacedMeans(block);
      outcome := AddNode(block, index[block.header.previous]);
    }

    lemma {:induction false} SameProgress()
      ensures Progress(index.Values, bestChain, index.Values, bestChain)
    {
    }

    lemma {:induction false} PlacedMeans(block: Block)
      requires Placed(block)
      ensures block.header.previous != emptyHash && block.header.previous in index
    {
    }

    /** Creates a node for a block that fits on its parent, and adds it to the tree. */
    method AddNode(block: Block, prevNode: BlockNode) returns (outcome: Outcome)
      requires block.header.previous in index && prevNode == index[block.header.previous]
      requires Valid() && Checked(block) && block.header.hash !in index && Placed(block)
      modifies this, store, index.Values
      ensures Valid()
      ensures outcome == ExpectedOn(old(HeldAt(State())), old(State()), prevNode, block) && LeadsTo(outcome, block)
      ensures Grown() && WorkAfter(outcome.Aborted?) && MissedKept()
    {
      hide Valid, Checked, Placed, NewNode, NodeOk, CalcWork, StopsAt, SwitchesTo, Next, MissedStay, RechargesSpendUnspent, Passes, HeldAt, HeldOnMove, Full, SyncedAt;
      HeldNow();
      var node := new BlockNode.NewBlockNode(block, prevNode);
      NewNodeFits(node, block);
      NewNodeWork(node, block);
      NewNodeSums(node, block);
      AbortedTipWork(prevNode, block);
      outcome := ConnectBestChain(node, block);
      HeldNow();
      WorkOfOutcome(old(index), old(bestChain), node, outcome);
      if outcome.Aborted? {
        assert index[node.hash] == node;
      }
    }

    /** An aborted reorganisation leaves less work than the block that caused it brought. */
    lemma {:induction false} AbortedTipWork(prev: BlockNode, block: Block)
      requires Valid() && prev in index.Values
      ensures AbortedTip(prev, block).workSum <= bestChain.workSum || AbortedTip(prev, block).workSum <= prev.workSum
    {
      hide Marked, Cached, Stored, AllVetted, Tree, NodeOk, HeaderChains.GoodParams, Full, Remains, Connects, ForkLedger;
      AllWorkGrows();
      hide WorkGrows;
      var tip := AbortedTip(prev, block);
      FullEnds(prev);
      FullEnds(bestChain);
      if tip in Full(bestChain) {
        AncestorsHaveLess(index.Values, root, bestChain, tip);
      } else {
        AncestorsHaveLess(index.Values, root, prev, tip);
      }
    }

    lemma {:induction false} AllWorkGrows()
      requires Valid()
      ensures WorkGrows(index.Values)
    {
      hide Marked, Cached, Stored, ContextRules, Sane, TargetInRange, CalcWork, Pow2, CompactToBig;
      forall n | n in index.Values && n.parent != null ensures n.workSum > n.parent.workSum {
        assert Vetted(n);
        WorkAdds(n, params.powLimit);
      }
    }

    lemma {:induction false} NewNodeWork(node: BlockNode, block: Block)
      requires Valid() && NewNode(node, block)
      ensures node.workSum > node.parent.workSum
    {
      hide ContextRules, Sane, TargetInRange, CompactToBig, Pow2, Tree, Marked, Cached, Stored, AllVetted;
      WorkAdds(node, params.powLimit);
    }

    lemma {:induction false} WorkOfOutcome(before: map<Uint256, BlockNode>, tip: BlockNode, node: BlockNode, outcome: Outcome)
      requires node.parent != null && node.workSum > node.parent.workSum
      requires Untouched(outcome) ==> index == before && bestChain == tip
      requires !Untouched(outcome) ==> index == before[node.hash := node]
      requires outcome.Extended? ==> node.parent == tip && bestChain == node
      requires outcome.SideChain? ==> bestChain == tip && node.workSum <= tip.workSum
      requires outcome.Reorganized? ==> bestChain == node && node.workSum > tip.workSum
      ensures !outcome.Aborted? ==> Progress(before.Values, tip, index.Values, bestChain)
    {
    }

    lemma {:induction false} NewNodeFits(node: BlockNode, block: Block)
      requires block.header.previous in index && Valid() && Checked(block) && Placed(block) && block.header.hash !in index
      requires node.parent == index[block.header.previous] && node.block == block && !node.inMainChain
      requires node.header == block.header && node.hash == block.header.hash && node.height == block.header.height && node.bits == block.header.bits
      requires node.path == node.parent.path + [node.parent] && node.workSum == CalcWork(block.header.bits) + node.parent.workSum
      ensures NewNode(node, block)
    {
      hide Marked, Cached, Stored, AllVetted, ContextRules, Sane, Shaped, TargetInRange, CalcWork, Tree, HeaderChains.GoodParams;
    }
  }
}
