/** Block locators: how two nodes find where their chains part. */
module Locators {
  import opened Core
  import opened Words
  import opened Ledgers
  import opened ChainStores
  import opened BlockTree
  import opened Switching
  import opened Blockchains
  import opened BlockRules
  import opened HeaderChains

  const MAX_BLOCK_LOCATORS := 500

  /** Heights go down from `t` to genesis, and each step at most doubles the distance from `t`. */
  ghost predicate GoodHeights(heights: seq<int>, t: int) {
    && |heights| > 0 && heights[0] == t && heights[|heights| - 1] == 0
    && Descending(heights)
    && forall j :: 0 <= j < |heights| - 1 ==> AtMostDoubles(t, heights[j], heights[j + 1])
  }

  /** How far below the start entry `j` of a locator is: ten steps of one, then steps that double. */
  ghost function Distance(j: nat): nat {
    if j <= 10 then j else 8 + Pow2(j - 9)
  }

  /** Entry after entry is where it should be, and genesis comes where the next would not be above it. */
  ghost predicate Spaced(heights: seq<int>, t: int) {
    && |heights| > 0 && (forall j :: 0 <= j < |heights| - 1 ==> heights[j] == t - Distance(j) && heights[j] > 0)
    && heights[|heights| - 1] == 0 && t <= Distance(|heights| - 1)
  }

  lemma {:induction false} DistanceStep(n: nat, doubled: nat)
    requires n >= 1 && doubled == (if n <= 11 then 0 else n - 11)
    ensures Distance(n) == Distance(n - 1) + Pow2(if n > 10 then doubled + 1 else doubled)
  {
    assert Pow2(0) == 1;
    if n == 11 {
      assert Pow2(1) == 2 && Pow2(2) == 4;
    }
  }

  ghost predicate Descending(heights: seq<int>) {
    forall i, j :: 0 <= i < j < |heights| ==> heights[i] > heights[j]
  }

  ghost predicate AtMostDoubles(t: int, h: int, next: int) {
    t - next <= 2 * (t - h + 1)
  }

  /** The number of listed blocks `n`, the distance `a` from the start, the increment and how often it
      was doubled. */
  ghost predicate Pace(n: nat, a: int, increment: int, doubled: nat) {
    && increment == Pow2(doubled) && n <= 11 + doubled
    && if doubled == 0 then a >= n - 1 else n >= 11 && a >= 8 + 2 * increment
  }

  lemma {:induction false} PaceBounds(n: nat, a: int, increment: int, doubled: nat)
    requires n >= 1 && Pace(n, a, increment, doubled) && a < 0x8000_0000
    ensures n <= 40 && 1 <= increment <= 0x4000_0000
  {
    Pow2Of31();
    HalfOf31();
    hide Pow2;
    if doubled >= 30 {
      Pow2Monotone(30, doubled);
    } else {
      Pow2Monotone(doubled, 30);
    }
  }

  lemma {:induction false} HalfOf31()
    ensures 2 * Pow2(30) == Pow2(31) && Pow2(0) == 1
  {
  }

  type int32 = x: int | -0x8000_0000 <= x < 0x8000_0000

  /** What a locator lists: the block itself, blocks of the main chain, and genesis. */
  ghost predicate Lists(locator: seq<Uint256>, heights: seq<int>, blockHashes: map<int, Uint256>) {
    && |locator| == |heights|
    && forall j :: 0 < j < |locator| ==> heights[j] in blockHashes && locator[j] == blockHashes[heights[j]]
  }

  lemma {:induction false} NextPace(n: nat, a: int, increment: int, doubled: nat)
    requires n >= 1 && Pace(n, a, increment, doubled)
    ensures var next, more := if n > 10 then 2 * increment else increment, if n > 10 then doubled + 1 else doubled;
      Pace(n + 1, a + next, next, more) && Pace(n, a + next, next, more)
    ensures n > 10 ==> 1 <= increment && 2 * increment <= a
  {
  }

  lemma {:induction false} DescendMore(heights: seq<int>, h: int)
    requires Descending(heights) && |heights| > 0 && heights[|heights| - 1] > h
    ensures Descending(heights + [h])
  {
  }

  /** Steps down the main chain from height `t`, first one by one, then in steps that double. */
  method LocatorHashes(blockHashes: map<int, Uint256>, genesisHash: Uint256, hash: Uint256, t: int32)
    returns (locator: seq<Uint256>, ghost heights: seq<int>)
    requires t > 0 && 0 in blockHashes && blockHashes[0] == genesisHash
    ensures 1 < |locator| <= 41 && Lists(locator, heights, blockHashes) && locator[0] == hash
    ensures heights[0] == t && heights[|heights| - 1] == 0 && Descending(heights)
    ensures (forall h :: 0 <= h <= t ==> h in blockHashes) ==> GoodHeights(heights, t) && Spaced(heights, t)
  {
    hide Pow2, Pace, Distance, GoodHeights;
    locator, heights := [hash], [t];
    var blockHeight: int32, increment: int32 := t, 1;
    ghost var doubled := 0;
    ghost var all := forall h :: 0 <= h <= t ==> h in blockHashes;
    FirstPace();
    while |locator| < MAX_BLOCK_LOCATORS - 1
      invariant 1 <= |locator| && Lists(locator, heights, blockHashes) && locator[0] == hash
      invariant heights[0] == t && Descending(heights) && 1 <= blockHeight <= heights[|heights| - 1]
      invariant Pace(|locator|, t - blockHeight, increment, doubled) && |locator| <= 40
      invariant all ==> blockHeight == heights[|heights| - 1] && doubled == if |locator| <= 11 then 0 else |locator| - 11
      invariant all ==> forall j :: 0 <= j < |heights| ==> heights[j] == t - Distance(j)
      invariant increment == Pow2(doubled)
      decreases blockHeight
    {
      PaceBounds(|locator|, t - blockHeight, increment, doubled);
      NextPace(|locator|, t - blockHeight, increment, doubled);
      if all {
        DistanceStep(|locator|, doubled);
      }
      if |locator| > 10 {
        increment, doubled := increment * 2, doubled + 1;
      }
      blockHeight := blockHeight - increment;
      if blockHeight < 1 {
        break;
      }
      if blockHeight !in blockHashes {
        continue;
      }
      DescendMore(heights, blockHeight);
      locator, heights := locator + [blockHashes[blockHeight]], heights + [blockHeight];
      PaceBounds(|locator|, t - blockHeight, increment, doubled);
    }
    DescendMore(heights, 0);
    locator, heights := locator + [genesisHash], heights + [0];
    if all {
      SpacedIsGood(heights, t);
    }
  }

  lemma {:induction false} SpacedIsGood(heights: seq<int>, t: int)
    requires Spaced(heights, t) && |heights| > 0 && heights[0] == t && Descending(heights)
    ensures GoodHeights(heights, t)
  {
    hide Distance;
    forall j | 0 <= j < |heights| - 1 ensures AtMostDoubles(t, heights[j], heights[j + 1]) {
      StepDoubles(j);
    }
  }

  lemma {:induction false} StepDoubles(j: nat)
    ensures Distance(j + 1) <= 2 * (Distance(j) + 1)
  {
    DistanceStep(j + 1, if j + 1 <= 11 then 0 else j - 10);
    assert Pow2(0) == 1 && Pow2(1) == 2;
  }

  lemma {:induction false} FirstPace()
    ensures Pace(1, 0, 1, 0) && Distance(0) == 0 && Pow2(0) == 1
  {
  }

  // ----- The main chain by height -----

  /** The store finds each of its blocks by its height. */
  lemma {:induction false} HashAt(chain: seq<Block>, i: nat)
    requires ValidChain(chain) && i < |chain|
    ensures chain[i].header.height in LedgerOf(chain).blockHashes && LedgerOf(chain).blockHashes[chain[i].header.height] == chain[i].header.hash
    ensures chain[i].header.height <= chain[|chain| - 1].header.height
  {
    hide LedgerOf, ValidChain;
    LastHash(chain);
    var last := |chain| - 1;
    if i < last {
      assert chain[..last][i] == chain[i];
      HashAt(chain[..last], i);
    }
  }

  lemma {:induction false} LastHash(chain: seq<Block>)
    requires ValidChain(chain) && chain != []
    ensures var init, b := chain[..|chain| - 1], chain[|chain| - 1];
      && ValidChain(init) && LedgerOf(chain).blockHashes == LedgerOf(init).blockHashes[b.header.height := b.header.hash]
      && (init != [] ==> b.header.height > init[|init| - 1].header.height)
  {
    hide Writable, FreshTxs, FreshRecharges, PutTxs, UnspentAfter;
    TipOfChain(chain[..|chain| - 1]);
  }

  /** A locator for an indexed block that is not genesis.  On the main chain, if the store is in step,
      it leads down to genesis with gaps that at most double the distance. */
  ghost predicate Locates(c: Blockchain, n: BlockNode, locator: seq<Uint256>, heights: seq<int>)
    reads c, c.store, n
  {
    && 1 < |locator| <= 41 && Lists(locator, heights, c.store.db.blockHashes) && locator[0] == n.hash
    && heights[0] == n.height && heights[|heights| - 1] == 0 && Descending(heights)
    && (n.inMainChain && c.Synced() ==> ListsMain(locator, heights, c.Main()) && GoodHeights(heights, n.height) && Spaced(heights, n.height))
  }

  method BlockLocatorFromHash(c: Blockchain, genesisHash: Uint256, inhash: Uint256) returns (locator: seq<Uint256>, ghost heights: seq<int>)
    requires inhash in c.index ==> c.index[inhash].height < 0x8000_0000
    requires c.Valid() && genesisHash == c.root.hash
    ensures inhash == genesisHash || inhash !in c.index ==> locator == [inhash]
    ensures inhash != genesisHash && inhash in c.index ==> Locates(c, c.index[inhash], locator, heights)
  {
    hide ChainStore.Valid, Blockchain.Valid, Blockchain.Synced, GoodHeights, Descending, Lists, ListsMain;
    locator, heights := [inhash], [0];
    if inhash == genesisHash {
      return;
    }
    GenesisStored(c);
    if inhash !in c.index {
      NotStored(c, inhash);
      var block := c.store.GetBlock(inhash);
      if block.None? {
        return;
      }
    }
    var node := c.index[inhash];
    RootPlace(c, inhash);
    locator, heights := LocatorHashes(c.store.db.blockHashes, genesisHash, inhash, node.height);
    if node.inMainChain && c.Synced() {
      MainLocator(c, node, locator, heights);
    }
  }

  lemma {:induction false} NotStored(c: Blockchain, hash: Uint256)
    requires c.Valid() && hash !in c.index
    ensures hash !in c.store.db.headers
  {
    hide ChainStore.Valid, NodeOk, Tree, Full, Blockchain.Marked, Blockchain.Cached, Blockchain.AllVetted, Keeps;
    if hash in c.store.db.headers {
      c.StoredIsIndexed(hash);
    }
  }

  lemma {:induction false} GenesisStored(c: Blockchain)
    requires c.Valid()
    ensures 0 in c.store.db.blockHashes && c.store.db.blockHashes[0] == c.root.hash
  {
    hide NodeOk, Tree, LedgerOf, ValidChain, Blockchain.Marked, Blockchain.Cached, GoodParams, Persisted, Written, Passed, Blockchain.Vetted;
    PersistedTail(c.Main());
    PathInTree(c.index.Values, c.root, c.bestChain, 0);
    c.SameHeader(c.root);
    c.HeightIsDepth(c.root);
    HashAt(c.store.chain, 0);
  }

  /** On the main chain every height is found, and leads to the block of that height. */
  lemma {:induction false} MainAt(c: Blockchain, h: nat)
    requires c.Valid() && c.Synced() && h < |c.Main()|
    ensures h in c.store.db.blockHashes && c.store.db.blockHashes[h] == c.Main()[h].header.hash
  {
    hide NodeOk, Tree, Full, LedgerOf, ValidChain, Blockchain.Marked, Blockchain.Cached, GoodParams, Persisted, Written, Passed, Blockchain.Vetted;
    PathInTree(c.index.Values, c.root, c.bestChain, h);
    var n := Full(c.bestChain)[h];
    FullEnds(n);
    c.SameHeader(n);
    c.HeightIsDepth(n);
    HashAt(c.store.chain, h);
  }

  lemma {:induction false} NodePlace(c: Blockchain, n: BlockNode)
    requires c.Valid() && n in c.index.Values && n.inMainChain
    ensures n.height < |c.Main()| && c.Main()[n.height].header.hash == n.hash
  {
    hide ChainStore.Valid, NodeOk, Tree, Full, Blockchain.Cached, Blockchain.AllVetted, Blockchain.Stored, GoodParams;
    OnPath(c.index.Values, c.root, c.bestChain, n);
    c.HeightIsDepth(n);
    c.SameHeader(n);
  }

  /** Only genesis has height zero. */
  lemma {:induction false} RootPlace(c: Blockchain, hash: Uint256)
    requires c.Valid() && hash in c.index && hash != c.root.hash
    ensures c.index[hash].height > 0 && c.index[hash].hash == hash
  {
    hide ChainStore.Valid, Blockchain.Marked, Blockchain.Cached, Blockchain.Stored, GoodParams, ContextRules;
    var n := c.index[hash];
    assert NodeOk(n);
  }

  lemma {:induction false} MainLocator(c: Blockchain, n: BlockNode, locator: seq<Uint256>, heights: seq<int>)
    requires c.Valid() && c.Synced() && n in c.index.Values && n.inMainChain
    requires Lists(locator, heights, c.store.db.blockHashes) && |locator| > 0 && locator[0] == n.hash && heights[0] == n.height
    requires heights[|heights| - 1] == 0 && Descending(heights)
    ensures ListsMain(locator, heights, c.Main())
    ensures forall h :: 0 <= h <= n.height ==> h in c.store.db.blockHashes
  {
    hide Blockchain.Valid, Blockchain.Synced, Blockchain.Main;
    NodePlace(c, n);
    forall h | 0 <= h <= n.height ensures h in c.store.db.blockHashes && c.store.db.blockHashes[h] == c.Main()[h].header.hash {
      MainAt(c, h);
    }
    forall j | 0 <= j < |locator| ensures 0 <= heights[j] <= n.height {
      assert j > 0 ==> heights[0] > heights[j];
      assert j < |locator| - 1 ==> heights[j] > heights[|heights| - 1];
    }
  }

  /** All blocks of the locator are on a chain. */
  ghost predicate ListsMain(locator: seq<Uint256>, heights: seq<int>, main: seq<Block>) {
    && |locator| == |heights|
    && forall j :: 0 <= j < |locator| ==> 0 <= heights[j] < |main| && locator[j] == main[heights[j]].header.hash
  }

  // ----- Where two chains part -----

  /** The first block of the locator that the store has. */
  method LatestLocatorHash(store: ChainStore, locator: seq<Uint256>, emptyHash: Uint256) returns (startHash: Uint256)
    requires store.Valid()
    ensures startHash == FirstKnown(store.db.headers.Keys, locator, emptyHash)
  {
    hide ChainStore.Valid;
    for i := 0 to |locator|
      invariant FirstKnown(store.db.headers.Keys, locator[i..], emptyHash) == FirstKnown(store.db.headers.Keys, locator, emptyHash)
    {
      var block := store.GetBlock(locator[i]);
      if locator[i] in store.db.headers {
        StoredReadsBack(store, locator[i]);
      }
      if block.Some? {
        return locator[i];
      }
    }
    return emptyHash;
  }

  ghost function FirstKnown(known: set<Uint256>, locator: seq<Uint256>, emptyHash: Uint256): Uint256 {
    if locator == [] then emptyHash else if locator[0] in known then locator[0] else FirstKnown(known, locator[1..], emptyHash)
  }

  /** The stored transactions of a stored block are all there. */
  lemma {:induction false} StoredReadsBack(store: ChainStore, hash: Uint256)
    requires store.Valid() && hash in store.db.headers
    ensures forall i :: 0 <= i < |store.db.headers[hash].txHashes| ==> store.db.headers[hash].txHashes[i] in store.db.txs
  {
    TxsOfHeader(store.chain, hash);
  }

  lemma {:induction false} TxsOfHeader(chain: seq<Block>, hash: Uint256)
    requires hash in LedgerOf(chain).headers
    ensures forall i :: 0 <= i < |LedgerOf(chain).headers[hash].txHashes| ==> LedgerOf(chain).headers[hash].txHashes[i] in LedgerOf(chain).txs
  {
    var last := |chain| - 1;
    var l, b := LedgerOf(chain[..last]), chain[last];
    PutTxsKeys(l.txs, b.txs, b.header.height);
    if hash != b.header.hash {
      TxsOfHeader(chain[..last], hash);
    } else {
      assert forall i :: 0 <= i < |b.txs| ==> TxHashes(b.txs)[i] in HashSet(b.txs);
    }
  }

  /** A peer that has the main chain up to height `f` and nothing above it starts at a block that is
      at most twice as far from the tip as the place where the chains part. */
  lemma {:induction false} LocatorBound(locator: seq<Uint256>, heights: seq<int>, main: seq<Block>, t: nat, peer: set<Uint256>, f: nat, emptyHash: Uint256)
    requires ListsMain(locator, heights, main) && GoodHeights(heights, t) && f <= t
    requires forall i :: 0 <= i < |main| ==> (main[i].header.hash in peer <==> i <= f)
    ensures exists g: nat :: g <= f && g < |main| && FirstKnown(peer, locator, emptyHash) == main[g].header.hash && t - g <= 2 * (t - f)
  {
    var g := Search(locator, heights, main, t, peer, f, emptyHash, 0);
  }

  /** Walks down the locator from its entry `j`, all entries before it being unknown to the peer. */
  lemma {:induction false} Search(locator: seq<Uint256>, heights: seq<int>, main: seq<Block>, t: nat, peer: set<Uint256>, f: nat, emptyHash: Uint256, j: nat) returns (g: nat)
    requires ListsMain(locator, heights, main) && GoodHeights(heights, t) && f <= t && j < |heights|
    requires forall i :: 0 <= i < |main| ==> (main[i].header.hash in peer <==> i <= f)
    requires j > 0 ==> heights[j - 1] > f
    ensures g <= f && g < |main| && FirstKnown(peer, locator[j..], emptyHash) == main[g].header.hash && t - g <= 2 * (t - f)
    decreases |heights| - j
  {
    g := heights[j];
    assert locator[j..][0] == locator[j] && locator[j..][1..] == locator[j + 1..];
    if heights[j] > f {
      assert j + 1 < |heights|;
      g := Search(locator, heights, main, t, peer, f, emptyHash, j + 1);
    } else if j > 0 {
      assert AtMostDoubles(t, heights[j - 1], heights[j]);
    }
  }
}
