/** What connecting and disconnecting blocks does to the store, on ledgers and lists of blocks: how far
    a change of branch gets can be told before it starts. */
module Switching {
  import opened Core
  import opened Ledgers
  import opened ChainStores
  import opened BlockValidator

  // ----- Connecting -----

  /** The ledger after a block was connected: the store passes over what it cannot write. */
  ghost function Next(l: Ledger, b: Block): Ledger {
    if Writable(l, b) then Apply(l, b) else l
  }

  ghost function NextAll(l: Ledger, blocks: seq<Block>): Ledger
    decreases |blocks|
  {
    if blocks == [] then l else NextAll(Next(l, blocks[0]), blocks[1..])
  }

  /** The number of blocks that are connected before one fails its checks. */
  ghost function Connects(others: OtherChecks, l: Ledger, blocks: seq<Block>): (n: nat)
    ensures n <= |blocks|
    decreases |blocks|
  {
    if blocks == [] || !Passes(others, l, blocks[0]) then 0
    else 1 + Connects(others, Next(l, blocks[0]), blocks[1..])
  }

  /** All blocks are connected exactly when each passes its checks on the ledger that those before it
      lead to; else the first that does not pass is where it stops. */
  lemma {:induction false} ConnectsMeans(others: OtherChecks, l: Ledger, blocks: seq<Block>)
    ensures var n := Connects(others, l, blocks);
      && (forall i :: 0 <= i < n ==> Passes(others, NextAll(l, blocks[..i]), blocks[i]))
      && (n < |blocks| ==> !Passes(others, NextAll(l, blocks[..n]), blocks[n]))
    decreases |blocks|
  {
    hide Passes, Next;
    if blocks != [] && Passes(others, l, blocks[0]) {
      var rest, l' := blocks[1..], Next(l, blocks[0]);
      ConnectsMeans(others, l', rest);
      forall i | 0 <= i < |rest| ensures NextAll(l, blocks[..i + 1]) == NextAll(l', rest[..i]) && blocks[i + 1] == rest[i] {
        assert blocks[..i + 1][1..] == rest[..i];
      }
      var n := Connects(others, l, blocks);
      forall i | 0 <= i < n ensures Passes(others, NextAll(l, blocks[..i]), blocks[i]) {
        if i > 0 {
          assert Passes(others, NextAll(l', rest[..i - 1]), rest[i - 1]);
        }
      }
    }
  }

  lemma {:induction false} NextAllStep(l: Ledger, blocks: seq<Block>, n: nat)
    requires n < |blocks|
    ensures NextAll(l, blocks[..n + 1]) == Next(NextAll(l, blocks[..n]), blocks[n])
    decreases n
  {
    hide Next;
    if n == 0 {
      assert blocks[..1][1..] == [] && blocks[..0] == [];
    } else {
      assert blocks[..n + 1][1..] == blocks[1..][..n] && blocks[..n][1..] == blocks[1..][..n - 1];
      NextAllStep(Next(l, blocks[0]), blocks[1..], n - 1);
    }
  }

  // ----- What the store keeps of a chain -----

  lemma {:induction false} PersistedStep(chain: seq<Block>, b: Block)
    ensures Persisted(chain + [b]) == Persisted(chain) + if Writable(LedgerOf(Persisted(chain)), b) then [b] else []
  {
    assert (chain + [b])[..|chain|] == chain;
  }

  /** Connecting to the ledger of what is kept of a chain gives the ledger of what is kept of the longer chain. */
  lemma {:induction false} NextPersisted(chain: seq<Block>, b: Block, tip: Option<Tip>)
    ensures var l := LedgerOf(Persisted(chain)).(tip := tip);
      Next(l, b) == LedgerOf(Persisted(chain + [b])).(tip := if Writable(l, b) then TipAt(b) else tip)
  {
    hide Apply, Writable;
    var p := Persisted(chain);
    PersistedStep(chain, b);
    TipDoesNotMatter(LedgerOf(p), tip, b);
    assert (p + [b])[..|p|] == p;
    assert LedgerOf(p + [b]) == Apply(LedgerOf(p), b);
    TipOfChain(p + [b]);
  }

  /** Block `i` of a chain was written by the store. */
  ghost predicate Written(chain: seq<Block>, i: nat)
    requires i < |chain|
  {
    Writable(LedgerOf(Persisted(chain[..i])), chain[i])
  }

  /** The whole chain is stored exactly when every block of it was written. */
  lemma {:induction false} PersistedAll(chain: seq<Block>)
    ensures |Persisted(chain)| <= |chain|
    ensures Persisted(chain) == chain <==> forall i :: 0 <= i < |chain| ==> Written(chain, i)
  {
    if chain != [] {
      var last := |chain| - 1;
      var init := chain[..last];
      LastWritten(chain);
      hide Written, Persisted;
      PersistedAll(init);
      forall i | 0 <= i < last ensures Written(chain, i) == Written(init, i) {
        WrittenInit(chain, i);
      }
    }
  }

  lemma {:induction false} LastWritten(chain: seq<Block>)
    requires chain != []
    ensures var last := |chain| - 1;
      var init := Persisted(chain[..last]);
      && |Persisted(chain)| == |init| + (if Written(chain, last) then 1 else 0)
      && (|init| <= last ==> (Persisted(chain) == chain <==> Written(chain, last) && init == chain[..last]))
  {
    hide Writable, LedgerOf;
    var last := |chain| - 1;
    var init := Persisted(chain[..last]);
    assert chain == chain[..last] + [chain[last]];
    if Written(chain, last) {
      assert Persisted(chain) == init + [chain[last]];
      assert Persisted(chain)[..|init|] == init;
    } else {
      assert Persisted(chain) == init;
    }
  }

  lemma {:induction false} WrittenInit(chain: seq<Block>, i: nat)
    requires i < |chain| - 1
    ensures Written(chain, i) == Written(chain[..|chain| - 1], i)
  {
    assert chain[..|chain| - 1][..i] == chain[..i];
  }

  /** Stored blocks are blocks of the chain. */
  lemma {:induction false} PersistedFrom(chain: seq<Block>)
    ensures forall b :: b in Persisted(chain) ==> b in chain
  {
    if chain != [] {
      hide Writable;
      PersistedFrom(chain[..|chain| - 1]);
    }
  }

  /** Among distinct hashes, the store knows those of the blocks that were written. */
  lemma {:induction false} PersistedHas(chain: seq<Block>, i: nat)
    requires i < |chain| && forall j :: 0 <= j < |chain| && chain[j].header.hash == chain[i].header.hash ==> j == i
    ensures (exists b :: b in Persisted(chain) && b.header.hash == chain[i].header.hash) <==> Written(chain, i)
  {
    var last := |chain| - 1;
    var init, hash := chain[..last], chain[i].header.hash;
    assert chain == init + [chain[last]];
    PersistedFrom(init);
    LastHas(chain, hash);
    hide Written, Persisted, Writable, LedgerOf;
    if i < last {
      WrittenInit(chain, i);
      PersistedHas(init, i);
      assert chain[last].header.hash != hash;
    } else {
      forall b | b in Persisted(init) ensures b.header.hash != hash {
        var j :| 0 <= j < |init| && init[j] == b;
        assert chain[j] == b;
      }
    }
  }

  lemma {:induction false} LastHas(chain: seq<Block>, hash: Uint256)
    requires chain != []
    ensures var last := |chain| - 1;
      (exists b :: b in Persisted(chain) && b.header.hash == hash) <==>
      (exists b :: b in Persisted(chain[..last]) && b.header.hash == hash) || (Written(chain, last) && chain[last].header.hash == hash)
  {
    hide Writable, LedgerOf;
    var last := |chain| - 1;
    assert chain == chain[..last] + [chain[last]];
    PersistedStep(chain[..last], chain[last]);
    hide Persisted;
    if Written(chain, last) {
      assert chain[last] in Persisted(chain);
    }
  }

  lemma {:induction false} PersistedFirst(chain: seq<Block>)
    requires |chain| == 1 && Written(chain, 0)
    ensures Persisted(chain) == chain
  {
    hide LedgerOf, Writable;
    assert chain[..0] == [] && Persisted([]) == [];
  }

  /** After genesis, what is stored comes from the blocks after genesis. */
  lemma {:induction false} PersistedTail(chain: seq<Block>)
    requires chain != [] && Written(chain, 0)
    ensures Persisted(chain) != [] && Persisted(chain)[0] == chain[0]
    ensures forall n :: 1 <= n < |Persisted(chain)| ==> Persisted(chain)[n] in chain[1..]
  {
    hide Written, Persisted, LedgerOf, Writable;
    if |chain| == 1 {
      PersistedFirst(chain);
    } else {
      var last := |chain| - 1;
      var init := chain[..last];
      WrittenInit(chain, 0);
      assert chain == init + [chain[last]];
      PersistedTail(init);
      PersistedStep(init, chain[last]);
      var p, q := Persisted(init), Persisted(chain);
      forall n | 1 <= n < |q| ensures q[n] in chain[1..] {
        if n < |p| {
          assert q[n] == p[n];
          var i :| 0 <= i < |init[1..]| && init[1..][i] == p[n];
          assert chain[1..][i] == p[n];
        } else {
          assert q[n] == chain[last] == chain[1..][last - 1];
        }
      }
    }
  }

  // ----- Disconnecting -----

  /** How many blocks are left when the last blocks of a chain are disconnected down to the first `k`:
      a block that the store does not have cannot be disconnected. */
  ghost function Remains(chain: seq<Block>, k: nat): (n: nat)
    requires k <= |chain|
    ensures k <= n <= |chain|
  {
    if k == |chain| || !Written(chain, |chain| - 1) then |chain| else Remains(chain[..|chain| - 1], k)
  }

  lemma {:induction false} RemainsStep(chain: seq<Block>, k: nat)
    requires k < |chain|
    ensures Remains(chain, k) == if Written(chain, |chain| - 1) then Remains(chain[..|chain| - 1], k) else |chain|
  {
    hide Written;
  }

  lemma {:induction false} RemainsEnd(chain: seq<Block>)
    ensures Remains(chain, |chain|) == |chain|
  {
    hide Written;
  }

  /** Disconnecting gets to the end exactly when all the blocks were written; else it stops at the
      highest that was not. */
  lemma {:induction false} RemainsMeans(chain: seq<Block>, k: nat)
    requires k <= |chain|
    ensures var n := Remains(chain, k);
      && (forall i :: n <= i < |chain| ==> Written(chain, i))
      && (n > k ==> !Written(chain, n - 1))
  {
    hide Written;
    if k < |chain| && Written(chain, |chain| - 1) {
      var init := chain[..|chain| - 1];
      RemainsMeans(init, k);
      forall i | 0 <= i < |init| ensures Written(chain, i) == Written(init, i) {
        WrittenInit(chain, i);
      }
    }
  }

  // ----- Changing branches -----

  /** The ledger once a chain is disconnected down to its first `k` blocks. */
  ghost function ForkLedger(chain: seq<Block>, k: nat, current: Option<Tip>): Ledger
    requires 1 <= k <= |chain|
  {
    LedgerOf(Persisted(chain[..k])).(tip := if k == |chain| then current else TipAt(chain[k - 1]))
  }

  /** A chain can be left for a branch of it above its first `k` blocks. */
  ghost predicate Switches(others: OtherChecks, chain: seq<Block>, k: nat, current: Option<Tip>, branch: seq<Block>)
    requires 1 <= k <= |chain|
  {
    Remains(chain, k) == k && Connects(others, ForkLedger(chain, k, current), branch) == |branch|
  }

  /** The ledger that an attempt to do so leaves, however far it gets. */
  ghost function HeldAfter(others: OtherChecks, chain: seq<Block>, k: nat, current: Option<Tip>, branch: seq<Block>): Ledger
    requires 1 <= k <= |chain|
  {
    var n, l := Remains(chain, k), ForkLedger(chain, k, current);
    if n > k then ForkLedger(chain, n, current) else NextAll(l, branch[..Connects(others, l, branch)])
  }

  /** It can be left exactly when the store has all the blocks above the fork, and each block of the
      branch passes its checks on the ledger that those before it lead to. */
  lemma {:induction false} SwitchesMeans(others: OtherChecks, chain: seq<Block>, k: nat, current: Option<Tip>, branch: seq<Block>)
    requires 1 <= k <= |chain|
    ensures Switches(others, chain, k, current, branch) <==>
      && (forall i :: k <= i < |chain| ==> Written(chain, i))
      && forall i :: 0 <= i < |branch| ==> Passes(others, NextAll(ForkLedger(chain, k, current), branch[..i]), branch[i])
  {
    hide Written, Passes, NextAll, ForkLedger;
    RemainsMeans(chain, k);
    ConnectsMeans(others, ForkLedger(chain, k, current), branch);
    hide Remains, Connects;
  }

  // ----- The store of a chain -----

  /** Every block after genesis passed its checks on the ledger of what was stored before it. */
  ghost predicate Passed(others: OtherChecks, chain: seq<Block>) {
    forall i :: 1 <= i < |chain| ==> PassedAt(others, chain, i)
  }

  ghost predicate PassedAt(others: OtherChecks, chain: seq<Block>, i: nat)
    requires 1 <= i < |chain|
  {
    Sane(chain[i].txs) && exists current :: PassedOn(others, chain, i, current)
  }

  /** The current block then was the one before, or, if the store did not have that, one no higher. */
  ghost predicate PassedOn(others: OtherChecks, chain: seq<Block>, i: nat, current: Option<Tip>)
    requires 1 <= i < |chain|
  {
    && (Written(chain, i - 1) ==> current == TipAt(chain[i - 1]))
    && HeightOf(current) <= chain[i - 1].header.height
    && Passes(others, LedgerOf(Persisted(chain[..i])).(tip := current), chain[i])
  }

  lemma {:induction false} PassesAllOk(others: OtherChecks, l: Ledger, b: Block)
    requires Passes(others, l, b)
    ensures AllOk(l, b.txs)
  {
    hide TxOk;
    forall i | 0 <= i < |b.txs| ensures TxOk(l, b.txs[i]) {
      assert TxPasses(others, l, b.txs[i]);
    }
  }

  lemma {:induction false} PassedAllOk(others: OtherChecks, chain: seq<Block>, i: nat)
    requires 1 <= i < |chain| && PassedAt(others, chain, i)
    ensures Sane(chain[i].txs) && AllOk(LedgerOf(Persisted(chain[..i])), chain[i].txs)
  {
    hide Sane, AllOk, Passes, LedgerOf, Persisted, Written;
    var current :| PassedOn(others, chain, i, current);
    var l := LedgerOf(Persisted(chain[..i]));
    PassesAllOk(others, l.(tip := current), chain[i]);
    SameChecks(l.(tip := current), l, chain[i].txs);
  }

  /** The store holds what it keeps of a chain.  If it has the last block, that is the current one. */
  ghost predicate Keeps(store: ChainStore, others: OtherChecks, chain: seq<Block>)
    reads store
  {
    && store.Valid() && chain != []
    && store.chain == Persisted(chain)
    && Written(chain, 0)
    && store.currentBlockHeight <= chain[|chain| - 1].header.height
    && (Written(chain, |chain| - 1) ==> store.db.current == TipAt(chain[|chain| - 1]))
    && Passed(others, chain)
  }

  /** The last block of a chain is the child of the one before it, and its hash is new. */
  ghost predicate EndsInChild(chain: seq<Block>) {
    && |chain| > 1
    && TipBelow(chain[|chain| - 1]) == TipAt(chain[|chain| - 2])
    && forall i :: 0 <= i < |chain| - 1 ==> chain[i].header.hash != chain[|chain| - 1].header.hash
  }

  lemma {:induction false} HeadersOfChain(chain: seq<Block>, hash: Uint256)
    ensures hash in LedgerOf(chain).headers <==> exists b :: b in chain && b.header.hash == hash
  {
    if chain != [] {
      hide PutTxs, UnspentAfter;
      var last := |chain| - 1;
      HeadersOfChain(chain[..last], hash);
      assert chain == chain[..last] + [chain[last]];
    }
  }

  lemma {:induction false} PassedInit(others: OtherChecks, chain: seq<Block>)
    requires chain != []
    ensures Passed(others, chain) <==> Passed(others, chain[..|chain| - 1]) && (|chain| > 1 ==> PassedAt(others, chain, |chain| - 1))
    ensures |chain| > 1 ==> Written(chain[..|chain| - 1], 0) == Written(chain, 0)
  {
    var init := chain[..|chain| - 1];
    if |chain| > 1 {
      WrittenInit(chain, 0);
    }
    hide Sane, Passes, LedgerOf, Persisted, Written;
    forall i | 1 <= i < |init| ensures PassedAt(others, chain, i) == PassedAt(others, init, i) {
      assert init[..i] == chain[..i];
      WrittenInit(chain, i - 1);
      assert forall current :: PassedOn(others, chain, i, current) == PassedOn(others, init, i, current);
    }
  }

  /** A new last block is not in the store. */
  lemma {:induction false} HashIsNew(chain: seq<Block>)
    requires EndsInChild(chain)
    ensures chain[|chain| - 1].header.hash !in LedgerOf(Persisted(chain[..|chain| - 1])).headers
  {
    var init, hash := chain[..|chain| - 1], chain[|chain| - 1].header.hash;
    HeadersOfChain(Persisted(init), hash);
    PersistedFrom(init);
    hide Persisted;
    forall b | b in Persisted(init) ensures b.header.hash != hash {
      var i :| 0 <= i < |init| && init[i] == b;
    }
  }

  /** Saves the next block of a chain, if the store can write it. */
  method SaveNext(store: ChainStore, ghost others: OtherChecks, ghost chain: seq<Block>, b: Block)
    requires Keeps(store, others, chain) && EndsInChild(chain + [b]) && Sane(b.txs) && Passes(others, store.Held(), b)
    modifies store
    ensures Keeps(store, others, chain + [b]) && store.Held() == Next(old(store.Held()), b)
  {
    hide ChainStore.Valid, Passed, Written, Writable, Sane, Passes, FreshTxs, FreshRecharges, LedgerOf, Persisted;
    ghost var chain' := chain + [b];
    assert chain'[..|chain|] == chain && chain'[|chain|] == b && chain'[|chain| - 1] == chain[|chain| - 1];
    SaveNextOk(store, others, chain, b);
    store.SaveBlock(b);
  }

  lemma {:induction false} SaveNextOk(store: ChainStore, others: OtherChecks, chain: seq<Block>, b: Block)
    requires Keeps(store, others, chain) && EndsInChild(chain + [b]) && Sane(b.txs) && Passes(others, store.Held(), b)
    ensures b.header.height > store.currentBlockHeight && FreshBlock(store.Held(), b)
    ensures Passed(others, chain + [b]) && Written(chain + [b], 0)
    ensures Written(chain + [b], |chain|) <==> Writable(store.Held(), b)
    ensures Persisted(chain + [b]) == store.chain + if Writable(store.Held(), b) then [b] else []
    ensures Next(store.Held(), b) == LedgerOf(Persisted(chain + [b])).(tip := if Writable(store.Held(), b) then TipAt(b) else store.db.current)
  {
    hide Sane, FreshTxs, FreshRecharges, Writable, LedgerOf, Persisted, ValidChain, Represents, Passes, AllOk;
    var chain' := chain + [b];
    PassesAllOk(others, store.Held(), b);
    assert chain'[..|chain|] == chain && chain'[|chain|] == b && chain'[|chain| - 1] == chain[|chain| - 1];
    ChecksSuffice(store.Held(), b);
    HashIsNew(chain');
    HeadersHeld(store);
    NextPersisted(chain, b, store.db.current);
    PersistedStep(chain, b);
    TipDoesNotMatter(store.Held(), LedgerOf(store.chain).tip, b);
    SameChecks(store.Held(), LedgerOf(store.chain), b.txs);
    LastPassed(store, others, chain, b);
    PassedInit(others, chain');
  }

  lemma {:induction false} LastPassed(store: ChainStore, others: OtherChecks, chain: seq<Block>, b: Block)
    requires Keeps(store, others, chain) && Sane(b.txs) && Passes(others, store.Held(), b)
    ensures PassedAt(others, chain + [b], |chain|)
  {
    hide Sane, Writable, LedgerOf, Persisted, ValidChain, Represents, Passes, Passed;
    var chain' := chain + [b];
    assert chain'[..|chain|] == chain && chain'[|chain|] == b && chain'[|chain| - 1] == chain[|chain| - 1];
    WrittenInit(chain', |chain| - 1);
    assert PassedOn(others, chain', |chain|, store.db.current);
  }

  lemma {:induction false} HeadersHeld(store: ChainStore)
    requires store.Valid()
    ensures store.Held().headers == LedgerOf(store.chain).headers
    ensures store.Held().(tip := LedgerOf(store.chain).tip) == LedgerOf(store.chain)
    ensures HeightOf(store.Held().tip) == store.currentBlockHeight && store.Held().tip.Some?
  {
  }

  /** The modelled checks do not look at the tip. */
  lemma {:induction false} SameChecks(l: Ledger, l': Ledger, txs: seq<Tx>)
    requires l.(tip := l'.tip) == l'
    ensures AllOk(l, txs) == AllOk(l', txs)
  {
    forall i | 0 <= i < |txs| ensures TxOk(l, txs[i]) == TxOk(l', txs[i]) {
    }
  }

  // ----- Taking the last block back -----

  /** The store knows the last block exactly when it was written. */
  lemma {:induction false} KnowsLast(store: ChainStore, others: OtherChecks, chain: seq<Block>)
    requires Keeps(store, others, chain) && EndsInChild(chain)
    ensures var b := chain[|chain| - 1];
      && (b.header.hash in store.db.headers <==> Written(chain, |chain| - 1))
      && (Written(chain, |chain| - 1) ==> store.chain == Persisted(chain[..|chain| - 1]) + [b] && store.Level() && |store.chain| > 1)
  {
    hide FreshTxs, FreshRecharges, Writable, LedgerOf, ValidChain, WellFormed;
    var init, b := chain[..|chain| - 1], chain[|chain| - 1];
    HashIsNew(chain);
    HeadersOfChain(store.chain, b.header.hash);
    HeadersOfChain(Persisted(init), b.header.hash);
    FirstIsKept(init);
    WrittenInit(chain, 0);
    if Written(chain, |chain| - 1) {
      assert store.chain == Persisted(init) + [b];
      assert b in store.chain;
    }
  }

  lemma {:induction false} FirstIsKept(chain: seq<Block>)
    requires chain != []
    ensures Written(chain, 0) ==> Persisted(chain) != []
  {
    if |chain| > 1 {
      WrittenInit(chain, 0);
      FirstIsKept(chain[..|chain| - 1]);
    } else {
      assert chain[..0] == [];
    }
  }

  /** Takes back the last block of a chain, which the store has. */
  method DropLast(store: ChainStore, ghost others: OtherChecks, ghost chain: seq<Block>, hash: Uint256)
    requires Keeps(store, others, chain) && EndsInChild(chain) && Written(chain, |chain| - 1) && hash == chain[|chain| - 1].header.hash
    modifies store
    ensures Keeps(store, others, chain[..|chain| - 1]) && store.db.current == TipAt(chain[|chain| - 2])
  {
    hide ChainStore.Valid, Passed, Written, Writable, LedgerOf, Persisted;
    KnowsLast(store, others, chain);
    PassedInit(others, chain);
    ghost var init := chain[..|chain| - 1];
    assert init[|init| - 1] == chain[|chain| - 2];
    store.RollbackBlock(hash);
    CurrentHeight(store);
  }

  lemma {:induction false} CurrentHeight(store: ChainStore)
    requires store.Valid()
    ensures HeightOf(store.db.current) == store.currentBlockHeight
  {
  }

  lemma {:induction false} HeldWritable(store: ChainStore, others: OtherChecks, chain: seq<Block>, b: Block)
    requires Keeps(store, others, chain)
    ensures Written(chain + [b], |chain|) <==> Writable(store.Held(), b)
  {
    hide LedgerOf, Persisted, Represents, ValidChain;
    assert (chain + [b])[..|chain|] == chain;
  }

  lemma {:induction false} GenesisIsKept(store: ChainStore, others: OtherChecks, genesis: Block)
    requires store.Valid() && store.Level() && store.chain == [genesis] && ValidNext(EMPTY, genesis)
    ensures Keeps(store, others, [genesis]) && Persisted([genesis]) == [genesis]
  {
    assert [genesis][..0] == [] && Persisted([]) == [] && LedgerOf([]) == EMPTY;
  }
}
