/** What follows from the store holding the ledger of its chain: agreement of the two indices,
    independence of the path taken, and the one entry that is not restored by a rollback. */
module StoreProperties {
  import opened Core
  import opened ListIndex
  import opened Ledgers
  import opened Utxos
  import opened ChainStores

  // ----- Agreement of the two indices -----

  /** Output `op` has exactly one entry in the index by address, under its own address, asset and
      height and with its own value, and no entry anywhere else. */
  ghost predicate ListedOnce(db: Db, op: OutPoint) {
    && InRange(db.txs, op)
    && KeyOf(db.txs, op) in db.utxos
    && multiset(db.utxos[KeyOf(db.txs, op)])[UtxoOf(db.txs, op)] == 1
    && forall k, x :: k in db.utxos && x in db.utxos[k] && x.txId == op.txId && x.index == op.index
         ==> k == KeyOf(db.txs, op) && x == UtxoOf(db.txs, op)
  }

  ghost predicate NotListed(db: Db, op: OutPoint) {
    forall k, x :: k in db.utxos && x in db.utxos[k] ==> !(x.txId == op.txId && x.index == op.index)
  }

  ghost predicate UnspentByHash(db: Db, op: OutPoint) {
    op.txId in db.unspent && op.index in db.unspent[op.txId]
  }

  /** An entry of the index by address comes from an unspent output. */
  lemma {:induction false} EntryOf(db: Db, l: Ledger, k: UtxoKey, x: Utxo, op: OutPoint)
    requires Represents(db, l) && k in db.utxos && x in db.utxos[k] && x.txId == op.txId && x.index == op.index
    ensures op in l.unspent && InRange(l.txs, op) && k == KeyOf(l.txs, op) && x == UtxoOf(l.txs, op)
  {
    assert x in Peek(map[], db.utxos, k);
    assert (k, x) in UtxoItems(l.txs, l.unspent);
    var p :| p in l.unspent && InRange(l.txs, p) && (KeyOf(l.txs, p), UtxoOf(l.txs, p)) == (k, x);
    assert p == op;
  }

  /** The two indices agree on every output, and both agree with the ledger. */
  lemma {:induction false} IndexAgreement(db: Db, l: Ledger, op: OutPoint)
    requires Represents(db, l)
    ensures UnspentByHash(db, op) <==> op in l.unspent
    ensures UnspentByHash(db, op) <==> ListedOnce(db, op)
    ensures !UnspentByHash(db, op) <==> NotListed(db, op)
    ensures UnspentByHash(db, op) ==>
              && op.txId in db.txs && op.index < |db.txs[op.txId].tx.outputs|
              && var o := db.txs[op.txId].tx.outputs[op.index];
                 var k := UtxoKey(o.programHash, o.assetId, db.txs[op.txId].height);
                 k in db.utxos && Utxo(op.txId, op.index, o.value) in db.utxos[k]
  {
    UnspentItem(l.unspent, op);
    assert op.index in Peek(map[], db.unspent, op.txId) <==> (op.txId, op.index) in UnspentItems(l.unspent);
    forall k, x | k in db.utxos && x in db.utxos[k] && x.txId == op.txId && x.index == op.index
      ensures op in l.unspent && k == KeyOf(db.txs, op) && x == UtxoOf(db.txs, op)
    {
      EntryOf(db, l, k, x, op);
    }
    if op in l.unspent {
      UtxoItem(l.txs, l.unspent, op);
      var k, x := KeyOf(l.txs, op), UtxoOf(l.txs, op);
      assert x in Peek(map[], db.utxos, k);
      assert NoDup(Peek(map[], db.utxos, k));
      CountNoDup(db.utxos[k], x);
    }
  }

  // ----- Independence of the path -----

  /** Equal except for the order of the lists and the identifications. */
  ghost predicate SameStore(a: Db, b: Db) {
    && a.(unspent := b.unspent, utxos := b.utxos, identifications := b.identifications) == b
    && SameUpToOrder(a.unspent, b.unspent)
    && SameUpToOrder(a.utxos, b.utxos)
  }

  /** Two stores that hold the same ledger have the same entries. */
  lemma {:induction false} OneStorePerLedger(a: Db, b: Db, l: Ledger)
    requires Represents(a, l) && Represents(b, l)
    ensures SameStore(a, b)
  {
    IndexUnique<Uint256, uint16>(a.unspent, b.unspent, UnspentItems(l.unspent));
    IndexUnique(a.utxos, b.utxos, UtxoItems(l.txs, l.unspent));
  }

  datatype Step = Save(block: Block) | Undo

  /** The chain after a run of saves and rollbacks of the last block. */
  ghost function ChainAfter(chain: seq<Block>, steps: seq<Step>): seq<Block>
    decreases |steps|
  {
    if steps == [] then chain
    else match steps[0]
      case Save(b) => ChainAfter(chain + [b], steps[1..])
      case Undo => ChainAfter(if chain == [] then [] else chain[..|chain| - 1], steps[1..])
  }

  /** Every block that is saved is a valid child of the last block, and genesis is never undone. */
  ghost predicate Runs(chain: seq<Block>, steps: seq<Step>)
    decreases |steps|
  {
    if steps == [] then true
    else match steps[0]
      case Save(b) => chain != [] && TipBelow(b) == TipAt(chain[|chain| - 1]) && ValidNext(LedgerOf(chain), b) && Runs(chain + [b], steps[1..])
      case Undo => |chain| > 1 && Runs(chain[..|chain| - 1], steps[1..])
  }

  method Execute(store: ChainStore, steps: seq<Step>)
    requires store.Valid() && store.Level() && Contiguous(store.chain) && Runs(store.chain, steps)
    modifies store
    ensures store.Valid() && store.Level() && Contiguous(store.chain) && store.chain == ChainAfter(old(store.chain), steps)
  {
    hide Represents, LedgerOf, ValidNext;
    for n := 0 to |steps|
      invariant store.Valid() && store.Level() && Contiguous(store.chain) && Runs(store.chain, steps[n..])
      invariant ChainAfter(store.chain, steps[n..]) == ChainAfter(old(store.chain), steps)
    {
      assert steps[n..][0] == steps[n] && steps[n..][1..] == steps[n + 1..];
      match steps[n]
      case Save(b) =>
        NextIsFresh(store, b);
        store.SaveBlock(b);
      case Undo =>
        var hash := store.GetCurrentBlockHash();
        RollbackTip(store, hash.value);
    }
  }

  /** What is valid on the ledger of a level store is valid on what it holds. */
  lemma {:induction false} NextIsFresh(store: ChainStore, b: Block)
    requires store.Valid() && store.Level()
    ensures store.Held() == LedgerOf(store.chain) && ValidNext(LedgerOf(store.chain), b) ==>
              FreshBlock(store.Held(), b) && Writable(store.Held(), b) && b.header.height > store.currentBlockHeight
    ensures store.Held() == LedgerOf(store.chain)
  {
    TipOfChain(store.chain);
  }

  /** The last block is always known to the store. */
  method RollbackTip(store: ChainStore, hash: Uint256)
    requires store.Valid() && store.Level() && |store.chain| > 1 && hash == store.chain[|store.chain| - 1].header.hash
    modifies store
    ensures store.Valid() && store.chain == old(store.chain)[..|old(store.chain)| - 1]
    ensures store.db.current == TipBelow(old(store.chain)[|old(store.chain)| - 1])
    ensures Contiguous(old(store.chain)) ==> store.Level() && Contiguous(store.chain)
    ensures store.db.identifications == old(store.db.identifications)
  {
    hide ValidNext, WellFormed, Contiguous;
    TipKnown(store.chain);
    hide LedgerOf;
    InitContiguous(store.chain);
    store.RollbackBlock(hash);
  }

  lemma {:induction false} InitContiguous(chain: seq<Block>)
    requires |chain| > 1
    ensures var last := |chain| - 1;
      Contiguous(chain) ==> Contiguous(chain[..last]) && TipBelow(chain[last]) == TipAt(chain[..last][last - 1])
  {
  }

  lemma {:induction false} TipKnown(chain: seq<Block>)
    requires chain != []
    ensures chain[|chain| - 1].header.hash in LedgerOf(chain).headers
  {
  }

  /** Persist a chain from genesis, block by block. */
  method Replay(blocks: seq<Block>) returns (store: ChainStore)
    requires ValidChain(blocks) && blocks != []
    ensures fresh(store) && store.Valid() && store.Level() && store.chain == blocks
  {
    hide Represents, ValidChain, ValidNext, FreshBlock, Writable, LedgerOf, InputsOf, WellFormed;
    NextInChain(blocks, 0);
    store := new ChainStore.InitWithGenesisBlock(blocks[0]);
    assert blocks[..1] == [blocks[0]];
    for n := 1 to |blocks|
      invariant fresh(store) && store.Valid() && store.Level() && store.chain == blocks[..n]
    {
      NextInChain(blocks, n);
      NextIsFresh(store, blocks[n]);
      store.SaveBlock(blocks[n]);
      assert blocks[..n + 1] == blocks[..n] + [blocks[n]];
    }
    assert blocks[..|blocks|] == blocks;
  }

  lemma {:induction false} NextInChain(chain: seq<Block>, n: nat)
    requires ValidChain(chain) && n < |chain|
    ensures ValidNext(LedgerOf(chain[..n]), chain[n])
    ensures n == 0 ==> LedgerOf(chain[..n]) == EMPTY
  {
    PrefixValid(chain, n + 1);
    hide ValidNext, Apply;
    var next := chain[..n + 1];
    assert next[..n] == chain[..n] && next[n] == chain[n];
    assert ValidNext(LedgerOf(next[..|next| - 1]), next[|next| - 1]);
  }

  lemma {:induction false} PrefixValid(chain: seq<Block>, n: nat)
    requires ValidChain(chain) && n <= |chain|
    ensures ValidChain(chain[..n])
  {
    if n < |chain| {
      PrefixValid(chain[..|chain| - 1], n);
      assert chain[..|chain| - 1][..n] == chain[..n];
    } else {
      assert chain[..n] == chain;
    }
  }

  /** After any run, the store equals the one obtained by persisting its chain from genesis. */
  method PathIndependence(store: ChainStore, steps: seq<Step>, blocks: seq<Block>) returns (replayed: ChainStore)
    requires store.Valid() && store.Level() && Contiguous(store.chain)
    requires Runs(store.chain, steps) && blocks == ChainAfter(store.chain, steps)
    modifies store
    ensures store.chain == blocks
    ensures fresh(replayed) && replayed.chain == blocks
    ensures SameStore(store.db, replayed.db)
  {
    Execute(store, steps);
    replayed := Replay(blocks);
    LevelLedger(store);
    LevelLedger(replayed);
    OneStorePerLedger(store.db, replayed.db, LedgerOf(store.chain));
  }

  lemma {:induction false} LevelLedger(store: ChainStore)
    requires store.Valid() && store.Level()
    ensures Represents(store.db, LedgerOf(store.chain))
  {
    TipOfChain(store.chain);
  }

  // ----- What a rollback leaves behind -----

  predicate RegistersNothing(txs: seq<Tx>) {
    forall i :: 0 <= i < |txs| && txs[i].kind.RegisterIdentification? ==> txs[i].kind.keys == []
  }

  lemma {:induction false} PutKeysLast(m: map<string, Uint256>, keys: seq<string>, hash: Uint256)
    ensures keys == [] ==> PutKeys(m, keys, hash) == m
    ensures forall k :: k in keys ==> k in PutKeys(m, keys, hash) && PutKeys(m, keys, hash)[k] == hash
    ensures forall k :: k !in keys ==> (k in PutKeys(m, keys, hash) <==> k in m) && (k in m ==> PutKeys(m, keys, hash)[k] == m[k])
  {
    if keys != [] {
      var last := |keys| - 1;
      PutKeysLast(m, keys[..last], hash);
      assert keys == keys[..last] + [keys[last]];
    }
  }

  predicate Registers(tx: Tx, key: string) {
    tx.kind.RegisterIdentification? && key in tx.kind.keys
  }

  /** The last transaction of a block that registers a key. */
  predicate LastRegisters(txs: seq<Tx>, i: nat, key: string)
    requires i < |txs|
  {
    Registers(txs[i], key) && forall j :: i < j < |txs| ==> !Registers(txs[j], key)
  }

  /** Every key that the block registers already has the value that the block would give it. */
  ghost predicate AlreadyRegistered(ids: map<string, Uint256>, txs: seq<Tx>) {
    forall i, key :: 0 <= i < |txs| && LastRegisters(txs, i, key) ==> key in ids && ids[key] == txs[i].hash
  }

  lemma {:induction false} PutIdsLast(m: map<string, Uint256>, txs: seq<Tx>, key: string, i: nat)
    requires i < |txs| && LastRegisters(txs, i, key)
    ensures key in PutIds(m, txs) && PutIds(m, txs)[key] == txs[i].hash
  {
    hide PutIds, Registers;
    PutIdsStep(m, txs, key);
    if i < |txs| - 1 {
      PutIdsLast(m, txs[..|txs| - 1], key, i);
    }
  }

  lemma {:induction false} PutIdsNone(m: map<string, Uint256>, txs: seq<Tx>, key: string)
    requires forall i :: 0 <= i < |txs| ==> !Registers(txs[i], key)
    ensures (key in PutIds(m, txs) <==> key in m) && (key in m ==> PutIds(m, txs)[key] == m[key])
  {
    if txs != [] {
      hide Registers;
      PutIdsStep(m, txs, key);
      PutIdsNone(m, txs[..|txs| - 1], key);
    }
  }

  lemma {:induction false} PutIdsStep(m: map<string, Uint256>, txs: seq<Tx>, key: string)
    requires txs != []
    ensures var last, before, after := txs[|txs| - 1], PutIds(m, txs[..|txs| - 1]), PutIds(m, txs);
      if Registers(last, key) then key in after && after[key] == last.hash
      else (key in after <==> key in before) && (key in before ==> after[key] == before[key])
  {
    var tx := txs[|txs| - 1];
    if tx.kind.RegisterIdentification? {
      PutKeysLast(PutIds(m, txs[..|txs| - 1]), tx.kind.keys, tx.hash);
    }
  }

  /** A key that is registered at all is registered last somewhere. */
  lemma {:induction false} SomeoneIsLast(txs: seq<Tx>, i: nat, key: string) returns (j: nat)
    requires i < |txs| && Registers(txs[i], key)
    ensures j < |txs| && LastRegisters(txs, j, key)
    decreases |txs| - i
  {
    if next :| i < next < |txs| && Registers(txs[next], key) {
      j := SomeoneIsLast(txs, next, key);
    } else {
      j := i;
    }
  }

  /** Writing a block changes no identification exactly when all of its own are already there. */
  lemma {:induction false} WhenIdsUnchanged(m: map<string, Uint256>, txs: seq<Tx>)
    ensures PutIds(m, txs) == m <==> AlreadyRegistered(m, txs)
  {
    hide PutIds, Registers;
    if PutIds(m, txs) == m {
      forall i, key | 0 <= i < |txs| && LastRegisters(txs, i, key) ensures key in m && m[key] == txs[i].hash {
        PutIdsLast(m, txs, key, i);
      }
    }
    if AlreadyRegistered(m, txs) {
      forall key ensures (key in PutIds(m, txs) <==> key in m) && (key in m ==> PutIds(m, txs)[key] == m[key]) {
        if i :| 0 <= i < |txs| && Registers(txs[i], key) {
          var j := SomeoneIsLast(txs, i, key);
          PutIdsLast(m, txs, key, j);
        } else {
          PutIdsNone(m, txs, key);
        }
      }
    }
  }

  /** A store whose identifications all come from stored transactions loses nothing exactly when the
      block registers nothing. */
  lemma {:induction false} FreshIds(ids: map<string, Uint256>, l: Ledger, txs: seq<Tx>)
    requires FreshTxs(l, txs) && forall k :: k in ids ==> ids[k] in l.txs
    ensures AlreadyRegistered(ids, txs) <==> RegistersNothing(txs)
  {
    if !RegistersNothing(txs) {
      var i :| 0 <= i < |txs| && txs[i].kind.RegisterIdentification? && txs[i].kind.keys != [];
      var key := txs[i].kind.keys[0];
      assert Registers(txs[i], key);
      var j := SomeoneIsLast(txs, i, key);
      assert txs[j].hash !in l.txs;
    }
  }

  /** Once a block was saved, its identifications are there: going back and forth changes nothing more. */
  lemma {:induction false} RegisteredOnce(m: map<string, Uint256>, txs: seq<Tx>)
    ensures AlreadyRegistered(PutIds(m, txs), txs)
  {
    forall i, key | 0 <= i < |txs| && LastRegisters(txs, i, key) ensures key in PutIds(m, txs) && PutIds(m, txs)[key] == txs[i].hash {
      PutIdsLast(m, txs, key, i);
    }
  }

  /** Saving a block and rolling it back restores the store up to the order of lists, with the parent
      of the block as the current one.  Identifications stay: they are restored exactly when those of
      the block were there before. */
  method SaveThenRollback(store: ChainStore, b: Block)
    requires store.Valid() && ValidNext(store.Held(), b)
    modifies store
    ensures store.Valid() && store.chain == old(store.chain)
    ensures SameStore(store.db, old(store.db).(current := TipBelow(b)))
    ensures store.db.identifications == PutIds(old(store.db.identifications), b.txs)
    ensures store.db.identifications == old(store.db.identifications) <==> AlreadyRegistered(old(store.db.identifications), b.txs)
  {
    hide Represents, ValidChain, ValidNext, FreshBlock, Writable, LedgerOf, InputsOf, WellFormed;
    NextMeans(store, b);
    ghost var ids, held := store.db.identifications, store.Held();
    WhenIdsUnchanged(ids, b.txs);
    store.SaveBlock(b);
    RollbackTip(store, b.header.hash);
    SameAfter(store, old(store.db), held);
  }

  lemma {:induction false} NextMeans(store: ChainStore, b: Block)
    requires store.Valid() && ValidNext(store.Held(), b)
    ensures FreshBlock(store.Held(), b) && Writable(store.Held(), b) && b.header.height > store.currentBlockHeight
  {
  }

  lemma {:induction false} SameAfter(store: ChainStore, before: Db, held: Ledger)
    requires store.Valid() && Represents(before, held) && held.(tip := store.db.current) == store.Held()
    ensures SameStore(store.db, before.(current := store.db.current))
  {
    IndexUnique<Uint256, uint16>(store.db.unspent, before.unspent, UnspentItems(held.unspent));
    IndexUnique(store.db.utxos, before.utxos, UtxoItems(held.txs, held.unspent));
  }
}
