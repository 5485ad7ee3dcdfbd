/** The two redundant indices of unspent outputs: by transaction hash (output numbers), and by
    address, asset and height (full entries).  Both are views of one set of outpoints.  The methods
    are the inner loops of persisting and rolling back a block; they work on a cache over the store. */
module Utxos {
  import opened Core
  import opened ListIndex
  import opened Ledgers

  datatype UtxoKey = UtxoKey(programHash: Uint168, assetId: Uint256, height: uint32)

  datatype Utxo = Utxo(txId: Uint256, index: nat, value: int)

  type UnspentIndex = map<Uint256, seq<uint16>>

  type UtxoIndex = map<UtxoKey, seq<Utxo>>

  // ----- The views -----

  ghost function UnspentItems(u: set<OutPoint>): set<(Uint256, uint16)> {
    set op | op in u :: (op.txId, op.index)
  }

  ghost function OutputAt(txs: map<Uint256, TxRecord>, op: OutPoint): Output
    requires InRange(txs, op)
  {
    txs[op.txId].tx.outputs[op.index]
  }

  ghost function KeyOf(txs: map<Uint256, TxRecord>, op: OutPoint): UtxoKey
    requires InRange(txs, op)
  {
    var o := OutputAt(txs, op);
    UtxoKey(o.programHash, o.assetId, txs[op.txId].height)
  }

  ghost function UtxoOf(txs: map<Uint256, TxRecord>, op: OutPoint): Utxo
    requires InRange(txs, op)
  {
    Utxo(op.txId, op.index, OutputAt(txs, op).value)
  }

  ghost function UtxoItems(txs: map<Uint256, TxRecord>, u: set<OutPoint>): set<(UtxoKey, Utxo)> {
    set op | op in u && InRange(txs, op) :: (KeyOf(txs, op), UtxoOf(txs, op))
  }

  lemma {:induction false} UnspentItem(u: set<OutPoint>, op: OutPoint)
    ensures (op.txId, op.index) in UnspentItems(u) <==> op in u
    ensures UnspentItems(u + {op}) == UnspentItems(u) + {(op.txId, op.index)}
    ensures UnspentItems(u - {op}) == UnspentItems(u) - {(op.txId, op.index)}
  {
  }

  lemma {:induction false} UtxoItem(txs: map<Uint256, TxRecord>, u: set<OutPoint>, op: OutPoint)
    requires InRange(txs, op)
    ensures (KeyOf(txs, op), UtxoOf(txs, op)) in UtxoItems(txs, u) <==> op in u
    ensures UtxoItems(txs, u + {op}) == UtxoItems(txs, u) + {(KeyOf(txs, op), UtxoOf(txs, op))}
    ensures UtxoItems(txs, u - {op}) == UtxoItems(txs, u) - {(KeyOf(txs, op), UtxoOf(txs, op))}
  {
  }

  /** Transactions that are added later do not change the entries of the old ones. */
  lemma {:induction false} UtxoItemsExtend(txs: map<Uint256, TxRecord>, txs': map<Uint256, TxRecord>, u: set<OutPoint>)
    requires forall op :: op in u ==> InRange(txs, op)
    requires forall h :: h in txs ==> h in txs' && txs'[h] == txs[h]
    ensures UtxoItems(txs', u) == UtxoItems(txs, u)
  {
  }

  // ----- Persisting: the index by transaction hash -----

  method AddUnspent(store: UnspentIndex, cache: UnspentIndex, txn: Tx, ghost u: set<OutPoint>) returns (cache': UnspentIndex)
    requires MovesValue(txn) && |txn.outputs| <= 0x1_0000
    requires forall h :: h in store ==> store[h] != []
    requires Shows(cache, store, UnspentItems(u))
    requires forall op: OutPoint :: op.txId == txn.hash ==> op !in u
    ensures Shows(cache', store, UnspentItems(u + Outs(txn)))
  {
    cache' := cache;
    ghost var u' := u;
    assert u + OutsUpTo(txn, 0) == u;
    assert Peek(cache, store, txn.hash) == [] by {
      if Peek(cache, store, txn.hash) != [] {
        var i := Peek(cache, store, txn.hash)[0];
        assert (txn.hash, i) in UnspentItems(u);
        UnspentItem(u, OutPoint(txn.hash, i));
      }
    }
    for index := 0 to |txn.outputs|
      invariant u' == u + OutsUpTo(txn, index)
      invariant txn.hash !in cache' ==> Peek(cache', store, txn.hash) == []
      invariant Shows(cache', store, UnspentItems(u'))
    {
      var number: uint16 := index % 0x1_0000;
      ghost var op := OutPoint(txn.hash, number);
      UnspentItem(u', op);
      assert op !in u';
      Appended<Uint256, uint16>(cache', store, UnspentItems(u'), txn.hash, number);
      cache' := cache'[txn.hash := (if txn.hash in cache' then cache'[txn.hash] else []) + [number]];
      u' := u' + {op};
      assert OutsUpTo(txn, index + 1) == OutsUpTo(txn, index) + {op};
    }
  }

  method SpendUnspent(store: UnspentIndex, cache: UnspentIndex, txn: Tx, ghost u: set<OutPoint>)
    returns (ok: bool, cache': UnspentIndex)
    requires MovesValue(txn) && !txn.kind.CoinBase?
    requires Shows(cache, store, UnspentItems(u))
    ensures ok ==> Shows(cache', store, UnspentItems(u - ToSet(SpentBy(txn))))
    ensures Spendable(u, SpentBy(txn)) ==> ok
  {
    ok, cache' := true, cache;
    ghost var u', ops := u, SpentBy(txn);
    assert u - ToSet(ops[..0]) == u;
    for j := 0 to |txn.inputs|
      invariant ok && u' == u - ToSet(ops[..j])
      invariant Shows(cache', store, UnspentItems(u'))
      invariant Spendable(u, ops) ==> Spendable(u', ops[j..])
    {
      var op := txn.inputs[j].previous;
      assert ops[j] == op && ops[j..][1..] == ops[j + 1..];
      UnspentItem(u', op);
      assert op in u' ==> op.index in Peek(cache', store, op.txId);
      if op.txId !in cache' {
        if op.txId !in store {
          ok := false;
          return;
        }
        Loaded<Uint256, uint16>(cache', store, UnspentItems(u'), op.txId);
        cache' := cache'[op.txId := store[op.txId]];
      }
      assert Peek(cache', store, op.txId) == cache'[op.txId];
      var list := RemoveNumber(cache'[op.txId], op.index);
      Removed<Uint256, uint16>(cache', store, UnspentItems(u'), op.txId, op.index, list);
      cache' := cache'[op.txId := list];
      u' := u' - {op};
      assert ops[..j + 1] == ops[..j] + [op];
      assert ToSet(ops[..j + 1]) == ToSet(ops[..j]) + {op};
    }
    assert ops[..|ops|] == ops;
  }

  /** Drop one number from a list by swapping in the last; a missing number is no error. */
  method RemoveNumber(list: seq<uint16>, index: uint16) returns (list': seq<uint16>)
    ensures NoDup(list) ==> NoDup(list') && forall v :: v in list' <==> v in list && v != index
  {
    list' := list;
    for k := 0 to |list|
      invariant list' == list && index !in list[..k]
    {
      if list[k] == index {
        if NoDup(list) {
          SwapRemoveElements(list, k);
        }
        list' := SwapRemove(list, k);
        return;
      }
    }
  }

  // ----- Persisting: the index by address -----

  method CreateUtxos(store: UtxoIndex, cache: UtxoIndex, txn: Tx, height: uint32, ghost txs: map<Uint256, TxRecord>, ghost u: set<OutPoint>)
    returns (cache': UtxoIndex)
    requires MovesValue(txn) && |txn.outputs| <= 0x1_0000
    requires txn.hash in txs && txs[txn.hash] == TxRecord(txn, height)
    requires Shows(cache, store, UtxoItems(txs, u))
    requires forall op: OutPoint :: op.txId == txn.hash ==> op !in u
    ensures Shows(cache', store, UtxoItems(txs, u + Outs(txn)))
  {
    cache' := cache;
    ghost var u' := u;
    assert u + OutsUpTo(txn, 0) == u;
    for index := 0 to |txn.outputs|
      invariant u' == u + OutsUpTo(txn, index)
      invariant Shows(cache', store, UtxoItems(txs, u'))
    {
      var output := txn.outputs[index];
      var key := UtxoKey(output.programHash, output.assetId, height);
      if key !in cache' {
        Loaded(cache', store, UtxoItems(txs, u'), key);
        cache' := cache'[key := if key in store then store[key] else []];
      }
      ghost var op := OutPoint(txn.hash, index);
      UtxoItem(txs, u', op);
      assert op !in u';
      Appended(cache', store, UtxoItems(txs, u'), key, Utxo(txn.hash, index, output.value));
      cache' := cache'[key := cache'[key] + [Utxo(txn.hash, index, output.value)]];
      u' := u' + {op};
      assert OutsUpTo(txn, index + 1) == OutsUpTo(txn, index) + {op};
    }
  }

  /** The position of an entry in a list, or -1. */
  method FindUtxo(list: seq<Utxo>, txId: Uint256, index: nat) returns (at: int)
    ensures at == -1 || 0 <= at < |list|
    ensures at >= 0 ==> list[at].txId == txId && list[at].index == index
    ensures at == -1 ==> forall x :: x in list ==> !(x.txId == txId && x.index == index)
  {
    for i := 0 to |list|
      invariant forall x :: x in list[..i] ==> !(x.txId == txId && x.index == index)
    {
      if list[i].txId == txId && list[i].index == index {
        return i;
      }
    }
    assert list[..|list|] == list;
    return -1;
  }

  /** In a list that the index shows, an entry is found exactly when its output is unspent. */
  lemma {:induction false} Listed(store: UtxoIndex, cache: UtxoIndex, txs: map<Uint256, TxRecord>, u: set<OutPoint>, op: OutPoint)
    requires InRange(txs, op) && Shows(cache, store, UtxoItems(txs, u))
    ensures op in u <==> UtxoOf(txs, op) in Peek(cache, store, KeyOf(txs, op))
    ensures forall x :: x in Peek(cache, store, KeyOf(txs, op)) && x.txId == op.txId && x.index == op.index ==> x == UtxoOf(txs, op)
  {
  }

  method SpendUtxo(store: UtxoIndex, cache: UtxoIndex, stored: map<Uint256, TxRecord>, op: OutPoint,
                   ghost txs: map<Uint256, TxRecord>, ghost u: set<OutPoint>)
    returns (ok: bool, cache': UtxoIndex)
    requires forall h :: h in stored ==> h in txs && txs[h] == stored[h] && stored[h].tx.hash == h
    requires Shows(cache, store, UtxoItems(txs, u))
    ensures ok <==> op in u && InRange(stored, op)
    ensures ok ==> Shows(cache', store, UtxoItems(txs, u - {op}))
  {
    ok, cache' := false, cache;
    if op.txId !in stored {
      return;
    }
    var referTxn := stored[op.txId];
    if op.index >= |referTxn.tx.outputs| {
      return;
    }
    Listed(store, cache, txs, u, op);
    var output := referTxn.tx.outputs[op.index];
    var key := UtxoKey(output.programHash, output.assetId, referTxn.height);
    if key !in cache' {
      if key !in store {
        return;
      }
      Loaded(cache, store, UtxoItems(txs, u), key);
      cache' := cache'[key := store[key]];
    }
    ghost var loaded := cache';
    var list := cache'[key];
    var at := FindUtxo(list, referTxn.tx.hash, op.index);
    if at == -1 {
      return;
    }
    SwapRemoveElements(Peek(loaded, store, key), at);
    UtxoItem(txs, u, op);
    Removed(loaded, store, UtxoItems(txs, u), key, list[at], SwapRemove(list, at));
    cache' := cache'[key := SwapRemove(list, at)];
    ok := true;
  }

  method SpendUtxos(store: UtxoIndex, cache: UtxoIndex, stored: map<Uint256, TxRecord>, txn: Tx,
                    ghost txs: map<Uint256, TxRecord>, ghost u: set<OutPoint>, ghost v: set<OutPoint>)
    returns (ok: bool, cache': UtxoIndex)
    requires MovesValue(txn) && !txn.kind.CoinBase?
    requires forall h :: h in stored ==> h in txs && txs[h] == stored[h] && stored[h].tx.hash == h
    requires Shows(cache, store, UtxoItems(txs, u))
    requires forall op :: op in v <==> op in u && InRange(stored, op)
    ensures ok <==> Spendable(v, SpentBy(txn))
    ensures ok ==> Shows(cache', store, UtxoItems(txs, u - ToSet(SpentBy(txn))))
  {
    ok, cache' := true, cache;
    ghost var u', v', ops := u, v, SpentBy(txn);
    assert u - ToSet(ops[..0]) == u;
    for j := 0 to |txn.inputs|
      invariant ok && u' == u - ToSet(ops[..j])
      invariant Shows(cache', store, UtxoItems(txs, u'))
      invariant forall op :: op in v' <==> op in u' && InRange(stored, op)
      invariant Spendable(v, ops) <==> Spendable(v', ops[j..])
    {
      var op := txn.inputs[j].previous;
      assert ops[j] == op && ops[j..][0] == op && ops[j..][1..] == ops[j + 1..];
      ok, cache' := SpendUtxo(store, cache', stored, op, txs, u');
      if !ok {
        return;
      }
      u', v' := u' - {op}, v' - {op};
      assert ops[..j + 1] == ops[..j] + [op];
      assert ToSet(ops[..j + 1]) == ToSet(ops[..j]) + {op};
    }
    assert ops[..|ops|] == ops;
  }

  // ----- Persisting one transaction -----

  lemma {:induction false} NothingSpent(tx: Tx)
    requires !MovesValue(tx) || tx.kind.CoinBase?
    ensures SpentBy(tx) == [] && ToSet(SpentBy(tx)) == {}
    ensures !MovesValue(tx) ==> Outs(tx) == {}
  {
  }

  method PersistTxUtxos(store: UtxoIndex, cache: UtxoIndex, stored: map<Uint256, TxRecord>, txn: Tx, height: uint32,
                        ghost txs: map<Uint256, TxRecord>, ghost u: set<OutPoint>, ghost v: set<OutPoint>)
    returns (ok: bool, cache': UtxoIndex)
    requires |txn.outputs| <= 0x1_0000 && txn.hash !in stored
    requires txn.hash in txs && txs[txn.hash] == TxRecord(txn, height)
    requires forall h :: h in stored ==> h in txs && txs[h] == stored[h] && stored[h].tx.hash == h
    requires Shows(cache, store, UtxoItems(txs, u))
    requires forall op: OutPoint :: op.txId == txn.hash ==> op !in u
    requires forall op :: op in v <==> op in u && InRange(stored, op)
    ensures ok <==> Spendable(v, SpentBy(txn))
    ensures ok ==> Shows(cache', store, UtxoItems(txs, u + Outs(txn) - ToSet(SpentBy(txn))))
  {
    ok, cache' := true, cache;
    if !MovesValue(txn) {
      NothingSpent(txn);
      assert u + Outs(txn) - ToSet(SpentBy(txn)) == u;
      return;
    }
    cache' := CreateUtxos(store, cache', txn, height, txs, u);
    if !txn.kind.CoinBase? {
      ok, cache' := SpendUtxos(store, cache', stored, txn, txs, u + Outs(txn), v);
    } else {
      NothingSpent(txn);
      assert u + Outs(txn) - ToSet(SpentBy(txn)) == u + Outs(txn);
    }
  }

  method PersistTxUnspent(store: UnspentIndex, cache: UnspentIndex, txn: Tx, ghost u: set<OutPoint>)
    returns (ok: bool, cache': UnspentIndex)
    requires |txn.outputs| <= 0x1_0000
    requires forall h :: h in store ==> store[h] != []
    requires Shows(cache, store, UnspentItems(u))
    requires forall op: OutPoint :: op.txId == txn.hash ==> op !in u
    ensures ok ==> Shows(cache', store, UnspentItems(u + Outs(txn) - ToSet(SpentBy(txn))))
    ensures Spendable(u + Outs(txn), SpentBy(txn)) ==> ok
  {
    ok, cache' := true, cache;
    if !MovesValue(txn) {
      NothingSpent(txn);
      assert u + Outs(txn) - ToSet(SpentBy(txn)) == u;
      return;
    }
    cache' := AddUnspent(store, cache', txn, u);
    if !txn.kind.CoinBase? {
      ok, cache' := SpendUnspent(store, cache', txn, u + Outs(txn));
    } else {
      NothingSpent(txn);
      assert u + Outs(txn) - ToSet(SpentBy(txn)) == u + Outs(txn);
    }
  }

  // ----- Rolling back -----

  /** Put the outputs that a transaction spent back into the index by transaction hash. */
  method RestoreUnspent(store: UnspentIndex, cache: UnspentIndex, txn: Tx, ghost u: set<OutPoint>) returns (cache': UnspentIndex)
    requires MovesValue(txn) && !txn.kind.CoinBase?
    requires Shows(cache, store, UnspentItems(u))
    requires NoDup(SpentBy(txn)) && ToSet(SpentBy(txn)) !! u
    ensures Shows(cache', store, UnspentItems(u + ToSet(SpentBy(txn))))
    ensures forall h :: h in cache' && h !in cache ==> exists op :: op in SpentBy(txn) && op.txId == h
  {
    cache' := cache;
    ghost var u', ops := u, SpentBy(txn);
    assert u + ToSet(ops[..0]) == u;
    for j := 0 to |txn.inputs|
      invariant u' == u + ToSet(ops[..j])
      invariant forall h :: h in cache' && h !in cache ==> exists op :: op in ops && op.txId == h
      invariant Shows(cache', store, UnspentItems(u'))
    {
      var op := txn.inputs[j].previous;
      assert ops[j] == op;
      UnspentItem(u', op);
      assert op in ToSet(ops);
      Appended<Uint256, uint16>(cache', store, UnspentItems(u'), op.txId, op.index);
      ghost var was := cache';
      if op.txId !in cache' && op.txId in store {
        cache' := cache'[op.txId := store[op.txId]];
      }
      cache' := cache'[op.txId := (if op.txId in cache' then cache'[op.txId] else []) + [op.index]];
      assert cache' == was[op.txId := Peek(was, store, op.txId) + [op.index]];
      u' := u' + {op};
      assert ops[..j + 1] == ops[..j] + [op];
      assert ToSet(ops[..j + 1]) == ToSet(ops[..j]) + {op};
    }
    assert ops[..|ops|] == ops;
  }

  /** Take the outputs that a transaction created out of the index by address. */
  method DropUtxos(store: UtxoIndex, cache: UtxoIndex, txn: Tx, height: uint32, ghost txs: map<Uint256, TxRecord>, ghost u: set<OutPoint>)
    returns (ok: bool, cache': UtxoIndex)
    requires MovesValue(txn) && |txn.outputs| <= 0x1_0000
    requires txn.hash in txs && txs[txn.hash] == TxRecord(txn, height)
    requires Shows(cache, store, UtxoItems(txs, u))
    requires Outs(txn) <= u
    ensures ok && Shows(cache', store, UtxoItems(txs, u - Outs(txn)))
  {
    ok, cache' := true, cache;
    ghost var u' := u;
    assert u - OutsUpTo(txn, 0) == u;
    for index := 0 to |txn.outputs|
      invariant ok && u' == u - OutsUpTo(txn, index)
      invariant Shows(cache', store, UtxoItems(txs, u'))
    {
      var output := txn.outputs[index];
      var key := UtxoKey(output.programHash, output.assetId, height);
      ghost var op := OutPoint(txn.hash, index);
      assert op in u' by {
        assert op in Outs(txn);
      }
      Listed(store, cache', txs, u', op);
      if key !in cache' {
        if key !in store {
          ok := false;
          return;
        }
        Loaded(cache', store, UtxoItems(txs, u'), key);
        cache' := cache'[key := store[key]];
      }
      var list := cache'[key];
      var at := FindUtxo(list, txn.hash, index);
      var position := if at == -1 then 0 else at;
      RemoveAtElements(Peek(cache', store, key), position);
      UtxoItem(txs, u', op);
      Removed(cache', store, UtxoItems(txs, u'), key, list[position], RemoveAt(list, position));
      cache' := cache'[key := RemoveAt(list, position)];
      u' := u' - {op};
      assert OutsUpTo(txn, index + 1) == OutsUpTo(txn, index) + {op};
    }
  }

  /** Put the outputs that a transaction spent back into the index by address. */
  method RestoreUtxos(store: UtxoIndex, cache: UtxoIndex, stored: map<Uint256, TxRecord>, txn: Tx, ghost u: set<OutPoint>)
    returns (ok: bool, cache': UtxoIndex)
    requires MovesValue(txn) && !txn.kind.CoinBase?
    requires forall h :: h in stored ==> stored[h].tx.hash == h
    requires Shows(cache, store, UtxoItems(stored, u))
    requires NoDup(SpentBy(txn)) && ToSet(SpentBy(txn)) !! u
    requires forall op :: op in SpentBy(txn) ==> InRange(stored, op)
    ensures ok && Shows(cache', store, UtxoItems(stored, u + ToSet(SpentBy(txn))))
  {
    ok, cache' := true, cache;
    ghost var u', ops := u, SpentBy(txn);
    assert u + ToSet(ops[..0]) == u;
    for j := 0 to |txn.inputs|
      invariant ok && u' == u + ToSet(ops[..j])
      invariant Shows(cache', store, UtxoItems(stored, u'))
    {
      var op := txn.inputs[j].previous;
      assert ops[j] == op && op in ops;
      if op.txId !in stored {
        ok := false;
        return;
      }
      var referTxn := stored[op.txId];
      var output := referTxn.tx.outputs[op.index];
      var key := UtxoKey(output.programHash, output.assetId, referTxn.height);
      if key !in cache' {
        Loaded(cache', store, UtxoItems(stored, u'), key);
        cache' := cache'[key := if key in store then store[key] else []];
      }
      UtxoItem(stored, u', op);
      var utxo := Utxo(referTxn.tx.hash, op.index, output.value);
      Appended(cache', store, UtxoItems(stored, u'), key, utxo);
      cache' := cache'[key := cache'[key] + [utxo]];
      u' := u' + {op};
      assert ops[..j + 1] == ops[..j] + [op];
      assert ToSet(ops[..j + 1]) == ToSet(ops[..j]) + {op};
    }
    assert ops[..|ops|] == ops;
  }

  // ----- Rolling back one transaction -----

  method RollbackTxUtxos(store: UtxoIndex, cache: UtxoIndex, stored: map<Uint256, TxRecord>, txn: Tx, height: uint32, ghost u: set<OutPoint>)
    returns (ok: bool, cache': UtxoIndex)
    requires |txn.outputs| <= 0x1_0000
    requires txn.hash in stored && stored[txn.hash] == TxRecord(txn, height)
    requires forall h :: h in stored ==> stored[h].tx.hash == h
    requires Shows(cache, store, UtxoItems(stored, u))
    requires Outs(txn) <= u
    requires NoDup(SpentBy(txn)) && ToSet(SpentBy(txn)) !! u - Outs(txn)
    requires forall op :: op in SpentBy(txn) ==> InRange(stored, op)
    ensures ok && Shows(cache', store, UtxoItems(stored, u - Outs(txn) + ToSet(SpentBy(txn))))
  {
    ok, cache' := true, cache;
    if !MovesValue(txn) {
      NothingSpent(txn);
      assert u - Outs(txn) + ToSet(SpentBy(txn)) == u;
      return;
    }
    ok, cache' := DropUtxos(store, cache', txn, height, stored, u);
    if !txn.kind.CoinBase? {
      ok, cache' := RestoreUtxos(store, cache', stored, txn, u - Outs(txn));
    } else {
      NothingSpent(txn);
      assert u - Outs(txn) + ToSet(SpentBy(txn)) == u - Outs(txn);
    }
  }

  method RollbackTxUnspent(store: UnspentIndex, cache: UnspentIndex, txn: Tx, ghost u: set<OutPoint>) returns (cache': UnspentIndex)
    requires Shows(cache, store, UnspentItems(u))
    requires NoDup(SpentBy(txn)) && ToSet(SpentBy(txn)) !! u
    ensures Shows(cache', store, UnspentItems(u + ToSet(SpentBy(txn))))
    ensures forall h :: h in cache' && h !in cache ==> exists op :: op in SpentBy(txn) && op.txId == h
  {
    cache' := cache;
    if MovesValue(txn) && !txn.kind.CoinBase? {
      cache' := RestoreUnspent(store, cache, txn, u);
    } else {
      NothingSpent(txn);
      assert u + ToSet(SpentBy(txn)) == u;
    }
  }

  /** Deleting the lists of some transactions, none of them in the cache. */
  lemma {:induction false} KeysDeleted(store: UnspentIndex, cache: UnspentIndex, u: set<OutPoint>, hashes: set<Uint256>, u': set<OutPoint>)
    requires Shows(cache, store, UnspentItems(u)) && cache.Keys !! hashes
    requires forall op :: op in u' <==> op in u && op.txId !in hashes
    ensures Shows(cache, store - hashes, UnspentItems(u'))
  {
    forall k: Uint256, v: uint16 ensures v in Peek(cache, store - hashes, k) <==> (k, v) in UnspentItems(u') {
      UnspentItem(u, OutPoint(k, v));
      UnspentItem(u', OutPoint(k, v));
      assert v in Peek(cache, store, k) <==> (k, v) in UnspentItems(u);
      assert k in hashes ==> Peek(cache, store - hashes, k) == [];
      assert k !in hashes ==> Peek(cache, store - hashes, k) == Peek(cache, store, k);
    }
    assert forall k :: Peek(cache, store - hashes, k) == [] || Peek(cache, store - hashes, k) == Peek(cache, store, k);
  }
}
