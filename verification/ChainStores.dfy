/** The chain store: what is written when a block is persisted, and taken back when it is rolled back. */
module ChainStores {
  import opened Core
  import opened ListIndex
  import opened Ledgers
  import opened Utxos

  /** The contents of the key/value store, one map per key prefix. */
  datatype Db = Db(
    headers: map<Uint256, TrimmedBlock>,
    blockHashes: map<int, Uint256>,
    txs: map<Uint256, TxRecord>,
    assets: map<Uint256, Asset>,
    mainchain: set<Uint256>,
    identifications: map<string, Uint256>,
    unspent: UnspentIndex,
    utxos: UtxoIndex,
    current: Option<Tip>)

  const EMPTY_DB := Db(map[], map[], map[], map[], {}, map[], map[], map[], None)

  /** The store holds this ledger: everything is equal, and the two indices show the unspent outputs. */
  ghost predicate Represents(db: Db, l: Ledger) {
    && WellFormed(l)
    && db.headers == l.headers
    && db.blockHashes == l.blockHashes
    && db.txs == l.txs
    && db.assets == l.assets
    && db.mainchain == l.mainchain
    && db.current == l.tip
    && Indexes(db.unspent, UnspentItems(l.unspent))
    && Indexes(db.utxos, UtxoItems(l.txs, l.unspent))
  }

  // ----- Facts about a block being processed transaction by transaction -----

  /** What is unspent after the first `n` transactions. */
  ghost function After(u: set<OutPoint>, txs: seq<Tx>, n: nat): set<OutPoint>
    requires n <= |txs|
  {
    if n == 0 then u else After(u, txs, n - 1) + Outs(txs[n - 1]) - ToSet(SpentBy(txs[n - 1]))
  }

  /** What is left after them of the outputs that were unspent before the block. */
  ghost function Remaining(u: set<OutPoint>, txs: seq<Tx>, n: nat): set<OutPoint>
    requires n <= |txs|
  {
    u - ToSet(InputsOf(txs[..n]))
  }

  lemma {:induction false} HashSetStep(txs: seq<Tx>, n: nat)
    requires n < |txs|
    ensures HashSet(txs[..n + 1]) == HashSet(txs[..n]) + {txs[n].hash}
  {
  }

  lemma {:induction false} RemainingStep(u: set<OutPoint>, txs: seq<Tx>, n: nat)
    requires n < |txs|
    ensures Remaining(u, txs, n + 1) == Remaining(u, txs, n) - ToSet(SpentBy(txs[n]))
  {
    OneMore(txs, n);
    assert ToSet(InputsOf(txs[..n + 1])) == ToSet(InputsOf(txs[..n])) + ToSet(SpentBy(txs[n]));
  }

  /** Old outputs are only ever spent, and the outputs of the next transaction are not there yet. */
  lemma {:induction false} OldAndNew(l: Ledger, txs: seq<Tx>, n: nat)
    requires WellFormed(l) && FreshTxs(l, txs) && n <= |txs|
    ensures forall op :: op in Remaining(l.unspent, txs, n) <==> op in After(l.unspent, txs, n) && InRange(l.txs, op)
    ensures forall op :: op in After(l.unspent, txs, n) && op !in Remaining(l.unspent, txs, n) ==> op.txId in HashSet(txs[..n])
  {
    if n > 0 {
      OldAndNew(l, txs, n - 1);
      RemainingStep(l.unspent, txs, n - 1);
      HashSetStep(txs, n - 1);
    } else {
      assert InputsOf(txs[..0]) == [];
    }
  }

  lemma {:induction false} NotThereYet(l: Ledger, txs: seq<Tx>, n: nat)
    requires WellFormed(l) && FreshTxs(l, txs) && n < |txs|
    ensures forall op: OutPoint :: op.txId == txs[n].hash ==> op !in After(l.unspent, txs, n)
  {
    OldAndNew(l, txs, n);
    assert txs[n].hash !in HashSet(txs[..n]) by {
      forall i | 0 <= i < n ensures txs[..n][i].hash != txs[n].hash {
        assert TxHashes(txs)[i] != TxHashes(txs)[n];
      }
    }
  }

  lemma {:induction false} SpendableStep(l: Ledger, txs: seq<Tx>, n: nat)
    requires n < |txs|
    ensures Spendable(Remaining(l.unspent, txs, n), InputsOf(txs[n..])) <==>
            Spendable(Remaining(l.unspent, txs, n), SpentBy(txs[n])) && Spendable(Remaining(l.unspent, txs, n + 1), InputsOf(txs[n + 1..]))
  {
    OneMore(txs, n);
    var v, s := Remaining(l.unspent, txs, n), SpentBy(txs[n]);
    RemainingStep(l.unspent, txs, n);
    SpendableConcat(v, s, InputsOf(txs[n + 1..]));
  }

  lemma {:induction false} SpendableFrom(l: Ledger, txs: seq<Tx>, n: nat)
    requires n <= |txs|
    ensures Remaining(l.unspent, txs, 0) == l.unspent && txs[0..] == txs
    ensures Spendable(l.unspent, InputsOf(txs)) ==> Spendable(Remaining(l.unspent, txs, n), InputsOf(txs[n..]))
  {
    assert InputsOf(txs[..0]) == [];
    if n > 0 {
      SpendableFrom(l, txs, n - 1);
      SpendableStep(l, txs, n - 1);
    }
  }

  lemma {:induction false} CreatedPart(txs: seq<Tx>, n: nat)
    requires n <= |txs|
    ensures CreatedBy(txs[..n]) <= CreatedBy(txs)
  {
    assert txs == txs[..n] + txs[n..];
    CreatedByConcat(txs[..n], txs[n..]);
  }

  lemma {:induction false} SpendThenCreate<T>(had: set<T>, made: set<T>, more: set<T>, spent: set<T>)
    requires spent <= had && spent !! made + more
    ensures had + made + more - spent == (had - spent) + (made + more)
  {
  }

  lemma {:induction false} SpentIsOld(l: Ledger, txs: seq<Tx>, n: nat)
    requires WellFormed(l) && FreshTxs(l, txs) && Spendable(l.unspent, InputsOf(txs)) && n < |txs|
    ensures ToSet(SpentBy(txs[n])) <= Remaining(l.unspent, txs, n)
    ensures ToSet(SpentBy(txs[n])) !! CreatedBy(txs[..n]) + Outs(txs[n])
    ensures Remaining(l.unspent, txs, n + 1) == Remaining(l.unspent, txs, n) - ToSet(SpentBy(txs[n]))
  {
    SpendableFrom(l, txs, n);
    SpendableStep(l, txs, n);
    SpendableMeans(Remaining(l.unspent, txs, n), SpentBy(txs[n]));
    OneMore(txs, n);
    CreatedPart(txs, n + 1);
    UnspentUndone(l, txs);
    RemainingStep(l.unspent, txs, n);
  }

  /** A block that spends only old outputs can create all of its own first. */
  lemma {:induction false} AfterBlock(l: Ledger, txs: seq<Tx>, n: nat)
    requires WellFormed(l) && FreshTxs(l, txs) && Spendable(l.unspent, InputsOf(txs)) && n <= |txs|
    ensures After(l.unspent, txs, n) == Remaining(l.unspent, txs, n) + CreatedBy(txs[..n])
  {
    hide WellFormed, FreshTxs, Spendable, SpentBy, InputsOf;
    if n == 0 {
      SpendableFrom(l, txs, 0);
    } else {
      AfterBlock(l, txs, n - 1);
      SpentIsOld(l, txs, n - 1);
      var r, c, o, p := Remaining(l.unspent, txs, n - 1), CreatedBy(txs[..n - 1]), Outs(txs[n - 1]), ToSet(SpentBy(txs[n - 1]));
      SpendThenCreate(r, c, o, p);
      assert After(l.unspent, txs, n) == r + c + o - p;
      assert CreatedBy(txs[..n]) == c + o by {
        OneMore(txs, n - 1);
      }
    }
  }

  lemma {:induction false} AfterWholeBlock(l: Ledger, txs: seq<Tx>)
    requires WellFormed(l) && FreshTxs(l, txs) && Spendable(l.unspent, InputsOf(txs))
    ensures After(l.unspent, txs, |txs|) == UnspentAfter(l.unspent, txs)
  {
    AfterBlock(l, txs, |txs|);
    assert txs[..|txs|] == txs;
  }

  /** Work through a block on a cache of the index by address. */
  method CacheUtxos(store: UtxoIndex, stored: map<Uint256, TxRecord>, txs: seq<Tx>, height: uint32,
                    ghost l: Ledger, ghost all: map<Uint256, TxRecord>)
    returns (ok: bool, cache: UtxoIndex)
    requires WellFormed(l) && FreshTxs(l, txs) && stored == l.txs && all == PutTxs(l.txs, txs, height)
    requires Shows(map[], store, UtxoItems(l.txs, l.unspent))
    ensures ok <==> Spendable(l.unspent, InputsOf(txs))
    ensures ok ==> Shows(cache, store, UtxoItems(all, After(l.unspent, txs, |txs|)))
  {
    ok, cache := true, map[];
    AllTxs(l, txs, height);
    UtxoItemsExtend(l.txs, all, l.unspent);
    SpendableFrom(l, txs, 0);
    for n := 0 to |txs|
      invariant ok
      invariant Shows(cache, store, UtxoItems(all, After(l.unspent, txs, n)))
      invariant Spendable(l.unspent, InputsOf(txs)) <==> Spendable(Remaining(l.unspent, txs, n), InputsOf(txs[n..]))
    {
      SpendableStep(l, txs, n);
      NotThereYet(l, txs, n);
      OldAndNew(l, txs, n);
      ok, cache := PersistTxUtxos(store, cache, stored, txs[n], height, all, After(l.unspent, txs, n), Remaining(l.unspent, txs, n));
      if !ok {
        return;
      }
    }
  }

  lemma {:induction false} AllTxs(l: Ledger, txs: seq<Tx>, height: uint32)
    requires WellFormed(l) && FreshTxs(l, txs)
    ensures var all := PutTxs(l.txs, txs, height);
      && (forall h :: h in l.txs ==> h in all && all[h] == l.txs[h])
      && (forall i :: 0 <= i < |txs| ==> txs[i].hash in all && all[txs[i].hash] == TxRecord(txs[i], height))
  {
    PutTxsKeys(l.txs, txs, height);
  }

  lemma {:induction false} EachSpendable(l: Ledger, txs: seq<Tx>, n: nat)
    requires WellFormed(l) && FreshTxs(l, txs) && n < |txs|
    ensures Spendable(l.unspent, InputsOf(txs)) ==> Spendable(After(l.unspent, txs, n) + Outs(txs[n]), SpentBy(txs[n]))
  {
    if Spendable(l.unspent, InputsOf(txs)) {
      AfterBlock(l, txs, n);
      SpendableFrom(l, txs, n);
      SpendableStep(l, txs, n);
      SpendableMeans(Remaining(l.unspent, txs, n), SpentBy(txs[n]));
      SpendableMeans(After(l.unspent, txs, n) + Outs(txs[n]), SpentBy(txs[n]));
    }
  }

  // ----- Facts about taking a block back -----

  /** What is unspent after the first `n` transactions of a block were rolled back. */
  ghost function Undoing(l: Ledger, txs: seq<Tx>, n: nat): set<OutPoint>
    requires n <= |txs|
  {
    UnspentAfter(l.unspent, txs) - CreatedBy(txs[..n]) + ToSet(InputsOf(txs[..n]))
  }

  lemma {:induction false} NoDupParts<T>(a: seq<T>, b: seq<T>, c: seq<T>)
    requires NoDup(a + b + c)
    ensures NoDup(b) && ToSet(a) !! ToSet(b)
  {
    var s := a + b + c;
    forall i, j | 0 <= i < j < |b| ensures b[i] != b[j] {
      assert s[|a| + i] == b[i] && s[|a| + j] == b[j];
    }
    forall x | x in a ensures x !in b {
      var i :| 0 <= i < |a| && a[i] == x;
      forall j | 0 <= j < |b| ensures b[j] != x {
        assert s[i] != s[|a| + j];
      }
    }
  }

  lemma {:induction false} InputsAround(txs: seq<Tx>, n: nat)
    requires n < |txs|
    ensures InputsOf(txs) == InputsOf(txs[..n]) + SpentBy(txs[n]) + InputsOf(txs[n + 1..])
  {
    assert InputsOf(txs[n..]) == SpentBy(txs[n]) + InputsOf(txs[n + 1..]) by {
      OneMore(txs, n);
    }
    assert InputsOf(txs) == InputsOf(txs[..n]) + InputsOf(txs[n..]) by {
      assert txs == txs[..n] + txs[n..];
      InputsOfConcat(txs[..n], txs[n..]);
    }
    ConcatAssoc(InputsOf(txs[..n]), SpentBy(txs[n]), InputsOf(txs[n + 1..]));
  }

  lemma {:induction false} SpentOnce(l: Ledger, txs: seq<Tx>, n: nat)
    requires Spendable(l.unspent, InputsOf(txs)) && n < |txs|
    ensures NoDup(SpentBy(txs[n])) && ToSet(InputsOf(txs[..n])) !! ToSet(SpentBy(txs[n]))
    ensures ToSet(SpentBy(txs[n])) <= ToSet(InputsOf(txs)) <= l.unspent
  {
    var a, b, c := InputsOf(txs[..n]), SpentBy(txs[n]), InputsOf(txs[n + 1..]);
    SpendableMeans(l.unspent, InputsOf(txs));
    InputsAround(txs, n);
    NoDupParts(a, b, c);
    MiddlePart(a, b, c);
  }

  lemma {:induction false} MiddlePart<T>(a: seq<T>, b: seq<T>, c: seq<T>)
    ensures ToSet(b) <= ToSet(a + b + c)
  {
  }

  lemma {:induction false} CreatedOnce(l: Ledger, txs: seq<Tx>, n: nat)
    requires FreshTxs(l, txs) && n < |txs|
    ensures Outs(txs[n]) <= CreatedBy(txs) && Outs(txs[n]) !! CreatedBy(txs[..n])
  {
    OneMore(txs, n);
    CreatedPart(txs, n + 1);
    forall op | op in Outs(txs[n]) ensures op !in CreatedBy(txs[..n]) {
      CreatedByTx(txs[..n], op);
      forall i | 0 <= i < n ensures op !in Outs(txs[..n][i]) {
        assert TxHashes(txs)[i] != TxHashes(txs)[n];
      }
    }
  }

  /** Undoing one more transaction, as sets: `made` and `spent` are those of the whole block, `c` and
      `s` those of the transactions undone so far, `o` and `p` those of the next one. */
  lemma {:induction false} UndoAlgebra<T>(had: set<T>, spent: set<T>, made: set<T>, c: set<T>, s: set<T>, o: set<T>, p: set<T>)
    requires spent <= had && made !! had && c + o <= made && s + p <= spent && o !! c && s !! p
    ensures o <= had - spent + made - c + s
    ensures p !! had - spent + made - c + s - o
    ensures had - spent + made - (c + o) + (s + p) == had - spent + made - c + s - o + p
  {
  }

  lemma {:induction false} InputsPart(txs: seq<Tx>, n: nat)
    requires n <= |txs|
    ensures ToSet(InputsOf(txs[..n])) <= ToSet(InputsOf(txs))
  {
    assert txs == txs[..n] + txs[n..];
    InputsOfConcat(txs[..n], txs[n..]);
  }

  lemma {:induction false} UndoStep(l: Ledger, txs: seq<Tx>, n: nat)
    requires WellFormed(l) && FreshTxs(l, txs) && Spendable(l.unspent, InputsOf(txs)) && n < |txs|
    ensures Outs(txs[n]) <= Undoing(l, txs, n)
    ensures NoDup(SpentBy(txs[n])) && ToSet(SpentBy(txs[n])) !! Undoing(l, txs, n) - Outs(txs[n])
    ensures Undoing(l, txs, n + 1) == Undoing(l, txs, n) - Outs(txs[n]) + ToSet(SpentBy(txs[n]))
  {
    SpentOnce(l, txs, n);
    CreatedOnce(l, txs, n);
    CreatedPart(txs, n);
    InputsPart(txs, n);
    OneMore(txs, n);
    var s, p := ToSet(InputsOf(txs[..n])), ToSet(SpentBy(txs[n]));
    assert ToSet(InputsOf(txs[..n + 1])) == s + p;
    CreatedIsNew(l, txs);
    UndoAlgebra(l.unspent, ToSet(InputsOf(txs)), CreatedBy(txs), CreatedBy(txs[..n]), s, Outs(txs[n]), p);
  }

  lemma {:induction false} CreatedIsNew(l: Ledger, txs: seq<Tx>)
    requires WellFormed(l) && FreshTxs(l, txs)
    ensures CreatedBy(txs) !! l.unspent
  {
    forall op | op in CreatedBy(txs) ensures op !in l.unspent {
      CreatedByTx(txs, op);
    }
  }

  lemma {:induction false} UndoEnds(l: Ledger, txs: seq<Tx>)
    requires WellFormed(l) && FreshTxs(l, txs) && Spendable(l.unspent, InputsOf(txs))
    ensures Undoing(l, txs, 0) == UnspentAfter(l.unspent, txs)
    ensures Undoing(l, txs, |txs|) == l.unspent
  {
    assert txs[..0] == [] && txs[..|txs|] == txs;
    UnspentUndone(l, txs);
  }

  /** Work through a block being rolled back on a cache of the index by address. */
  method UncacheUtxos(store: UtxoIndex, stored: map<Uint256, TxRecord>, txs: seq<Tx>, height: uint32, ghost l: Ledger)
    returns (ok: bool, cache: UtxoIndex)
    requires WellFormed(l) && FreshTxs(l, txs) && Spendable(l.unspent, InputsOf(txs)) && stored == PutTxs(l.txs, txs, height)
    requires forall h :: h in stored ==> stored[h].tx.hash == h
    requires Shows(map[], store, UtxoItems(stored, UnspentAfter(l.unspent, txs)))
    ensures ok && Shows(cache, store, UtxoItems(stored, l.unspent))
  {
    ok, cache := true, map[];
    UndoEnds(l, txs);
    AllTxs(l, txs, height);
    for n := 0 to |txs|
      invariant ok && Shows(cache, store, UtxoItems(stored, Undoing(l, txs, n)))
    {
      UndoStep(l, txs, n);
      SpentOnce(l, txs, n);
      forall op | op in SpentBy(txs[n]) ensures InRange(stored, op) {
        assert op in ToSet(SpentBy(txs[n]));
      }
      ok, cache := RollbackTxUtxos(store, cache, stored, txs[n], height, Undoing(l, txs, n));
    }
  }

  /** The transactions of a block whose outputs are indexed at all. */
  ghost function MovingHashes(txs: seq<Tx>): set<Uint256> {
    set i | 0 <= i < |txs| && MovesValue(txs[i]) :: txs[i].hash
  }

  lemma {:induction false} OldOutputs(l: Ledger, txs: seq<Tx>)
    requires WellFormed(l) && FreshTxs(l, txs) && Spendable(l.unspent, InputsOf(txs))
    ensures forall op :: op in l.unspent <==>
              op in UnspentAfter(l.unspent, txs) + ToSet(InputsOf(txs)) && op.txId !in MovingHashes(txs)
  {
    UnspentUndone(l, txs);
    forall op | op in CreatedBy(txs) ensures op.txId in MovingHashes(txs) {
      CreatedByTx(txs, op);
    }
  }

  lemma {:induction false} KnownKeys(l: Ledger, ops: seq<OutPoint>, was: set<Uint256>, keys: set<Uint256>)
    requires WellFormed(l) && ToSet(ops) <= l.unspent && was <= l.txs.Keys
    requires forall h :: h in keys && h !in was ==> exists op :: op in ops && op.txId == h
    ensures keys <= l.txs.Keys
  {
    forall h | h in keys && h !in was ensures h in l.txs {
      var op :| op in ops && op.txId == h;
      assert op in ToSet(ops);
    }
  }

  /** What is unspent while the spent outputs of a block are put back and its own still stand. */
  ghost function Restoring(l: Ledger, txs: seq<Tx>, n: nat): set<OutPoint>
    requires n <= |txs|
  {
    UnspentAfter(l.unspent, txs) + ToSet(InputsOf(txs[..n]))
  }

  lemma {:induction false} RestoreStep(l: Ledger, txs: seq<Tx>, n: nat)
    requires WellFormed(l) && FreshTxs(l, txs) && Spendable(l.unspent, InputsOf(txs)) && n < |txs|
    ensures NoDup(SpentBy(txs[n])) && ToSet(SpentBy(txs[n])) !! Restoring(l, txs, n)
    ensures ToSet(SpentBy(txs[n])) <= l.unspent
    ensures Restoring(l, txs, n + 1) == Restoring(l, txs, n) + ToSet(SpentBy(txs[n]))
  {
    SpentOnce(l, txs, n);
    CreatedIsNew(l, txs);
    OneMore(txs, n);
    assert ToSet(InputsOf(txs[..n + 1])) == ToSet(InputsOf(txs[..n])) + ToSet(SpentBy(txs[n]));
  }

  /** The spent outputs restored to the lists by transaction hash, before the block's own are deleted. */
  method UncacheUnspent(store: UnspentIndex, txs: seq<Tx>, ghost l: Ledger) returns (cache: UnspentIndex)
    requires WellFormed(l) && FreshTxs(l, txs) && Spendable(l.unspent, InputsOf(txs))
    requires Shows(map[], store, UnspentItems(UnspentAfter(l.unspent, txs)))
    ensures cache.Keys <= l.txs.Keys
    ensures Shows(cache, store, UnspentItems(UnspentAfter(l.unspent, txs) + ToSet(InputsOf(txs))))
  {
    cache := map[];
    assert Restoring(l, txs, 0) == UnspentAfter(l.unspent, txs);
    for n := 0 to |txs|
      invariant cache.Keys <= l.txs.Keys
      invariant Shows(cache, store, UnspentItems(Restoring(l, txs, n)))
    {
      RestoreStep(l, txs, n);
      ghost var was := cache.Keys;
      cache := RollbackTxUnspent(store, cache, txs[n], Restoring(l, txs, n));
      KnownKeys(l, SpentBy(txs[n]), was, cache.Keys);
    }
    assert txs[..|txs|] == txs;
  }

  /** Delete the lists of the block's own transactions. */
  method DeleteOwn(store: UnspentIndex, txs: seq<Tx>) returns (store': UnspentIndex)
    ensures store' == store - MovingHashes(txs)
  {
    store' := store;
    for n := 0 to |txs|
      invariant store' == store - MovingHashes(txs[..n])
    {
      MovingStep(txs, n);
      if MovesValue(txs[n]) {
        store' := store' - {txs[n].hash};
      }
    }
    assert txs[..|txs|] == txs;
  }

  lemma {:induction false} OwnDeleted(store: UnspentIndex, cache: UnspentIndex, txs: seq<Tx>, l: Ledger)
    requires WellFormed(l) && FreshTxs(l, txs) && Spendable(l.unspent, InputsOf(txs)) && cache.Keys <= l.txs.Keys
    requires Shows(cache, store, UnspentItems(UnspentAfter(l.unspent, txs) + ToSet(InputsOf(txs))))
    ensures Shows(cache, store - MovingHashes(txs), UnspentItems(l.unspent))
  {
    OldOutputs(l, txs);
    KeysDeleted(store, cache, UnspentAfter(l.unspent, txs) + ToSet(InputsOf(txs)), MovingHashes(txs), l.unspent);
  }

  lemma {:induction false} MovingStep(txs: seq<Tx>, n: nat)
    requires n < |txs|
    ensures MovingHashes(txs[..n + 1]) == MovingHashes(txs[..n]) + if MovesValue(txs[n]) then {txs[n].hash} else {}
  {
  }

  // ----- Facts about the remaining entries -----

  /** The identifications that a block registers, in order. */
  ghost function PutIds(m: map<string, Uint256>, txs: seq<Tx>): map<string, Uint256> {
    if txs == [] then m
    else
      var last := |txs| - 1;
      var m' := PutIds(m, txs[..last]);
      if txs[last].kind.RegisterIdentification? then PutKeys(m', txs[last].kind.keys, txs[last].hash) else m'
  }

  ghost function PutKeys(m: map<string, Uint256>, keys: seq<string>, hash: Uint256): map<string, Uint256> {
    if keys == [] then m else PutKeys(m, keys[..|keys| - 1], hash)[keys[|keys| - 1] := hash]
  }

  lemma {:induction false} PrefixOfPrefix<T>(s: seq<T>, n: nat)
    requires n < |s|
    ensures s[..n + 1][..n] == s[..n] && s[..n + 1][n] == s[n] && s[..n + 1] != []
  {
  }

  lemma {:induction false} RechargedStep(txs: seq<Tx>, n: nat)
    requires n < |txs|
    ensures Recharged(txs[..n + 1]) == Recharged(txs[..n]) + if txs[n].kind.RechargeToSideChain? then [txs[n].kind.mainchainTx] else []
    ensures txs[n].kind.RechargeToSideChain? ==> txs[n].kind.mainchainTx in Recharged(txs)
    ensures RechargedSet(txs[..n + 1]) == RechargedSet(txs[..n]) +
              if txs[n].kind.RechargeToSideChain? && txs[n].kind.mainchainTx.Some? then {txs[n].kind.mainchainTx.value} else {}
  {
    PrefixOfPrefix(txs, n);
    RechargedContains(txs, n);
  }

  lemma {:induction false} RechargedContains(txs: seq<Tx>, n: nat)
    requires n < |txs|
    ensures txs[n].kind.RechargeToSideChain? ==> txs[n].kind.mainchainTx in Recharged(txs)
  {
    var last := |txs| - 1;
    if n < last {
      RechargedContains(txs[..last], n);
    }
  }

  class ChainStore {
    /** What is on disk. */
    var db: Db
    /** What will be on disk once the batch is committed; reads never see it. */
    var batch: Db
    var currentBlockHeight: uint32
    /** The blocks that the store holds, genesis first. */
    ghost var chain: seq<Block>

    method PersistUnspendUTXOs(b: Block, ghost l: Ledger) returns (ok: bool)
      requires Represents(db, l) && FreshTxs(l, b.txs) && batch.utxos == db.utxos
      modifies this`batch
      ensures ok <==> Spendable(l.unspent, InputsOf(b.txs))
      ensures batch == old(batch).(utxos := batch.utxos)
      ensures ok ==> Indexes(batch.utxos, UtxoItems(PutTxs(l.txs, b.txs, b.header.height), UnspentAfter(l.unspent, b.txs)))
    {
      var cache;
      ghost var txs := PutTxs(l.txs, b.txs, b.header.height);
      ok, cache := CacheUtxos(db.utxos, db.txs, b.txs, b.header.height, l, txs);
      if ok {
        AfterWholeBlock(l, b.txs);
        var utxos := Flush(cache, batch.utxos);
        Flushed(cache, db.utxos, utxos, UtxoItems(txs, UnspentAfter(l.unspent, b.txs)));
        batch := batch.(utxos := utxos);
      }
    }

    method PersistUnspend(b: Block, ghost l: Ledger) returns (ok: bool)
      requires Represents(db, l) && FreshTxs(l, b.txs) && batch.unspent == db.unspent
      modifies this`batch
      ensures batch == old(batch).(unspent := batch.unspent)
      ensures ok ==> Indexes(batch.unspent, UnspentItems(After(l.unspent, b.txs, |b.txs|)))
      ensures Spendable(l.unspent, InputsOf(b.txs)) ==> ok
    {
      ok := true;
      var cache: UnspentIndex := map[];
      ghost var u := l.unspent;
      for n := 0 to |b.txs|
        invariant ok && u == After(l.unspent, b.txs, n) && batch == old(batch)
        invariant Shows(cache, db.unspent, UnspentItems(u))
      {
        NotThereYet(l, b.txs, n);
        EachSpendable(l, b.txs, n);
        ok, cache := PersistTxUnspent(db.unspent, cache, b.txs[n], u);
        if !ok {
          return;
        }
        u := u + Outs(b.txs[n]) - ToSet(SpentBy(b.txs[n]));
      }
      var unspent := Flush(cache, batch.unspent);
      Flushed(cache, db.unspent, unspent, UnspentItems(u));
      batch := batch.(unspent := unspent);
    }

    // ----- The rest of a block -----

    /** Fails only on a recharge whose main chain transaction does not decode. */
    method PersistTransactions(b: Block) returns (ok: bool)
      modifies this`batch
      ensures ok <==> forall r :: r in Recharged(b.txs) ==> r.Some?
      ensures ok ==> batch == old(batch).(
                txs := PutTxs(old(batch).txs, b.txs, b.header.height),
                assets := PutAssets(old(batch).assets, b.txs),
                mainchain := old(batch).mainchain + RechargedSet(b.txs),
                identifications := PutIds(old(batch).identifications, b.txs))
    {
      ok := true;
      for n := 0 to |b.txs|
        invariant ok && batch == old(batch).(
                  txs := PutTxs(old(batch).txs, b.txs[..n], b.header.height),
                  assets := PutAssets(old(batch).assets, b.txs[..n]),
                  mainchain := old(batch).mainchain + RechargedSet(b.txs[..n]),
                  identifications := PutIds(old(batch).identifications, b.txs[..n]))
        invariant forall r :: r in Recharged(b.txs[..n]) ==> r.Some?
      {
        var txn := b.txs[n];
        PrefixOfPrefix(b.txs, n);
        RechargedStep(b.txs, n);
        batch := batch.(txs := batch.txs[txn.hash := TxRecord(txn, b.header.height)]);
        match txn.kind
        case RegisterAsset(asset) =>
          batch := batch.(assets := batch.assets[txn.hash := asset]);
        case RechargeToSideChain(mainchainTx) =>
          if mainchainTx.None? {
            RechargedContains(b.txs, n);
            ok := false;
            return;
          }
          batch := batch.(mainchain := batch.mainchain + {mainchainTx.value});
          assert old(batch).mainchain + RechargedSet(b.txs[..n]) + {mainchainTx.value} == old(batch).mainchain + RechargedSet(b.txs[..n + 1]);
        case RegisterIdentification(keys) =>
          PersistIdentifications(keys, txn.hash);
        case CoinBase =>
        case Transfer =>
      }
      assert b.txs[..|b.txs|] == b.txs;
    }

    method PersistIdentifications(keys: seq<string>, hash: Uint256)
      modifies this`batch
      ensures batch == old(batch).(identifications := PutKeys(old(batch).identifications, keys, hash))
    {
      for k := 0 to |keys|
        invariant batch == old(batch).(identifications := PutKeys(old(batch).identifications, keys[..k], hash))
      {
        PrefixOfPrefix(keys, k);
        batch := batch.(identifications := batch.identifications[keys[k] := hash]);
      }
      assert keys[..|keys|] == keys;
    }

    method RollbackTransactions(b: Block)
      modifies this`batch
      ensures (forall r :: r in Recharged(b.txs) ==> r.Some?) ==>
                && batch.txs == old(batch).txs - HashSet(b.txs)
                && batch.assets == old(batch).assets - AssetHashes(b.txs)
                && batch.mainchain == old(batch).mainchain - RechargedSet(b.txs)
      ensures batch == old(batch).(txs := batch.txs, assets := batch.assets, mainchain := batch.mainchain)
    {
      for n := 0 to |b.txs|
        invariant batch.txs == old(batch).txs - HashSet(b.txs[..n])
        invariant batch.assets == old(batch).assets - AssetHashes(b.txs[..n])
        invariant batch.mainchain == old(batch).mainchain - RechargedSet(b.txs[..n])
        invariant batch == old(batch).(txs := batch.txs, assets := batch.assets, mainchain := batch.mainchain)
      {
        var txn := b.txs[n];
        HashSetStep(b.txs, n);
        AssetHashesStep(b.txs, n);
        RechargedStep(b.txs, n);
        batch := batch.(txs := batch.txs - {txn.hash});
        if txn.kind.RegisterAsset? {
          batch := batch.(assets := batch.assets - {txn.hash});
        }
        if txn.kind.RechargeToSideChain? {
          if txn.kind.mainchainTx.None? {
            return;
          }
          batch := batch.(mainchain := batch.mainchain - {txn.kind.mainchainTx.value});
        }
      }
      assert b.txs[..|b.txs|] == b.txs;
    }

    method RollbackUnspendUTXOs(b: Block, ghost l: Ledger) returns (ok: bool)
      requires ValidNext(l, b) && WellFormed(l) && Represents(db, Apply(l, b)) && batch.utxos == db.utxos
      modifies this`batch
      ensures batch == old(batch).(utxos := batch.utxos)
      ensures ok && Indexes(batch.utxos, UtxoItems(l.txs, l.unspent))
    {
      var cache;
      ok, cache := UncacheUtxos(db.utxos, db.txs, b.txs, b.header.height, l);
      if ok {
        var utxos := Flush(cache, batch.utxos);
        Flushed(cache, db.utxos, utxos, UtxoItems(db.txs, l.unspent));
        AllTxs(l, b.txs, b.header.height);
        UtxoItemsExtend(l.txs, db.txs, l.unspent);
        batch := batch.(utxos := utxos);
      }
    }

    method RollbackUnspend(b: Block, ghost l: Ledger)
      requires ValidNext(l, b) && WellFormed(l) && Represents(db, Apply(l, b)) && batch.unspent == db.unspent
      modifies this`batch
      ensures batch == old(batch).(unspent := batch.unspent)
      ensures Indexes(batch.unspent, UnspentItems(l.unspent))
    {
      var cache := UncacheUnspent(db.unspent, b.txs, l);
      var kept := DeleteOwn(batch.unspent, b.txs);
      OwnDeleted(db.unspent, cache, b.txs, l);
      var unspent := Flush(cache, kept);
      Flushed<Uint256, uint16>(cache, kept, unspent, UnspentItems(l.unspent));
      batch := batch.(unspent := unspent);
    }

    // ----- Whole blocks -----

    /** Writes a new block in one batch, or nothing at all when it spends what is not there. */
    method Persist(b: Block, ghost l: Ledger) returns (ok: bool)
      requires Represents(db, l) && FreshBlock(l, b)
      modifies this`db, this`batch
      ensures ok <==> Spendable(l.unspent, InputsOf(b.txs))
      ensures !ok ==> db == old(db)
      ensures ok ==> Represents(db, Apply(l, b)) && db.identifications == PutIds(old(db).identifications, b.txs)
    {
      batch := db;
      batch := batch.(headers := batch.headers[b.header.hash := TrimmedBlock(b.header, TxHashes(b.txs))]);
      batch := batch.(blockHashes := batch.blockHashes[b.header.height := b.header.hash]);
      ok := PersistTransactions(b);
      assert ok;
      ok := PersistUnspendUTXOs(b, l);
      if !ok {
        return;
      }
      ok := PersistUnspend(b, l);
      if !ok {
        return;
      }
      AfterWholeBlock(l, b.txs);
      batch := batch.(current := Some(Tip(b.header.hash, b.header.height)));
      ApplyWellFormed(l, b);
      db := batch;
    }

    /** Takes the last block back in one batch. */
    method Rollback(b: Block, ghost l: Ledger)
      requires ValidNext(l, b) && WellFormed(l) && l.tip.Some? && Represents(db, Apply(l, b))
      modifies this`db, this`batch, this`currentBlockHeight
      ensures Represents(db, l.(tip := TipBelow(b))) && db.identifications == old(db).identifications
      ensures currentBlockHeight == b.header.height - 1
    {
      UndoneEntries(l, b);
      batch := db;
      batch := batch.(headers := batch.headers - {b.header.hash});
      batch := batch.(blockHashes := batch.blockHashes - {b.header.height});
      RollbackTransactions(b);
      var ok := RollbackUnspendUTXOs(b, l);
      RollbackUnspend(b, l);
      batch := batch.(current := Some(Tip(b.header.previous, b.header.height - 1)));
      db := batch;
      currentBlockHeight := b.header.height - 1;
    }

    // ----- The interface -----

    /** The ledger of the stored blocks, with the block that the store names as the current one.  That
        is not always the last stored block: after a rollback it is the parent, stored or not. */
    ghost function Held(): Ledger
      reads this
    {
      LedgerOf(chain).(tip := db.current)
    }

    /** The store holds the ledger of its chain. */
    ghost predicate Valid()
      reads this
    {
      && chain != []
      && ValidChain(chain)
      && Represents(db, Held())
      && db.current.Some?
      && currentBlockHeight == db.current.value.height >= chain[|chain| - 1].header.height
    }

    /** The current block is the last one that is stored. */
    ghost predicate Level()
      reads this
    {
      chain != [] && db.current == TipAt(chain[|chain| - 1])
    }

    constructor InitWithGenesisBlock(genesis: Block)
      requires ValidNext(EMPTY, genesis)
      ensures Valid() && Level() && chain == [genesis] && db.identifications == PutIds(map[], genesis.txs)
    {
      db, batch, currentBlockHeight, chain := EMPTY_DB, EMPTY_DB, 0, [];
      new;
      hide Represents, Spendable, FreshBlock;
      EmptyStore(genesis);
      var ok := Persist(genesis, EMPTY);
      chain := [genesis];
      currentBlockHeight := genesis.header.height;
    }

    /** A block that is not above the current height is ignored, and so is one that cannot be persisted. */
    method SaveBlock(b: Block)
      requires Valid()
      requires b.header.height > currentBlockHeight ==> FreshBlock(Held(), b)
      modifies this
      ensures Valid()
      ensures chain == if b.header.height > old(currentBlockHeight) && Writable(old(Held()), b) then old(chain) + [b] else old(chain)
      ensures db.current == if chain == old(chain) then old(db.current) else TipAt(b)
      ensures db.identifications == if chain == old(chain) then old(db).identifications
                                    else PutIds(old(db).identifications, b.txs)
    {
      if b.header.height <= currentBlockHeight {
        return;
      }
      ghost var l := Held();
      var ok := Persist(b, l);
      if !ok {
        return;
      }
      chain := chain + [b];
      assert chain[..|chain| - 1] == old(chain);
      TipDoesNotMatter(LedgerOf(old(chain)), l.tip, b);
      currentBlockHeight := b.header.height;
    }

    /** Rolls back the last block; an unknown hash changes nothing. */
    method RollbackBlock(hash: Uint256)
      requires Valid() && |chain| > 1
      requires hash in db.headers ==> hash == chain[|chain| - 1].header.hash && Level()
      modifies this
      ensures Valid()
      ensures chain == if hash in old(db).headers then old(chain)[..|old(chain)| - 1] else old(chain)
      ensures db.current == if hash in old(db).headers then TipBelow(old(chain)[|old(chain)| - 1]) else old(db.current)
      ensures db.identifications == old(db).identifications
    {
      var found := GetBlock(hash);
      ghost var init, last := chain[..|chain| - 1], chain[|chain| - 1];
      ghost var l := LedgerOf(init);
      TipReadsBack(l, last);
      if found.None? {
        return;
      }
      ChainWellFormed(init);
      TipOfChain(init);
      Rollback(found.value, l);
      chain := init;
    }

    /** The hash stored under the current height, if any. */
    method GetCurrentBlockHash() returns (hash: Option<Uint256>)
      requires Valid()
      ensures hash == if currentBlockHeight == chain[|chain| - 1].header.height then Some(chain[|chain| - 1].header.hash) else None
    {
      NoneAbove();
      return if currentBlockHeight in db.blockHashes then Some(db.blockHashes[currentBlockHeight]) else None;
    }

    /** The store has no block above the last one. */
    lemma {:induction false} NoneAbove()
      requires Valid()
      ensures var last := chain[|chain| - 1].header;
        && last.height in db.blockHashes && db.blockHashes[last.height] == last.hash
        && (currentBlockHeight > last.height ==> currentBlockHeight !in db.blockHashes)
    {
      ChainWellFormed(chain);
      TipOfChain(chain);
    }

    /** Reads a block back: the trimmed block and each of its transactions. */
    method GetBlock(hash: Uint256) returns (r: Option<Block>)
      ensures r.Some? <==> hash in db.headers && forall i :: 0 <= i < |db.headers[hash].txHashes| ==> db.headers[hash].txHashes[i] in db.txs
      ensures r.Some? ==> r.value.header == db.headers[hash].header && |r.value.txs| == |db.headers[hash].txHashes|
      ensures r.Some? ==> forall i :: 0 <= i < |r.value.txs| ==> r.value.txs[i] == db.txs[db.headers[hash].txHashes[i]].tx
      ensures Valid() && hash == chain[|chain| - 1].header.hash ==> r == Some(chain[|chain| - 1])
    {
      if Valid() {
        TipInDb();
      }
      hide Valid;
      if hash !in db.headers {
        return None;
      }
      var trimmed := db.headers[hash];
      var txs: seq<Tx> := [];
      for n := 0 to |trimmed.txHashes|
        invariant |txs| == n
        invariant forall i :: 0 <= i < n ==> trimmed.txHashes[i] in db.txs && txs[i] == db.txs[trimmed.txHashes[i]].tx
      {
        if trimmed.txHashes[n] !in db.txs {
          return None;
        }
        txs := txs + [db.txs[trimmed.txHashes[n]].tx];
      }
      r := Some(Block(trimmed.header, txs));
      assert Valid() && hash == chain[|chain| - 1].header.hash ==> txs == chain[|chain| - 1].txs;
    }

    lemma {:induction false} TipInDb()
      requires Valid()
      ensures chain != []
      ensures var b := chain[|chain| - 1];
        && b.header.hash in db.headers && db.headers[b.header.hash] == TrimmedBlock(b.header, TxHashes(b.txs))
        && forall i :: 0 <= i < |b.txs| ==> TxHashes(b.txs)[i] in db.txs && db.txs[TxHashes(b.txs)[i]].tx == b.txs[i]
    {
      hide Indexes, WellFormed, Apply;
      TipReadsBack(LedgerOf(chain[..|chain| - 1]), chain[|chain| - 1]);
    }

    /** Answers from the index by transaction hash whether some input is not an unspent output. */
    method IsDoubleSpend(txn: Tx) returns (double: bool)
      requires Valid()
      ensures double <==> exists i :: 0 <= i < |txn.inputs| && txn.inputs[i].previous !in LedgerOf(chain).unspent
    {
      hide LedgerOf, ValidChain, WellFormed, UtxoItems, UnspentItems;
      for i := 0 to |txn.inputs|
        invariant forall j :: 0 <= j < i ==> txn.inputs[j].previous in LedgerOf(chain).unspent
      {
        var op := txn.inputs[i].previous;
        UnspentItem(LedgerOf(chain).unspent, op);
        assert op in LedgerOf(chain).unspent <==> op.index in Peek(map[], db.unspent, op.txId);
        if op.txId !in db.unspent {
          return true;
        }
        var unspents := db.unspent[op.txId];
        var k := 0;
        while k < |unspents| && unspents[k] != op.index
          invariant k <= |unspents| && op.index !in unspents[..k]
        {
          k := k + 1;
        }
        if k == |unspents| {
          assert unspents[..k] == unspents;
          return true;
        }
      }
      return false;
    }
  }

  ghost function TipAt(b: Block): Option<Tip> {
    Some(Tip(b.header.hash, b.header.height))
  }

  ghost function TipBelow(b: Block): Option<Tip> {
    Some(Tip(b.header.previous, b.header.height - 1))
  }

  /** A block replaces the tip of a ledger, whatever it was. */
  lemma {:induction false} TipDoesNotMatter(l: Ledger, tip: Option<Tip>, b: Block)
    ensures Apply(l.(tip := tip), b) == Apply(l, b)
    ensures FreshTxs(l.(tip := tip), b.txs) == FreshTxs(l, b.txs) && FreshRecharges(l.(tip := tip), b.txs) == FreshRecharges(l, b.txs)
    ensures Writable(l.(tip := tip), b) == Writable(l, b)
  {
  }

  lemma {:induction false} TipOfChain(chain: seq<Block>)
    ensures LedgerOf(chain).tip == if chain == [] then None else Some(Tip(chain[|chain| - 1].header.hash, chain[|chain| - 1].header.height))
  {
  }

  lemma {:induction false} TipReadsBack(l: Ledger, b: Block)
    requires FreshTxs(l, b.txs)
    ensures b.header.hash in Apply(l, b).headers
    ensures Apply(l, b).headers[b.header.hash] == TrimmedBlock(b.header, TxHashes(b.txs))
    ensures forall i :: 0 <= i < |b.txs| ==> TxHashes(b.txs)[i] in Apply(l, b).txs && Apply(l, b).txs[TxHashes(b.txs)[i]].tx == b.txs[i]
  {
    PutTxsKeys(l.txs, b.txs, b.header.height);
    forall i | 0 <= i < |b.txs| ensures TxHashes(b.txs)[i] in Apply(l, b).txs && Apply(l, b).txs[TxHashes(b.txs)[i]].tx == b.txs[i] {
      assert TxHashes(b.txs)[i] == b.txs[i].hash;
    }
  }

  lemma {:induction false} EmptyStore(genesis: Block)
    requires ValidNext(EMPTY, genesis)
    ensures Represents(EMPTY_DB, EMPTY) && FreshBlock(EMPTY, genesis)
    ensures LedgerOf([genesis]) == Apply(EMPTY, genesis) && ValidChain([genesis])
  {
    assert UnspentItems({}) == {} && UtxoItems(map[], {}) == {};
    assert [genesis][..0] == [] && LedgerOf([]) == EMPTY && ValidChain([]);
  }

  lemma {:induction false} UndoneEntries(l: Ledger, b: Block)
    requires ValidNext(l, b) && WellFormed(l) && l.tip.Some?
    ensures Apply(l, b).headers - {b.header.hash} == l.headers
    ensures Apply(l, b).blockHashes - {b.header.height} == l.blockHashes
    ensures Apply(l, b).txs - HashSet(b.txs) == l.txs
    ensures Apply(l, b).assets - AssetHashes(b.txs) == l.assets
    ensures Apply(l, b).mainchain - RechargedSet(b.txs) == l.mainchain
  {
    hide WellFormed, Spendable;
    var l' := Apply(l, b);
    assert l'.headers - {b.header.hash} == l.headers;
    HeightIsNew(l, b);
    assert l'.blockHashes - {b.header.height} == l.blockHashes;
    PutTxsKeys(l.txs, b.txs, b.header.height);
    assert l.txs.Keys !! HashSet(b.txs);
    assert l'.txs - HashSet(b.txs) == l.txs;
    PutAssetsUndone(l, b.txs);
    assert l.mainchain !! RechargedSet(b.txs);
  }

  lemma {:induction false} HeightIsNew(l: Ledger, b: Block)
    requires WellFormed(l) && OnTop(l, b) && l.tip.Some?
    ensures b.header.height !in l.blockHashes
  {
  }

  lemma {:induction false} PutAssetsUndone(l: Ledger, txs: seq<Tx>)
    requires WellFormed(l) && (forall i :: 0 <= i < |txs| ==> txs[i].hash !in l.txs)
    ensures PutAssets(l.assets, txs) - AssetHashes(txs) == l.assets
    ensures PutAssets(l.assets, txs).Keys == l.assets.Keys + AssetHashes(txs)
  {
    if txs != [] {
      var last := |txs| - 1;
      PutAssetsUndone(l, txs[..last]);
      AssetHashesStep(txs, last);
      assert txs[..last + 1] == txs;
    }
  }

  ghost function AssetHashes(txs: seq<Tx>): set<Uint256> {
    set i | 0 <= i < |txs| && txs[i].kind.RegisterAsset? :: txs[i].hash
  }

  lemma {:induction false} AssetHashesStep(txs: seq<Tx>, n: nat)
    requires n < |txs|
    ensures AssetHashes(txs[..n + 1]) == AssetHashes(txs[..n]) + if txs[n].kind.RegisterAsset? then {txs[n].hash} else {}
  {
  }
}
