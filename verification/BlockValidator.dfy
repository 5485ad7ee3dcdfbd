/** The checks that a block passes before it is written to the store, and why they are enough for
    the store to accept it. */
module BlockValidator {
  import opened Core
  import opened Ledgers
  import opened ListIndex
  import opened ChainStores

  // ----- Duplicates within a block -----

  /** The inputs of all transactions, whether or not they spend anything. */
  ghost function AllInputs(txs: seq<Tx>): seq<OutPoint> {
    if txs == [] then [] else AllInputs(txs[..|txs| - 1]) + InputsOfTx(txs[|txs| - 1])
  }

  ghost predicate NoDuplicates(txs: seq<Tx>) {
    && NoDup(TxHashes(txs))
    && NoDup(AllInputs(txs))
    && NoDup(Recharged(txs))
    && forall r :: r in Recharged(txs) ==> r.Some?
  }

  lemma {:induction false} NoDupAppend<T>(s: seq<T>, x: T)
    ensures NoDup(s + [x]) <==> NoDup(s) && x !in s
  {
    if NoDup(s + [x]) {
      forall i, j | 0 <= i < j < |s| ensures s[i] != s[j] {
        assert (s + [x])[i] != (s + [x])[j];
      }
      forall i | 0 <= i < |s| ensures s[i] != x {
        assert (s + [x])[i] != (s + [x])[|s|];
      }
    }
  }

  /** A list with a repetition stays one when it grows. */
  lemma {:induction false} DupStays<T>(s: seq<T>, t: seq<T>)
    requires !NoDup(s)
    ensures !NoDup(s + t)
  {
    var i, j :| 0 <= i < j < |s| && s[i] == s[j];
    assert (s + t)[i] == (s + t)[j];
  }

  method CheckInputs(tx: Tx, existing: set<OutPoint>, ghost before: seq<OutPoint>) returns (ok: bool, existing': set<OutPoint>)
    requires existing == ToSet(before) && NoDup(before)
    ensures ok <==> NoDup(before + InputsOfTx(tx))
    ensures ok ==> existing' == ToSet(before + InputsOfTx(tx))
  {
    ok, existing' := true, existing;
    ghost var ins := InputsOfTx(tx);
    assert before + ins[..0] == before;
    for i := 0 to |tx.inputs|
      invariant ok && existing' == ToSet(before + ins[..i]) && NoDup(before + ins[..i])
    {
      var op := tx.inputs[i].previous;
      assert before + ins[..i + 1] == before + ins[..i] + [op];
      NoDupAppend(before + ins[..i], op);
      if op in existing' {
        DupStays(before + ins[..i + 1], ins[i + 1..]);
        assert before + ins[..i + 1] + ins[i + 1..] == before + ins;
        ok := false;
        return;
      }
      existing' := existing' + {op};
    }
    assert ins[..|ins|] == ins;
  }

  /** The duplicate loop of the block sanity check: transactions, inputs and main chain transactions. */
  method CheckDuplicates(txs: seq<Tx>) returns (ok: bool)
    ensures ok <==> NoDuplicates(txs)
  {
    var existingTxIds: set<Uint256> := {};
    var existingTxInputs: set<OutPoint> := {};
    var existingMainTxs: set<Uint256> := {};
    for n := 0 to |txs|
      invariant NoDuplicates(txs[..n])
      invariant existingTxIds == ToSet(TxHashes(txs[..n]))
      invariant existingTxInputs == ToSet(AllInputs(txs[..n]))
      invariant existingMainTxs == RechargedSet(txs[..n])
    {
      var txn := txs[n];
      DuplicatesStep(txs, n);
      if txn.hash in existingTxIds {
        DuplicatesStay(txs, n + 1);
        return false;
      }
      existingTxIds := existingTxIds + {txn.hash};
      var inputsOk;
      inputsOk, existingTxInputs := CheckInputs(txn, existingTxInputs, AllInputs(txs[..n]));
      if !inputsOk {
        DuplicatesStay(txs, n + 1);
        return false;
      }
      if txn.kind.RechargeToSideChain? {
        if txn.kind.mainchainTx.None? || txn.kind.mainchainTx.value in existingMainTxs {
          DuplicatesStay(txs, n + 1);
          return false;
        }
        existingMainTxs := existingMainTxs + {txn.kind.mainchainTx.value};
      }
    }
    assert txs[..|txs|] == txs;
    return true;
  }

  lemma {:induction false} DuplicatesStep(txs: seq<Tx>, n: nat)
    requires n < |txs| && NoDuplicates(txs[..n])
    ensures TxHashes(txs[..n + 1]) == TxHashes(txs[..n]) + [txs[n].hash]
    ensures AllInputs(txs[..n + 1]) == AllInputs(txs[..n]) + InputsOfTx(txs[n])
    ensures RechargedSet(txs[..n + 1]) == RechargedSet(txs[..n]) +
              if txs[n].kind.RechargeToSideChain? && txs[n].kind.mainchainTx.Some? then {txs[n].kind.mainchainTx.value} else {}
    ensures NoDuplicates(txs[..n + 1]) <==>
              && txs[n].hash !in TxHashes(txs[..n])
              && NoDup(AllInputs(txs[..n]) + InputsOfTx(txs[n]))
              && (txs[n].kind.RechargeToSideChain? ==> txs[n].kind.mainchainTx.Some? && txs[n].kind.mainchainTx.value !in RechargedSet(txs[..n]))
  {
    PrefixOfPrefix(txs, n);
    RechargedStep(txs, n);
    NoDupAppend(TxHashes(txs[..n]), txs[n].hash);
    NoDupAppend(Recharged(txs[..n]), if txs[n].kind.RechargeToSideChain? then txs[n].kind.mainchainTx else None);
  }

  lemma {:induction false} DuplicatesStay(txs: seq<Tx>, n: nat)
    requires n <= |txs| && !NoDuplicates(txs[..n])
    ensures !NoDuplicates(txs)
    decreases |txs| - n
  {
    if n == |txs| {
      assert txs[..n] == txs;
    } else {
      if NoDuplicates(txs[..n + 1]) {
        NoDuplicatesPrefix(txs, n);
      }
      DuplicatesStay(txs, n + 1);
    }
  }

  lemma {:induction false} NoDuplicatesPrefix(txs: seq<Tx>, n: nat)
    requires n < |txs| && NoDuplicates(txs[..n + 1])
    ensures NoDuplicates(txs[..n])
  {
    PrefixOfPrefix(txs, n);
    RechargedStep(txs, n);
    var a, b, c := TxHashes(txs[..n]), AllInputs(txs[..n]), Recharged(txs[..n]);
    assert TxHashes(txs[..n + 1]) == a + [txs[n].hash];
    if !NoDup(a) {
      DupStays(a, [txs[n].hash]);
    }
    if !NoDup(b) {
      DupStays(b, InputsOfTx(txs[n]));
    }
    if !NoDup(c) {
      DupStays(c, if txs[n].kind.RechargeToSideChain? then [txs[n].kind.mainchainTx] else []);
    }
  }

  // ----- What the checks establish -----

  /** A block that passed the duplicate loop, with outputs that 16 bits can number.  No check of the
      source enforces the latter. */
  ghost predicate Sane(txs: seq<Tx>) {
    && NoDuplicates(txs)
    && (forall i :: 0 <= i < |txs| ==> |txs[i].outputs| <= 0x1_0000)
  }

  /** What the context check of one transaction says about the ledger. */
  ghost predicate TxOk(l: Ledger, tx: Tx) {
    && tx.hash !in l.txs
    && (tx.kind.RechargeToSideChain? ==> tx.kind.mainchainTx.Some? && tx.kind.mainchainTx.value !in l.mainchain)
    && (!tx.kind.CoinBase? && !tx.kind.RechargeToSideChain? ==>
          forall i :: 0 <= i < |tx.inputs| ==> tx.inputs[i].previous in l.unspent)
  }

  lemma {:induction false} NoDupConcat<T>(a: seq<T>, b: seq<T>, c: seq<T>, d: seq<T>)
    requires NoDup(a + b) && NoDup(c) && (forall x :: x in c ==> x in a) && (d == [] || d == b)
    ensures NoDup(c + d)
  {
    forall i, j | 0 <= i < j < |c + d| ensures (c + d)[i] != (c + d)[j] {
      if j >= |c| {
        assert (a + b)[|a| + j - |c|] == (c + d)[j];
        if i >= |c| {
          assert (a + b)[|a| + i - |c|] == (c + d)[i];
        } else {
          assert c[i] in a;
          var k :| 0 <= k < |a| && a[k] == c[i];
          assert (a + b)[k] == c[i];
        }
      }
    }
  }

  lemma {:induction false} SpentAreInputs(txs: seq<Tx>, n: nat)
    requires n <= |txs| && NoDup(AllInputs(txs[..n]))
    ensures NoDup(InputsOf(txs[..n]))
    ensures forall op :: op in InputsOf(txs[..n]) ==> op in AllInputs(txs[..n])
  {
    if n > 0 {
      PrefixOfPrefix(txs, n - 1);
      OneMore(txs, n - 1);
      var a, b := AllInputs(txs[..n - 1]), InputsOfTx(txs[n - 1]);
      assert AllInputs(txs[..n]) == a + b;
      if !NoDup(a) {
        DupStays(a, b);
      }
      SpentAreInputs(txs, n - 1);
      NoDupConcat(a, b, InputsOf(txs[..n - 1]), SpentBy(txs[n - 1]));
    }
  }

  lemma {:induction false} InputsFrom(txs: seq<Tx>, op: OutPoint)
    requires op in InputsOf(txs)
    ensures exists i :: 0 <= i < |txs| && op in SpentBy(txs[i])
  {
    if op in SpentBy(txs[0]) {
    } else {
      InputsFrom(txs[1..], op);
      var i :| 0 <= i < |txs[1..]| && op in SpentBy(txs[1..][i]);
      assert txs[1..][i] == txs[i + 1];
    }
  }

  /** The inputs of recharges, which no context check looks at, are unspent too. */
  ghost predicate RechargesSpendUnspent(l: Ledger, txs: seq<Tx>) {
    forall i, k :: 0 <= i < |txs| && txs[i].kind.RechargeToSideChain? && 0 <= k < |txs[i].inputs|
      ==> txs[i].inputs[k].previous in l.unspent
  }

  lemma {:induction false} SpentFrom(txs: seq<Tx>, i: nat, op: OutPoint)
    requires i < |txs| && op in SpentBy(txs[i])
    ensures op in InputsOf(txs)
  {
    if i > 0 {
      SpentFrom(txs[1..], i - 1, op);
    }
  }

  lemma {:induction false} SpendsUnspent(l: Ledger, txs: seq<Tx>)
    requires NoDuplicates(txs) && forall i :: 0 <= i < |txs| ==> TxOk(l, txs[i])
    ensures Spendable(l.unspent, InputsOf(txs)) <==> RechargesSpendUnspent(l, txs)
  {
    assert txs[..|txs|] == txs;
    SpentAreInputs(txs, |txs|);
    SpendableMeans(l.unspent, InputsOf(txs));
    if RechargesSpendUnspent(l, txs) {
      forall op | op in InputsOf(txs) ensures op in l.unspent {
        InputsFrom(txs, op);
        var i :| 0 <= i < |txs| && op in SpentBy(txs[i]);
        var k :| 0 <= k < |SpentBy(txs[i])| && SpentBy(txs[i])[k] == op;
        assert TxOk(l, txs[i]);
      }
    }
    if Spendable(l.unspent, InputsOf(txs)) {
      forall i, k | 0 <= i < |txs| && txs[i].kind.RechargeToSideChain? && 0 <= k < |txs[i].inputs|
        ensures txs[i].inputs[k].previous in l.unspent
      {
        var op := txs[i].inputs[k].previous;
        assert SpentBy(txs[i])[k] == op;
        SpentFrom(txs, i, op);
        assert op in ToSet(InputsOf(txs));
      }
    }
  }

  lemma {:induction false} RechargesFresh(l: Ledger, txs: seq<Tx>, n: nat)
    requires n <= |txs| && forall i :: 0 <= i < |txs| ==> TxOk(l, txs[i])
    ensures forall r :: r in Recharged(txs[..n]) ==> r.Some? && r.value !in l.mainchain
  {
    if n > 0 {
      RechargesFresh(l, txs, n - 1);
      RechargedStep(txs, n - 1);
      assert TxOk(l, txs[n - 1]);
    }
  }

  /** Every transaction of the block passes the checks against the ledger that are modelled. */
  ghost predicate AllOk(l: Ledger, txs: seq<Tx>) {
    forall i :: 0 <= i < |txs| ==> TxOk(l, txs[i])
  }

  /** A block that passes the checks is new to the ledger; the store can write it exactly when its
      recharges spend only unspent outputs. */
  lemma {:induction false} ChecksSuffice(l: Ledger, b: Block)
    requires Sane(b.txs) && AllOk(l, b.txs)
    ensures FreshTxs(l, b.txs) && FreshRecharges(l, b.txs)
    ensures Writable(l, b) <==> RechargesSpendUnspent(l, b.txs)
  {
    hide Spendable, InputsOf;
    SpendsUnspent(l, b.txs);
    RechargesFresh(l, b.txs, |b.txs|);
    assert b.txs[..|b.txs|] == b.txs;
    forall i | 0 <= i < |b.txs| ensures b.txs[i].hash !in l.txs {
      assert TxOk(l, b.txs[i]);
    }
  }

  /** Checks that are not modelled: signatures, balances, output locks, coinbase maturity, proofs of
      main chain transactions.  They look at the stored transactions and at the current height. */
  type OtherChecks = (map<Uint256, TxRecord>, int, Tx) -> bool

  function HeightOf(tip: Option<Tip>): int {
    if tip.Some? then tip.value.height else 0
  }

  ghost predicate TxPasses(others: OtherChecks, l: Ledger, tx: Tx) {
    TxOk(l, tx) && (tx.kind.CoinBase? || others(l.txs, HeightOf(l.tip), tx))
  }

  ghost predicate Passes(others: OtherChecks, l: Ledger, b: Block) {
    forall i :: 0 <= i < |b.txs| ==> TxPasses(others, l, b.txs[i])
  }

  method CheckTransactionContext(store: ChainStore, tx: Tx, others: OtherChecks) returns (ok: bool)
    requires store.Valid()
    ensures ok <==> TxPasses(others, store.Held(), tx)
  {
    hide WellFormed, Indexes, LedgerOf, ValidChain;
    if tx.hash in store.db.txs {
      return false;
    }
    if tx.kind.CoinBase? {
      return true;
    }
    if !others(store.db.txs, store.currentBlockHeight, tx) {
      return false;
    }
    if tx.kind.RechargeToSideChain? {
      return tx.kind.mainchainTx.Some? && tx.kind.mainchainTx.value !in store.db.mainchain;
    }
    var double := store.IsDoubleSpend(tx);
    return !double;
  }
}
