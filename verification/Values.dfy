/** Fees, the reward rule, and conservation of value across a block.  Amounts are mathematical
    integers; the fee of a recharge, which the source computes in floating point, is a parameter. */
module Values {
  import opened Core
  import opened Ledgers
  import opened ListIndex
  import opened Utxos
  import opened ChainStores

  // ----- Sums -----

  function SumOutputs(outputs: seq<Output>, asset: Uint256): int {
    if outputs == [] then 0
    else
      var last := |outputs| - 1;
      SumOutputs(outputs[..last], asset) + if outputs[last].assetId == asset then outputs[last].value else 0
  }

  ghost function ValueOf(txs: map<Uint256, TxRecord>, asset: Uint256, op: OutPoint): int {
    if InRange(txs, op) && OutputAt(txs, op).assetId == asset then OutputAt(txs, op).value else 0
  }

  /** The value of a list of outpoints. */
  ghost function SumOps(txs: map<Uint256, TxRecord>, asset: Uint256, ops: seq<OutPoint>): int {
    if ops == [] then 0 else ValueOf(txs, asset, ops[0]) + SumOps(txs, asset, ops[1..])
  }

  /** The value of a set of outpoints. */
  ghost function Total(txs: map<Uint256, TxRecord>, asset: Uint256, u: set<OutPoint>): int {
    if u == {} then 0 else var op :| op in u; ValueOf(txs, asset, op) + Total(txs, asset, u - {op})
  }

  lemma {:induction false} TotalRemove(txs: map<Uint256, TxRecord>, asset: Uint256, u: set<OutPoint>, op: OutPoint)
    requires op in u
    ensures Total(txs, asset, u) == ValueOf(txs, asset, op) + Total(txs, asset, u - {op})
    decreases |u|
  {
    var p :| p in u && Total(txs, asset, u) == ValueOf(txs, asset, p) + Total(txs, asset, u - {p});
    if p != op {
      TotalRemove(txs, asset, u - {p}, op);
      TotalRemove(txs, asset, u - {op}, p);
      assert u - {p} - {op} == u - {op} - {p};
    }
  }

  lemma {:induction false} TotalUnion(txs: map<Uint256, TxRecord>, asset: Uint256, u: set<OutPoint>, v: set<OutPoint>)
    requires u !! v
    ensures Total(txs, asset, u + v) == Total(txs, asset, u) + Total(txs, asset, v)
    decreases |v|
  {
    if v == {} {
      assert u + v == u;
    } else {
      var op :| op in v;
      TotalUnion(txs, asset, u, v - {op});
      TotalRemove(txs, asset, u + v, op);
      TotalRemove(txs, asset, v, op);
      assert u + v - {op} == u + (v - {op});
    }
  }

  lemma {:induction false} HeadRemoved<T>(s: seq<T>)
    requires s != [] && NoDup(s)
    ensures NoDup(s[1..]) && ToSet(s) - {s[0]} == ToSet(s[1..])
  {
  }

  lemma {:induction false} TotalOfList(txs: map<Uint256, TxRecord>, asset: Uint256, ops: seq<OutPoint>)
    requires NoDup(ops)
    ensures Total(txs, asset, ToSet(ops)) == SumOps(txs, asset, ops)
  {
    if ops != [] {
      HeadRemoved(ops);
      TotalOfList(txs, asset, ops[1..]);
      TotalRemove(txs, asset, ToSet(ops), ops[0]);
    } else {
      assert ToSet(ops) == {};
    }
  }

  lemma {:induction false} TotalOfOuts(txs: map<Uint256, TxRecord>, asset: Uint256, tx: Tx, n: nat)
    requires MovesValue(tx) && n <= |tx.outputs| <= 0x1_0000
    requires tx.hash in txs && txs[tx.hash].tx == tx
    ensures Total(txs, asset, OutsUpTo(tx, n)) == SumOutputs(tx.outputs[..n], asset)
  {
    if n == 0 {
      assert OutsUpTo(tx, 0) == {};
    } else {
      TotalOfOuts(txs, asset, tx, n - 1);
      var op := OutPoint(tx.hash, n - 1);
      assert OutsUpTo(tx, n) - {op} == OutsUpTo(tx, n - 1);
      TotalRemove(txs, asset, OutsUpTo(tx, n), op);
      assert tx.outputs[..n][..n - 1] == tx.outputs[..n - 1];
    }
  }

  lemma {:induction false} TotalExtend(txs: map<Uint256, TxRecord>, txs': map<Uint256, TxRecord>, asset: Uint256, u: set<OutPoint>)
    requires forall op :: op in u ==> InRange(txs, op)
    requires forall h :: h in txs ==> h in txs' && txs'[h] == txs[h]
    ensures Total(txs', asset, u) == Total(txs, asset, u)
    decreases |u|
  {
    if u != {} {
      var op :| op in u;
      TotalRemove(txs, asset, u, op);
      TotalRemove(txs', asset, u, op);
      TotalExtend(txs, txs', asset, u - {op});
    }
  }

  lemma {:induction false} SumOpsExtend(txs: map<Uint256, TxRecord>, txs': map<Uint256, TxRecord>, asset: Uint256, ops: seq<OutPoint>)
    requires forall op :: op in ops ==> InRange(txs, op)
    requires forall h :: h in txs ==> h in txs' && txs'[h] == txs[h]
    ensures SumOps(txs', asset, ops) == SumOps(txs, asset, ops)
  {
    if ops != [] {
      SumOpsExtend(txs, txs', asset, ops[1..]);
      assert InRange(txs, ops[0]);
      assert ValueOf(txs', asset, ops[0]) == ValueOf(txs, asset, ops[0]);
    }
  }

  // ----- What one block changes -----

  /** Outputs created less outputs spent, over some transactions. */
  ghost function Created(tx: Tx, asset: Uint256): int {
    if MovesValue(tx) then SumOutputs(tx.outputs, asset) else 0
  }

  ghost function NetOf(txs: map<Uint256, TxRecord>, asset: Uint256, list: seq<Tx>): int {
    if list == [] then 0
    else
      var last := |list| - 1;
      NetOf(txs, asset, list[..last]) + Created(list[last], asset) - SumOps(txs, asset, SpentBy(list[last]))
  }

  lemma {:induction false} TotalAfterTx(l: Ledger, b: Block, asset: Uint256, n: nat)
    requires WellFormed(l) && FreshTxs(l, b.txs) && Spendable(l.unspent, InputsOf(b.txs)) && n < |b.txs|
    ensures var txs := PutTxs(l.txs, b.txs, b.header.height);
            Total(txs, asset, After(l.unspent, b.txs, n + 1))
            == Total(txs, asset, After(l.unspent, b.txs, n)) + Created(b.txs[n], asset) - SumOps(txs, asset, SpentBy(b.txs[n]))
  {
    hide WellFormed, FreshTxs, SpentBy, Spendable;
    var txs := PutTxs(l.txs, b.txs, b.header.height);
    var u, tx := After(l.unspent, b.txs, n), b.txs[n];
    var o, p := Outs(tx), ToSet(SpentBy(tx));
    BlockTx(l, b, n);
    TotalUnion(txs, asset, u, o);
    if MovesValue(tx) {
      TotalOfOuts(txs, asset, tx, |tx.outputs|);
      assert tx.outputs[..|tx.outputs|] == tx.outputs;
    } else {
      assert o == {};
    }
    TotalOfList(txs, asset, SpentBy(tx));
    assert u + o == (u + o - p) + p;
    TotalUnion(txs, asset, u + o - p, p);
  }

  lemma {:induction false} BlockTx(l: Ledger, b: Block, n: nat)
    requires WellFormed(l) && FreshTxs(l, b.txs) && Spendable(l.unspent, InputsOf(b.txs)) && n < |b.txs|
    ensures var txs := PutTxs(l.txs, b.txs, b.header.height);
            b.txs[n].hash in txs && txs[b.txs[n].hash].tx == b.txs[n] && |b.txs[n].outputs| <= 0x1_0000
    ensures After(l.unspent, b.txs, n) !! Outs(b.txs[n])
    ensures NoDup(SpentBy(b.txs[n])) && ToSet(SpentBy(b.txs[n])) <= After(l.unspent, b.txs, n) + Outs(b.txs[n])
  {
    AllTxs(l, b.txs, b.header.height);
    NotThereYet(l, b.txs, n);
    EachSpendable(l, b.txs, n);
    SpendableMeans(After(l.unspent, b.txs, n) + Outs(b.txs[n]), SpentBy(b.txs[n]));
  }

  lemma {:induction false} TotalBefore(l: Ledger, b: Block, asset: Uint256)
    requires WellFormed(l) && FreshTxs(l, b.txs)
    ensures Total(PutTxs(l.txs, b.txs, b.header.height), asset, l.unspent) == Total(l.txs, asset, l.unspent)
  {
    AllTxs(l, b.txs, b.header.height);
    TotalExtend(l.txs, PutTxs(l.txs, b.txs, b.header.height), asset, l.unspent);
  }

  lemma {:induction false} TotalAfter(l: Ledger, b: Block, asset: Uint256, n: nat)
    requires WellFormed(l) && FreshTxs(l, b.txs) && Spendable(l.unspent, InputsOf(b.txs)) && n <= |b.txs|
    ensures var txs := PutTxs(l.txs, b.txs, b.header.height);
            Total(txs, asset, After(l.unspent, b.txs, n)) == Total(l.txs, asset, l.unspent) + NetOf(txs, asset, b.txs[..n])
  {
    hide WellFormed, FreshTxs, Spendable, SpentBy, InputsOf, PutTxs, Total;
    if n == 0 {
      TotalBefore(l, b, asset);
    } else {
      TotalAfter(l, b, asset, n - 1);
      TotalAfterTx(l, b, asset, n - 1);
      PrefixOfPrefix(b.txs, n - 1);
    }
  }

  // ----- Fees -----

  /** The fees of a recharge, by asset; `None` when its payload does not decode. */
  type RechargeFees = Tx -> Option<map<Uint256, int>>

  /** The outputs that are looked up for the fee; those of an asset registration are not. */
  ghost function Referenced(tx: Tx): seq<OutPoint> {
    if tx.kind.RegisterAsset? then [] else InputsOfTx(tx)
  }

  /** The outputs that the inputs of a transaction refer to. */
  method GetTxReference(txs: map<Uint256, TxRecord>, tx: Tx) returns (reference: Option<seq<Output>>)
    ensures tx.kind.RegisterAsset? ==> reference == Some([])
    ensures !tx.kind.RegisterAsset? ==>
      && (reference.Some? <==> forall i :: 0 <= i < |tx.inputs| ==> InRange(txs, tx.inputs[i].previous))
      && (reference.Some? ==> |reference.value| == |tx.inputs|)
      && (reference.Some? ==> forall i :: 0 <= i < |tx.inputs| ==> reference.value[i] == OutputAt(txs, tx.inputs[i].previous))
  {
    if tx.kind.RegisterAsset? {
      return Some([]);
    }
    var outputs: seq<Output> := [];
    for j := 0 to |tx.inputs|
      invariant |outputs| == j
      invariant forall i :: 0 <= i < j ==> InRange(txs, tx.inputs[i].previous) && outputs[i] == OutputAt(txs, tx.inputs[i].previous)
    {
      var op := tx.inputs[j].previous;
      if op.txId !in txs || op.index >= |txs[op.txId].tx.outputs| {
        return None;
      }
      outputs := outputs + [txs[op.txId].tx.outputs[op.index]];
    }
    return Some(outputs);
  }

  function Lookup(m: map<Uint256, int>, k: Uint256): int {
    if k in m then m[k] else 0
  }

  /** The sum of some outputs, by asset: every asset that occurs has an entry. */
  method SumByAsset(outputs: seq<Output>) returns (sums: map<Uint256, int>)
    ensures forall a :: Lookup(sums, a) == SumOutputs(outputs, a)
    ensures forall a :: a in sums <==> exists i :: 0 <= i < |outputs| && outputs[i].assetId == a
  {
    sums := map[];
    for n := 0 to |outputs|
      invariant forall a :: Lookup(sums, a) == SumOutputs(outputs[..n], a)
      invariant forall a :: a in sums <==> exists i :: 0 <= i < n && outputs[i].assetId == a
    {
      var v := outputs[n];
      assert outputs[..n + 1][..n] == outputs[..n];
      sums := sums[v.assetId := if v.assetId in sums then sums[v.assetId] + v.value else v.value];
    }
    assert outputs[..|outputs|] == outputs;
  }

  /** Inputs less outputs, over the assets of the outputs. */
  method OutputSide(inputs: map<Uint256, int>, outputs: map<Uint256, int>) returns (fees: map<Uint256, int>)
    ensures fees.Keys == outputs.Keys
    ensures forall a :: a in fees ==> fees[a] == Lookup(inputs, a) - Lookup(outputs, a)
  {
    fees := map[];
    var todo := outputs.Keys;
    while todo != {}
      invariant todo <= outputs.Keys && fees.Keys == outputs.Keys - todo
      invariant forall a :: a in fees ==> fees[a] == Lookup(inputs, a) - Lookup(outputs, a)
      decreases |todo|
    {
      var a :| a in todo;
      fees := fees[a := if a in inputs then inputs[a] - outputs[a] else Lookup(fees, a) - outputs[a]];
      todo := todo - {a};
    }
  }

  /** Inputs less outputs by asset, over the assets that occur on either side. */
  method Balance(inputs: map<Uint256, int>, outputs: map<Uint256, int>) returns (fees: map<Uint256, int>)
    ensures forall a :: Lookup(fees, a) == Lookup(inputs, a) - Lookup(outputs, a)
    ensures forall a :: a in fees <==> a in outputs || a in inputs
  {
    fees := OutputSide(inputs, outputs);
    var todo := inputs.Keys;
    while todo != {}
      invariant todo <= inputs.Keys
      invariant forall a :: a in fees <==> a in outputs || (a in inputs && a !in todo)
      invariant forall a :: a in fees ==> fees[a] == Lookup(inputs, a) - Lookup(outputs, a)
      decreases |todo|
    {
      var a :| a in todo;
      if a !in fees {
        fees := fees[a := Lookup(fees, a) + inputs[a]];
      }
      todo := todo - {a};
    }
  }

  method GetTxFeeMap(txs: map<Uint256, TxRecord>, tx: Tx, recharge: RechargeFees) returns (fees: Option<map<Uint256, int>>)
    ensures tx.kind.RechargeToSideChain? ==> fees == recharge(tx)
    ensures !tx.kind.RechargeToSideChain? ==> (fees.Some? <==> forall op :: op in Referenced(tx) ==> InRange(txs, op))
    ensures fees.Some? && !tx.kind.RechargeToSideChain? ==>
              forall a :: Lookup(fees.value, a) == SumOps(txs, a, Referenced(tx)) - SumOutputs(tx.outputs, a)
  {
    if tx.kind.RechargeToSideChain? {
      return recharge(tx);
    }
    var reference := GetTxReference(txs, tx);
    if !tx.kind.RegisterAsset? {
      assert forall i :: 0 <= i < |tx.inputs| ==> Referenced(tx)[i] == tx.inputs[i].previous;
    }
    if reference.None? {
      return None;
    }
    var inputs := SumByAsset(reference.value);
    var outputs := SumByAsset(tx.outputs);
    var balance := Balance(inputs, outputs);
    forall a ensures SumOutputs(reference.value, a) == SumOps(txs, a, Referenced(tx)) {
      ReferenceSum(txs, a, Referenced(tx), reference.value);
    }
    return Some(balance);
  }

  lemma {:induction false} ReferenceSum(txs: map<Uint256, TxRecord>, asset: Uint256, ops: seq<OutPoint>, outputs: seq<Output>)
    requires |ops| == |outputs| && forall i :: 0 <= i < |ops| ==> InRange(txs, ops[i]) && outputs[i] == OutputAt(txs, ops[i])
    ensures SumOutputs(outputs, asset) == SumOps(txs, asset, ops)
  {
    if ops != [] {
      var last := |ops| - 1;
      ReferenceSum(txs, asset, ops[..last], outputs[..last]);
      SumOpsLast(txs, asset, ops);
    }
  }

  lemma {:induction false} SumOpsLast(txs: map<Uint256, TxRecord>, asset: Uint256, ops: seq<OutPoint>)
    requires ops != []
    ensures SumOps(txs, asset, ops) == SumOps(txs, asset, ops[..|ops| - 1]) + ValueOf(txs, asset, ops[|ops| - 1])
  {
    if |ops| > 1 {
      SumOpsLast(txs, asset, ops[1..]);
      assert ops[1..][..|ops| - 2] == ops[..|ops| - 1][1..];
    }
  }

  /** The fee of a transaction in one asset: inputs less outputs; zero when the inputs cannot be resolved. */
  ghost function Fee(txs: map<Uint256, TxRecord>, tx: Tx, asset: Uint256, recharge: RechargeFees): int {
    if tx.kind.RechargeToSideChain? then
      var fees := recharge(tx);
      if fees.Some? then Lookup(fees.value, asset) else 0
    else if forall op :: op in Referenced(tx) ==> InRange(txs, op) then
      SumOps(txs, asset, Referenced(tx)) - SumOutputs(tx.outputs, asset)
    else 0
  }

  method GetTxFee(txs: map<Uint256, TxRecord>, tx: Tx, asset: Uint256, recharge: RechargeFees) returns (fee: int)
    ensures fee == Fee(txs, tx, asset, recharge)
    ensures tx.kind.RechargeToSideChain? ==> fee == (var fees := recharge(tx); if fees.Some? && asset in fees.value then fees.value[asset] else 0)
    ensures !tx.kind.RechargeToSideChain? && !tx.kind.RegisterAsset? && (exists i :: 0 <= i < |tx.inputs| && !InRange(txs, tx.inputs[i].previous)) ==> fee == 0
  {
    assert forall i :: 0 <= i < |tx.inputs| && !tx.kind.RegisterAsset? ==> Referenced(tx)[i] == tx.inputs[i].previous && tx.inputs[i].previous in Referenced(tx);
    var fees := GetTxFeeMap(txs, tx, recharge);
    fee := if fees.Some? then Lookup(fees.value, asset) else 0;
  }

  // ----- The reward rule -----

  function SumValues(outputs: seq<Output>): int {
    if outputs == [] then 0 else SumValues(outputs[..|outputs| - 1]) + outputs[|outputs| - 1].value
  }

  /** The fees of the transactions `1 .. n` of a block. */
  ghost function FeesUpTo(txs: map<Uint256, TxRecord>, list: seq<Tx>, asset: Uint256, recharge: RechargeFees, n: nat): int
    requires n <= |list|
  {
    if n <= 1 then 0 else FeesUpTo(txs, list, asset, recharge, n - 1) + Fee(txs, list[n - 1], asset, recharge)
  }

  /** One coinbase, in front. */
  ghost predicate CoinbaseFirst(list: seq<Tx>) {
    && list != []
    && list[0].kind.CoinBase?
    && forall i :: 1 <= i < |list| ==> !list[i].kind.CoinBase?
  }

  /** One coinbase, in front, which pays out exactly the fees of the other transactions. */
  ghost predicate RewardIsFees(txs: map<Uint256, TxRecord>, list: seq<Tx>, asset: Uint256, recharge: RechargeFees) {
    && CoinbaseFirst(list)
    && SumValues(list[0].outputs) == FeesUpTo(txs, list, asset, recharge, |list|)
  }

  method SumReward(outputs: seq<Output>) returns (reward: int)
    ensures reward == SumValues(outputs)
  {
    reward := 0;
    for n := 0 to |outputs|
      invariant reward == SumValues(outputs[..n])
    {
      reward := reward + outputs[n].value;
      assert outputs[..n + 1][..n] == outputs[..n];
    }
    assert outputs[..|outputs|] == outputs;
  }

  /** The coinbase and reward loop of the block validator. */
  method CheckReward(txs: map<Uint256, TxRecord>, list: seq<Tx>, asset: Uint256, recharge: RechargeFees) returns (ok: bool)
    ensures ok <==> RewardIsFees(txs, list, asset, recharge)
  {
    if list == [] {
      return false;
    }
    var rewardInCoinbase, totalTxFee := 0, 0;
    for index := 0 to |list|
      invariant index > 0 ==> list[0].kind.CoinBase? && rewardInCoinbase == SumValues(list[0].outputs)
      invariant forall i :: 1 <= i < index ==> !list[i].kind.CoinBase?
      invariant totalTxFee == FeesUpTo(txs, list, asset, recharge, index)
    {
      var tx := list[index];
      if index == 0 {
        if !tx.kind.CoinBase? {
          return false;
        }
        rewardInCoinbase := SumReward(tx.outputs);
      } else {
        if tx.kind.CoinBase? {
          return false;
        }
        var fee := GetTxFee(txs, tx, asset, recharge);
        totalTxFee := totalTxFee + fee;
      }
    }
    return rewardInCoinbase == totalTxFee;
  }

  // ----- Conservation -----

  /** What the recharges among the transactions `1 .. n` bring in: their outputs and fees, less
      whatever they spend.  An asset registration takes away what its outputs say, since they lower
      the fees and are never created. */
  ghost function RechargedUpTo(txs: map<Uint256, TxRecord>, list: seq<Tx>, asset: Uint256, recharge: RechargeFees, n: nat): int
    requires n <= |list|
  {
    if n <= 1 then 0
    else
      RechargedUpTo(txs, list, asset, recharge, n - 1) +
      (if list[n - 1].kind.RechargeToSideChain?
       then SumOutputs(list[n - 1].outputs, asset) + Fee(txs, list[n - 1], asset, recharge) - SumOps(txs, asset, SpentBy(list[n - 1]))
       else if list[n - 1].kind.RegisterAsset? then -SumOutputs(list[n - 1].outputs, asset)
       else 0)
  }

  lemma {:induction false} SumOfOneAsset(outputs: seq<Output>, asset: Uint256)
    requires forall i :: 0 <= i < |outputs| ==> outputs[i].assetId == asset
    ensures SumOutputs(outputs, asset) == SumValues(outputs)
  {
    if outputs != [] {
      SumOfOneAsset(outputs[..|outputs| - 1], asset);
    }
  }

  /** One coinbase, in front, that pays in the chain asset. */
  ghost predicate Shaped(txs: seq<Tx>, asset: Uint256) {
    CoinbaseFirst(txs) && forall i :: 0 <= i < |txs[0].outputs| ==> txs[0].outputs[i].assetId == asset
  }

  lemma {:induction false} NetUpTo(l: Ledger, b: Block, asset: Uint256, recharge: RechargeFees, n: nat)
    requires WellFormed(l) && FreshTxs(l, b.txs) && Spendable(l.unspent, InputsOf(b.txs)) && 1 <= n <= |b.txs|
    requires Shaped(b.txs, asset)
    ensures NetOf(PutTxs(l.txs, b.txs, b.header.height), asset, b.txs[..n])
         == SumValues(b.txs[0].outputs) - FeesUpTo(l.txs, b.txs, asset, recharge, n) + RechargedUpTo(l.txs, b.txs, asset, recharge, n)
  {
    hide WellFormed, FreshTxs, Spendable, InputsOf, PutTxs, SumOps, SpentBy, SumOutputs, Fee;
    var txs := PutTxs(l.txs, b.txs, b.header.height);
    NetStep(txs, asset, b.txs, n - 1);
    if n == 1 {
      SumOfOneAsset(b.txs[0].outputs, asset);
      NetOfCoinbase(txs, asset, b.txs);
    } else {
      NetUpTo(l, b, asset, recharge, n - 1);
      SpentResolved(l, b, asset, n - 1);
      FeeOfSpender(l.txs, b.txs[n - 1], asset, recharge);
    }
  }

  lemma {:induction false} NetStep(txs: map<Uint256, TxRecord>, asset: Uint256, list: seq<Tx>, n: nat)
    requires n < |list|
    ensures NetOf(txs, asset, list[..n + 1])
         == NetOf(txs, asset, list[..n]) + Created(list[n], asset) - SumOps(txs, asset, SpentBy(list[n]))
  {
    PrefixOfPrefix(list, n);
  }

  lemma {:induction false} NetOfCoinbase(txs: map<Uint256, TxRecord>, asset: Uint256, list: seq<Tx>)
    requires list != [] && list[0].kind.CoinBase?
    ensures NetOf(txs, asset, list[..0]) == 0 && SumOps(txs, asset, SpentBy(list[0])) == 0
  {
  }

  lemma {:induction false} FeeOfSpender(txs: map<Uint256, TxRecord>, tx: Tx, asset: Uint256, recharge: RechargeFees)
    requires !tx.kind.CoinBase? && forall op :: op in SpentBy(tx) ==> InRange(txs, op)
    ensures !tx.kind.RechargeToSideChain? ==> Fee(txs, tx, asset, recharge) == SumOps(txs, asset, SpentBy(tx)) - SumOutputs(tx.outputs, asset)
    ensures Created(tx, asset) == if tx.kind.RegisterAsset? then 0 else SumOutputs(tx.outputs, asset)
    ensures tx.kind.RegisterAsset? ==> SumOps(txs, asset, SpentBy(tx)) == 0
  {
    assert Referenced(tx) == SpentBy(tx);
  }

  lemma {:induction false} SpentResolved(l: Ledger, b: Block, asset: Uint256, n: nat)
    requires WellFormed(l) && FreshTxs(l, b.txs) && Spendable(l.unspent, InputsOf(b.txs)) && n < |b.txs|
    ensures forall op :: op in SpentBy(b.txs[n]) ==> InRange(l.txs, op)
    ensures SumOps(PutTxs(l.txs, b.txs, b.header.height), asset, SpentBy(b.txs[n])) == SumOps(l.txs, asset, SpentBy(b.txs[n]))
  {
    SpentOnce(l, b.txs, n);
    forall op | op in SpentBy(b.txs[n]) ensures InRange(l.txs, op) {
      assert op in ToSet(SpentBy(b.txs[n]));
    }
    AllTxs(l, b.txs, b.header.height);
    SumOpsExtend(l.txs, PutTxs(l.txs, b.txs, b.header.height), asset, SpentBy(b.txs[n]));
  }

  ghost function Supply(l: Ledger, asset: Uint256): int {
    Total(l.txs, asset, l.unspent)
  }

  // ----- The supply in the index by address -----

  /** The amounts of a list of entries. */
  ghost function SumEntries(list: seq<Utxo>): int {
    if list == [] then 0 else list[0].value + SumEntries(list[1..])
  }

  /** The amounts of all entries that are stored under some keys of an asset. */
  ghost function SumIndex(utxos: UtxoIndex, asset: Uint256, keys: set<UtxoKey>): int
    requires keys <= utxos.Keys
  {
    if keys == {} then 0
    else
      var k :| k in keys;
      (if k.assetId == asset then SumEntries(utxos[k]) else 0) + SumIndex(utxos, asset, keys - {k})
  }

  ghost function UnspentUnder(l: Ledger, keys: set<UtxoKey>): set<OutPoint> {
    set op | op in l.unspent && InRange(l.txs, op) && KeyOf(l.txs, op) in keys
  }

  /** The entry shows one of the outpoints. */
  ghost predicate ShowsOne(txs: map<Uint256, TxRecord>, u: set<OutPoint>, v: Utxo) {
    v.index < 0x1_0000 && var op := OutPoint(v.txId, v.index); op in u && InRange(txs, op) && UtxoOf(txs, op) == v
  }

  lemma {:induction false} EntriesAreTotal(txs: map<Uint256, TxRecord>, asset: Uint256, k: UtxoKey, list: seq<Utxo>, u: set<OutPoint>)
    requires NoDup(list) && forall v :: v in list ==> ShowsOne(txs, u, v)
    requires forall op :: op in u ==> InRange(txs, op) && KeyOf(txs, op) == k && UtxoOf(txs, op) in list
    ensures Total(txs, asset, u) == if k.assetId == asset then SumEntries(list) else 0
  {
    if list == [] {
      assert u == {};
    } else {
      var v := list[0];
      assert ShowsOne(txs, u, v);
      var op := OutPoint(v.txId, v.index);
      HeadRemoved(list);
      forall w | w in list[1..] ensures ShowsOne(txs, u - {op}, w) {
        assert w in ToSet(list[1..]) && w != v;
        assert ShowsOne(txs, u, w);
      }
      forall p | p in u - {op} ensures UtxoOf(txs, p) in list[1..] {
        assert UtxoOf(txs, p) in ToSet(list) - {v};
      }
      EntriesAreTotal(txs, asset, k, list[1..], u - {op});
      TotalRemove(txs, asset, u, op);
    }
  }

  lemma {:induction false} OneKey(db: Db, l: Ledger, asset: Uint256, k: UtxoKey)
    requires Represents(db, l) && k in db.utxos
    ensures Total(l.txs, asset, UnspentUnder(l, {k})) == if k.assetId == asset then SumEntries(db.utxos[k]) else 0
  {
    hide Total, SumEntries;
    var list, u := db.utxos[k], UnspentUnder(l, {k});
    assert Peek(map[], db.utxos, k) == list;
    forall v | v in list ensures ShowsOne(l.txs, u, v) {
      assert (k, v) in UtxoItems(l.txs, l.unspent);
    }
    forall op | op in u ensures UtxoOf(l.txs, op) in list {
      UtxoItem(l.txs, l.unspent, op);
    }
    EntriesAreTotal(l.txs, asset, k, list, u);
  }

  lemma {:induction false} KeysAreTotal(db: Db, l: Ledger, asset: Uint256, keys: set<UtxoKey>)
    requires Represents(db, l) && keys <= db.utxos.Keys
    ensures SumIndex(db.utxos, asset, keys) == Total(l.txs, asset, UnspentUnder(l, keys))
  {
    hide Represents, Total, SumEntries, KeyOf, InRange;
    if keys == {} {
      assert UnspentUnder(l, keys) == {};
      EmptyTotal(l.txs, asset);
    } else {
      var k :| k in keys && SumIndex(db.utxos, asset, keys) ==
        (if k.assetId == asset then SumEntries(db.utxos[k]) else 0) + SumIndex(db.utxos, asset, keys - {k});
      KeysAreTotal(db, l, asset, keys - {k});
      OneKey(db, l, asset, k);
      TotalUnion(l.txs, asset, UnspentUnder(l, keys - {k}), UnspentUnder(l, {k}));
      assert UnspentUnder(l, keys) == UnspentUnder(l, keys - {k}) + UnspentUnder(l, {k});
    }
  }

  lemma {:induction false} EmptyTotal(txs: map<Uint256, TxRecord>, asset: Uint256)
    ensures Total(txs, asset, {}) == 0
  {
  }

  /** The supply of an asset is the sum of the amounts in the lists that are stored for it. */
  lemma {:induction false} SupplyIsIndexed(db: Db, l: Ledger, asset: Uint256)
    requires Represents(db, l)
    ensures Supply(l, asset) == SumIndex(db.utxos, asset, db.utxos.Keys)
  {
    hide Total, SumIndex, SumEntries;
    KeysAreTotal(db, l, asset, db.utxos.Keys);
    forall op | op in l.unspent ensures op in UnspentUnder(l, db.utxos.Keys) {
      UtxoItem(l.txs, l.unspent, op);
      assert UtxoOf(l.txs, op) in Peek(map[], db.utxos, KeyOf(l.txs, op));
    }
    assert UnspentUnder(l, db.utxos.Keys) == l.unspent;
  }

  /** What the coinbase pays out beyond the fees, counted on the ledger that the block is attached to. */
  ghost function Surplus(l: Ledger, txs: seq<Tx>, asset: Uint256, recharge: RechargeFees): int {
    (if txs == [] then 0 else SumValues(txs[0].outputs)) - FeesUpTo(l.txs, txs, asset, recharge, |txs|)
  }

  /** A block changes the supply of the chain asset by what its recharges bring in and what its
      coinbase pays out beyond the fees. */
  lemma {:induction false} ValueChange(l: Ledger, b: Block, asset: Uint256, recharge: RechargeFees)
    requires WellFormed(l) && FreshTxs(l, b.txs) && Writable(l, b) && Shaped(b.txs, asset)
    ensures Supply(Apply(l, b), asset)
         == Supply(l, asset) + RechargedUpTo(l.txs, b.txs, asset, recharge, |b.txs|) + Surplus(l, b.txs, asset, recharge)
  {
    hide WellFormed, FreshTxs, Spendable, InputsOf, PutTxs, Total, NetOf, RechargedUpTo, FeesUpTo;
    var n := |b.txs|;
    TotalAfter(l, b, asset, n);
    AfterWholeBlock(l, b.txs);
    NetUpTo(l, b, asset, recharge, n);
    assert b.txs[..n] == b.txs;
  }

  /** A block changes the supply by exactly what its recharges bring in if and only if it passes the
      reward rule on the ledger that it is attached to. */
  lemma {:induction false} ValueConservation(l: Ledger, b: Block, asset: Uint256, recharge: RechargeFees)
    requires WellFormed(l) && FreshTxs(l, b.txs) && Writable(l, b) && Shaped(b.txs, asset)
    ensures Supply(Apply(l, b), asset) == Supply(l, asset) + RechargedUpTo(l.txs, b.txs, asset, recharge, |b.txs|)
       <==> RewardIsFees(l.txs, b.txs, asset, recharge)
  {
    hide WellFormed, FreshTxs, Writable, Supply, RechargedUpTo, FeesUpTo, Apply;
    ValueChange(l, b, asset, recharge);
  }

  /** Without recharges the total does not change at all. */
  lemma {:induction false} NoRechargeNoChange(txs: map<Uint256, TxRecord>, list: seq<Tx>, asset: Uint256, recharge: RechargeFees, n: nat)
    requires n <= |list| && forall i :: 0 <= i < |list| ==> !list[i].kind.RechargeToSideChain? && !list[i].kind.RegisterAsset?
    ensures RechargedUpTo(txs, list, asset, recharge, n) == 0
  {
    if n > 1 {
      NoRechargeNoChange(txs, list, asset, recharge, n - 1);
    }
  }

  // ----- Whole chains -----

  /** What the recharges of all blocks after genesis bring in. */
  ghost function Imported(chain: seq<Block>, asset: Uint256, recharge: RechargeFees): int {
    if |chain| <= 1 then 0
    else
      var init, b := chain[..|chain| - 1], chain[|chain| - 1];
      Imported(init, asset, recharge) + RechargedUpTo(LedgerOf(init).txs, b.txs, asset, recharge, |b.txs|)
  }

  /** What the coinbases of all blocks after genesis pay out beyond the fees. */
  ghost function Overpaid(chain: seq<Block>, asset: Uint256, recharge: RechargeFees): int {
    if |chain| <= 1 then 0
    else
      var init, b := chain[..|chain| - 1], chain[|chain| - 1];
      Overpaid(init, asset, recharge) + Surplus(LedgerOf(init), b.txs, asset, recharge)
  }

  lemma {:induction false} ValidInit(chain: seq<Block>)
    requires ValidChain(chain) && chain != []
    ensures ValidChain(chain[..|chain| - 1])
  {
  }

  lemma {:induction false} SupplyStep(chain: seq<Block>, asset: Uint256, recharge: RechargeFees)
    requires ValidChain(chain) && |chain| > 1 && Shaped(chain[|chain| - 1].txs, asset)
    ensures var l, b := LedgerOf(chain[..|chain| - 1]), chain[|chain| - 1];
      Supply(LedgerOf(chain), asset)
      == Supply(l, asset) + RechargedUpTo(l.txs, b.txs, asset, recharge, |b.txs|) + Surplus(l, b.txs, asset, recharge)
  {
    hide Total, WellFormed, FreshTxs, Spendable, RechargedUpTo, Apply, Supply, Surplus;
    ChainWellFormed(chain[..|chain| - 1]);
    ValueChange(LedgerOf(chain[..|chain| - 1]), chain[|chain| - 1], asset, recharge);
  }

  /** The supply of the chain asset is the supply after genesis, what was recharged since, and what
      coinbases paid out beyond the fees; the last is nothing if every block passes the reward rule
      on the ledger that it is attached to. */
  lemma {:induction false} ChainConservation(chain: seq<Block>, asset: Uint256, recharge: RechargeFees)
    requires ValidChain(chain) && |chain| >= 1 && forall n :: 1 <= n < |chain| ==> Shaped(chain[n].txs, asset)
    ensures Supply(LedgerOf(chain), asset)
         == Supply(LedgerOf(chain[..1]), asset) + Imported(chain, asset, recharge) + Overpaid(chain, asset, recharge)
    ensures (forall n :: 1 <= n < |chain| ==> RewardIsFees(LedgerOf(chain[..n]).txs, chain[n].txs, asset, recharge)) ==>
              Overpaid(chain, asset, recharge) == 0
  {
    hide Supply, ValidChain, LedgerOf, RechargedUpTo, FeesUpTo;
    var last := |chain| - 1;
    var init, b := chain[..last], chain[last];
    if last == 0 {
      assert chain[..1] == chain;
    } else {
      assert init[..1] == chain[..1];
      forall n | 1 <= n < last ensures init[..n] == chain[..n] && init[n] == chain[n] {
      }
      assert ValidChain(init) by {
        ValidInit(chain);
      }
      ChainConservation(init, asset, recharge);
      SupplyStep(chain, asset, recharge);
    }
  }
}
