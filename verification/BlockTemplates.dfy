/** The block that a miner puts together, and why the validator accepts it. */
module BlockTemplates {
  import opened Core
  import opened Difficulty
  import opened HeaderChains
  import opened Ledgers
  import opened BlockValidator
  import opened BlockRules
  import opened Values

  /** A transaction of the pool, with the fee and the fee rate noted when it entered, and its size. */
  datatype PoolTx = PoolTx(tx: Tx, fee: int, feePerKB: int, size: nat)

  datatype Config = Config(maxBlockSize: int, maxTxInBlock: int, asset: Uint256, foundation: Uint168, miner: Uint168)

  // ----- Transactions in order of their fee rate -----

  ghost predicate ByFeeDesc(s: seq<PoolTx>) {
    forall i, j :: 0 <= i < j < |s| ==> s[i].feePerKB >= s[j].feePerKB
  }

  /** An order that sorting by fee rate may leave: equal rates come in any order. */
  ghost predicate Sorted(s: seq<PoolTx>, pool: seq<PoolTx>) {
    ByFeeDesc(s) && multiset(s) == multiset(pool)
  }

  // ----- The pool -----

  /** Transactions of the pool are not coinbases, differ in their hashes and spend different outputs,
      none of them the placeholder that a coinbase refers to. */
  ghost predicate PoolOk(pool: seq<PoolTx>, placeholder: OutPoint) {
    && (forall i :: 0 <= i < |pool| ==> Member(pool[i].tx, placeholder))
    && PairwiseApart(PoolTxs(pool))
  }

  ghost predicate Member(tx: Tx, placeholder: OutPoint) {
    && !tx.kind.CoinBase?
    && (tx.kind.RechargeToSideChain? ==> tx.kind.mainchainTx.Some?)
    && NoDup(InputsOfTx(tx)) && placeholder !in InputsOfTx(tx)
  }

  ghost predicate Apart(a: Tx, b: Tx) {
    && a.hash != b.hash
    && (forall op :: op in InputsOfTx(a) ==> op !in InputsOfTx(b))
    && (a.kind.RechargeToSideChain? && b.kind.RechargeToSideChain? ==> a.kind.mainchainTx != b.kind.mainchainTx)
  }

  ghost predicate PairwiseApart(txs: seq<Tx>) {
    forall i, j :: 0 <= i < j < |txs| ==> Apart(txs[i], txs[j])
  }

  ghost function PoolTxs(pool: seq<PoolTx>): seq<Tx> {
    seq(|pool|, i requires 0 <= i < |pool| => pool[i].tx)
  }

  lemma {:induction false} ApartSymmetric(a: Tx, b: Tx)
    requires Apart(a, b)
    ensures Apart(b, a)
  {
  }

  lemma {:induction false} SameElementTwice(s: seq<PoolTx>, i: nat, j: nat)
    requires i < j < |s| && s[i] == s[j]
    ensures multiset(s)[s[i]] >= 2
  {
    assert s == s[..j] + [s[j]] + s[j + 1..];
    assert s[..j][i] == s[i];
  }

  lemma {:induction false} TwoPlaces(s: seq<PoolTx>, x: PoolTx) returns (p: nat, q: nat)
    requires multiset(s)[x] >= 2
    ensures p < |s| && q < |s| && p != q && s[p] == x && s[q] == x
  {
    q :| 0 <= q < |s| && s[q] == x;
    var rest := s[..q] + s[q + 1..];
    assert s == s[..q] + [x] + s[q + 1..];
    assert multiset(rest)[x] >= 1;
    var r :| 0 <= r < |rest| && rest[r] == x;
    p := if r < q then r else r + 1;
  }

  /** Transactions that are apart stay so in any order. */
  lemma {:induction false} PermutationApart(pool: seq<PoolTx>, s: seq<PoolTx>)
    requires multiset(s) == multiset(pool) && PairwiseApart(PoolTxs(pool))
    ensures PairwiseApart(PoolTxs(s))
  {
    hide Apart;
    forall i, j | 0 <= i < j < |s| ensures Apart(PoolTxs(s)[i], PoolTxs(s)[j]) {
      var p, q;
      if s[i] == s[j] {
        SameElementTwice(s, i, j);
        p, q := TwoPlaces(pool, s[i]);
      } else {
        assert s[i] in multiset(pool) && s[j] in multiset(pool);
        p :| 0 <= p < |pool| && pool[p] == s[i];
        q :| 0 <= q < |pool| && pool[q] == s[j];
      }
      if p < q {
        assert Apart(PoolTxs(pool)[p], PoolTxs(pool)[q]);
      } else {
        assert Apart(PoolTxs(pool)[q], PoolTxs(pool)[p]);
        ApartSymmetric(pool[q].tx, pool[p].tx);
      }
    }
  }

  // ----- The selection -----

  /** What is fixed while a block is put together. */
  datatype Context = Context(txs: map<Uint256, TxRecord>, asset: Uint256, height: nat)

  /** A transaction is taken if it is final and its fee is still what it was. */
  ghost predicate Keep(ctx: Context, recharge: RechargeFees, t: PoolTx) {
    Finalized(t.tx, ctx.height) && Fee(ctx.txs, t.tx, ctx.asset, recharge) == t.fee
  }

  ghost function TakenFrom(ctx: Context, recharge: RechargeFees, s: seq<PoolTx>): seq<Tx> {
    if s == [] then []
    else
      var last := |s| - 1;
      TakenFrom(ctx, recharge, s[..last]) + if Keep(ctx, recharge, s[last]) then [s[last].tx] else []
  }

  /** Those are taken whose lock is over, or not observed, and whose fee is what it was when they entered
      the pool. */
  lemma {:induction false} TakenMeans(ctx: Context, recharge: RechargeFees, s: seq<PoolTx>, tx: Tx)
    ensures tx in TakenFrom(ctx, recharge, s) <==>
              exists j :: 0 <= j < |s| && s[j].tx == tx && Fee(ctx.txs, tx, ctx.asset, recharge) == s[j].fee
                && (tx.lockTime == 0 || tx.lockTime < ctx.height || forall i :: 0 <= i < |tx.inputs| ==> tx.inputs[i].sequence == 0xffff)
  {
    hide Fee;
    if s != [] {
      var last := |s| - 1;
      TakenMeans(ctx, recharge, s[..last], tx);
      assert forall j :: 0 <= j < last ==> s[..last][j] == s[j];
      if Keep(ctx, recharge, s[last]) && s[last].tx == tx {
        assert s[last].tx == tx;
      }
    }
  }

  ghost function SizeOf(s: seq<PoolTx>): nat {
    if s == [] then 0 else SizeOf(s[..|s| - 1]) + s[|s| - 1].size
  }

  /** There is room for one more transaction after the first `j`. */
  ghost predicate Room(cfg: Config, ctx: Context, recharge: RechargeFees, s: seq<PoolTx>, coinbaseSize: nat, j: nat)
    requires j < |s|
  {
    coinbaseSize + SizeOf(s[..j + 1]) <= cfg.maxBlockSize && 1 + |TakenFrom(ctx, recharge, s[..j])| < cfg.maxTxInBlock
  }

  ghost function SumFees(ctx: Context, recharge: RechargeFees, txs: seq<Tx>): int {
    if txs == [] then 0 else SumFees(ctx, recharge, txs[..|txs| - 1]) + Fee(ctx.txs, txs[|txs| - 1], ctx.asset, recharge)
  }

  lemma {:induction false} NothingTaken(ctx: Context, recharge: RechargeFees, s: seq<PoolTx>)
    ensures TakenFrom(ctx, recharge, s[..0]) == [] && SizeOf(s[..0]) == 0 && SumFees(ctx, recharge, []) == 0
  {
  }

  lemma {:induction false} OneMoreTaken(ctx: Context, recharge: RechargeFees, s: seq<PoolTx>, k: nat)
    requires k < |s|
    ensures TakenFrom(ctx, recharge, s[..k + 1]) == TakenFrom(ctx, recharge, s[..k]) + if Keep(ctx, recharge, s[k]) then [s[k].tx] else []
    ensures SizeOf(s[..k + 1]) == SizeOf(s[..k]) + s[k].size
  {
    hide Keep;
    assert s[..k + 1][..k] == s[..k];
  }

  lemma {:induction false} OneMoreFee(ctx: Context, recharge: RechargeFees, chosen: seq<Tx>, tx: Tx)
    ensures SumFees(ctx, recharge, chosen + [tx]) == SumFees(ctx, recharge, chosen) + Fee(ctx.txs, tx, ctx.asset, recharge)
  {
    hide Fee;
    assert (chosen + [tx])[..|chosen|] == chosen;
  }

  /** Takes transactions in order until the block is full: exactly those that are fit to be taken
      among the first `k`, where `k` is the first position without room. */
  method SelectTxs(cfg: Config, ctx: Context, recharge: RechargeFees, s: seq<PoolTx>, coinbaseSize: nat)
    returns (chosen: seq<Tx>, totalFee: int, k: nat)
    requires forall i :: 0 <= i < |s| ==> !s[i].tx.kind.CoinBase?
    ensures k <= |s| && chosen == TakenFrom(ctx, recharge, s[..k])
    ensures forall j :: 0 <= j < k ==> Room(cfg, ctx, recharge, s, coinbaseSize, j)
    ensures k < |s| ==> !Room(cfg, ctx, recharge, s, coinbaseSize, k)
    ensures k < |s| ==> 1 + |chosen| >= cfg.maxTxInBlock || coinbaseSize + SizeOf(s[..k]) + s[k].size > cfg.maxBlockSize
    ensures totalFee == SumFees(ctx, recharge, chosen)
    ensures cfg.maxTxInBlock >= 1 ==> 1 + |chosen| <= cfg.maxTxInBlock
  {
    hide Fee, Finalized, TakenFrom, SizeOf, SumFees;
    NothingTaken(ctx, recharge, s);
    chosen, totalFee, k := [], 0, 0;
    var totalTxsSize, txCount := coinbaseSize, 1;
    while k < |s|
      invariant k <= |s| && chosen == TakenFrom(ctx, recharge, s[..k]) && txCount == 1 + |chosen|
      invariant totalTxsSize == coinbaseSize + SizeOf(s[..k])
      invariant forall j :: 0 <= j < k ==> Room(cfg, ctx, recharge, s, coinbaseSize, j)
      invariant totalFee == SumFees(ctx, recharge, chosen)
      invariant cfg.maxTxInBlock >= 1 ==> txCount <= cfg.maxTxInBlock
    {
      var t := s[k];
      OneMoreTaken(ctx, recharge, s, k);
      totalTxsSize := totalTxsSize + t.size;
      if totalTxsSize > cfg.maxBlockSize {
        break;
      }
      if txCount >= cfg.maxTxInBlock {
        break;
      }
      k := k + 1;
      var final := IsFinalizedTransaction(t.tx, ctx.height);
      if !final {
        continue;
      }
      var fee := GetTxFee(ctx.txs, t.tx, ctx.asset, recharge);
      if fee != t.fee {
        continue;
      }
      OneMoreFee(ctx, recharge, chosen, t.tx);
      chosen := chosen + [t.tx];
      totalFee := totalFee + fee;
      txCount := txCount + 1;
    }
  }

  /** The entries that the transactions of a block were taken from, and their sizes. */
  lemma {:induction false} SizesFit(cfg: Config, ctx: Context, recharge: RechargeFees, s: seq<PoolTx>, coinbaseSize: nat, n: nat) returns (taken: seq<PoolTx>)
    requires n <= |s| && forall j :: 0 <= j < n ==> Room(cfg, ctx, recharge, s, coinbaseSize, j)
    ensures PoolTxs(taken) == TakenFrom(ctx, recharge, s[..n]) && (forall t :: t in taken ==> t in s[..n])
    ensures SizeOf(taken) <= SizeOf(s[..n])
    ensures taken != [] ==> coinbaseSize + SizeOf(taken) <= cfg.maxBlockSize
  {
    hide Keep;
    taken := [];
    if n > 0 {
      assert s[..n][..n - 1] == s[..n - 1];
      taken := SizesFit(cfg, ctx, recharge, s, coinbaseSize, n - 1);
      assert Room(cfg, ctx, recharge, s, coinbaseSize, n - 1);
      if Keep(ctx, recharge, s[n - 1]) {
        assert (taken + [s[n - 1]])[..|taken|] == taken;
        taken := taken + [s[n - 1]];
      }
    }
  }

  // ----- Why there are no duplicates -----

  lemma {:induction false} TakenApart(ctx: Context, recharge: RechargeFees, s: seq<PoolTx>, n: nat)
    requires PairwiseApart(PoolTxs(s)) && n <= |s|
    ensures PairwiseApart(TakenFrom(ctx, recharge, s[..n]))
    ensures forall t :: t in TakenFrom(ctx, recharge, s[..n]) ==> t in PoolTxs(s)[..n]
    ensures forall t :: t in TakenFrom(ctx, recharge, s[..n]) ==> Finalized(t, ctx.height)
  {
    hide Apart, Finalized, Fee;
    if n > 0 {
      TakenApart(ctx, recharge, s, n - 1);
      assert s[..n][..n - 1] == s[..n - 1];
      var init, last := TakenFrom(ctx, recharge, s[..n - 1]), s[n - 1].tx;
      assert PoolTxs(s)[..n] == PoolTxs(s)[..n - 1] + [last];
      forall i | 0 <= i < |init| ensures Apart(init[i], last) {
        assert init[i] in init;
        var j :| 0 <= j < n - 1 && PoolTxs(s)[j] == init[i];
        assert Apart(PoolTxs(s)[j], PoolTxs(s)[n - 1]);
      }
    }
  }

  lemma {:induction false} InputsBelong(txs: seq<Tx>, n: nat, op: OutPoint)
    requires n <= |txs| && op in AllInputs(txs[..n])
    ensures exists i :: 0 <= i < n && op in InputsOfTx(txs[i])
  {
    assert txs[..n][..n - 1] == txs[..n - 1];
    if op !in InputsOfTx(txs[n - 1]) {
      InputsBelong(txs, n - 1, op);
    }
  }

  lemma {:induction false} RechargesBelong(txs: seq<Tx>, n: nat, r: Option<Uint256>)
    requires n <= |txs| && r in Recharged(txs[..n])
    ensures exists i :: 0 <= i < n && txs[i].kind.RechargeToSideChain? && txs[i].kind.mainchainTx == r
  {
    assert txs[..n][..n - 1] == txs[..n - 1];
    if r in Recharged(txs[..n - 1]) {
      RechargesBelong(txs, n - 1, r);
    }
  }

  lemma {:induction false} ApartNoDuplicates(txs: seq<Tx>, n: nat)
    requires n <= |txs| && PairwiseApart(txs)
    requires forall i :: 0 <= i < |txs| ==> Own(txs[i])
    ensures NoDuplicates(txs[..n])
  {
    if n == 0 {
      assert txs[..0] == [];
    } else {
      hide NoDuplicates, AllInputs;
      ApartNoDuplicates(txs, n - 1);
      DuplicatesStep(txs, n - 1);
      ApartStep(txs, n - 1);
    }
  }

  /** What a transaction needs to be free of duplicates by itself. */
  ghost predicate Own(tx: Tx) {
    NoDup(InputsOfTx(tx)) && (tx.kind.RechargeToSideChain? ==> tx.kind.mainchainTx.Some?)
  }

  lemma {:induction false} ApartStep(txs: seq<Tx>, n: nat)
    requires n < |txs| && PairwiseApart(txs) && Own(txs[n]) && NoDup(AllInputs(txs[..n]))
    ensures txs[n].hash !in TxHashes(txs[..n])
    ensures NoDup(AllInputs(txs[..n]) + InputsOfTx(txs[n]))
    ensures txs[n].kind.RechargeToSideChain? ==> txs[n].kind.mainchainTx.Some? && txs[n].kind.mainchainTx.value !in RechargedSet(txs[..n])
  {
    forall i | 0 <= i < n ensures Apart(txs[i], txs[n]) {
    }
    var all, own := AllInputs(txs[..n]), InputsOfTx(txs[n]);
    forall op | op in all ensures op !in own {
      InputsBelong(txs, n, op);
      var i :| 0 <= i < n && op in InputsOfTx(txs[i]);
      assert Apart(txs[i], txs[n]);
    }
    if txs[n].kind.RechargeToSideChain? && txs[n].kind.mainchainTx in Recharged(txs[..n]) {
      RechargesBelong(txs, n, txs[n].kind.mainchainTx);
    }
    hide AllInputs, InputsOfTx;
    DisjointNoDup(all, own);
  }

  lemma {:induction false} DisjointNoDup<T>(a: seq<T>, b: seq<T>)
    requires NoDup(a) && NoDup(b) && forall x :: x in a ==> x !in b
    ensures NoDup(a + b)
  {
    forall i, j | 0 <= i < j < |a + b| ensures (a + b)[i] != (a + b)[j] {
      if i < |a| <= j {
        assert a[i] in a && b[j - |a|] in b;
      }
    }
  }

  // ----- The block -----

  lemma {:induction false} FeesOfTemplate(ctx: Context, recharge: RechargeFees, coinbase: Tx, chosen: seq<Tx>, n: nat)
    requires n <= |chosen|
    ensures FeesUpTo(ctx.txs, [coinbase] + chosen, ctx.asset, recharge, n + 1) == SumFees(ctx, recharge, chosen[..n])
  {
    if n > 0 {
      FeesOfTemplate(ctx, recharge, coinbase, chosen, n - 1);
      assert chosen[..n][..n - 1] == chosen[..n - 1];
    }
  }

  /** The coinbase, with the reward split between the foundation and the miner. */
  function CoinBaseTx(cfg: Config, hash: Uint256, placeholder: OutPoint, height: uint32, founders: int, miner: int): Tx {
    Tx(hash, CoinBase, [Input(placeholder, 0xffff_ffff)],
       [Output(cfg.asset, founders, cfg.foundation), Output(cfg.asset, miner, cfg.miner)], height)
  }

  /** What the outputs pay to an address. */
  ghost function PaidTo(outputs: seq<Output>, address: Uint168): int {
    if outputs == [] then 0
    else PaidTo(outputs[..|outputs| - 1], address) + if outputs[|outputs| - 1].programHash == address then outputs[|outputs| - 1].value else 0
  }

  /** The check on the outputs of a coinbase. */
  ghost predicate CoinbaseOutputsOk(cfg: Config, share: int -> int, outputs: seq<Output>) {
    && |outputs| >= 2
    && (forall i :: 0 <= i < |outputs| ==> outputs[i].assetId == cfg.asset)
    && PaidTo(outputs, cfg.foundation) >= share(SumValues(outputs))
  }

  /** The foundation gets its share of the reward, the miner the rest, and nobody else anything. */
  ghost predicate SplitsReward(cfg: Config, share: int -> int, reward: int, outputs: seq<Output>) {
    && (cfg.miner != cfg.foundation ==> PaidTo(outputs, cfg.foundation) == share(reward) && PaidTo(outputs, cfg.miner) == reward - share(reward))
    && (cfg.miner == cfg.foundation ==> PaidTo(outputs, cfg.miner) == reward)
    && forall address :: address != cfg.foundation && address != cfg.miner ==> PaidTo(outputs, address) == 0
  }

  lemma {:induction false} PaidOut(outputs: seq<Output>, address: Uint168)
    requires |outputs| == 2
    ensures PaidTo(outputs, address) ==
              (if outputs[0].programHash == address then outputs[0].value else 0) + (if outputs[1].programHash == address then outputs[1].value else 0)
  {
    var first := outputs[..1];
    assert outputs[..|outputs| - 1] == first && first[..|first| - 1] == [] && PaidTo([], address) == 0;
  }

  lemma {:induction false} SplitReward(cfg: Config, share: int -> int, coinbase: Tx, reward: int)
    requires coinbase.outputs == [Output(cfg.asset, share(reward), cfg.foundation), Output(cfg.asset, reward - share(reward), cfg.miner)]
    ensures SumValues(coinbase.outputs) == reward && SplitsReward(cfg, share, reward, coinbase.outputs)
    ensures cfg.miner != cfg.foundation || share(reward) <= reward ==> CoinbaseOutputsOk(cfg, share, coinbase.outputs)
  {
    var o := coinbase.outputs;
    var first := o[..1];
    assert o[..|o| - 1] == first && first == [o[0]] && first[..|first| - 1] == [];
    assert SumValues([]) == 0 && SumValues(first) == o[0].value;
    forall address ensures PaidTo(o, address) == (if o[0].programHash == address then o[0].value else 0) + (if o[1].programHash == address then o[1].value else 0) {
      PaidOut(o, address);
    }
  }

  /** The chosen transactions behind a coinbase that shares nothing with them. */
  lemma {:induction false} TemplateNoDuplicates(coinbase: Tx, chosen: seq<Tx>, placeholder: OutPoint)
    requires coinbase.kind.CoinBase? && coinbase.inputs == [Input(placeholder, 0xffff_ffff)]
    requires PairwiseApart(chosen)
    requires forall i :: 0 <= i < |chosen| ==> Member(chosen[i], placeholder) && chosen[i].hash != coinbase.hash
    ensures NoDuplicates([coinbase] + chosen)
  {
    var txs := [coinbase] + chosen;
    forall i | 0 <= i < |chosen| ensures Apart(coinbase, chosen[i]) && Own(chosen[i]) {
      assert InputsOfTx(coinbase) == [placeholder];
    }
    assert Own(coinbase);
    hide Apart, Own;
    forall i, j | 0 <= i < j < |txs| ensures Apart(txs[i], txs[j]) {
      assert txs[j] == chosen[j - 1];
      if i > 0 {
        assert txs[i] == chosen[i - 1];
      }
    }
    forall i | 0 <= i < |txs| ensures Own(txs[i]) {
      if i > 0 {
        assert txs[i] == chosen[i - 1];
      }
    }
    ApartNoDuplicates(txs, |txs|);
    assert txs[..|txs|] == txs;
  }

  /** What the validator asks of the transactions of a block. */
  ghost predicate Acceptable(cfg: Config, ctx: Context, recharge: RechargeFees, share: int -> int, txs: seq<Tx>) {
    && 1 <= |txs| <= cfg.maxTxInBlock
    && NoDuplicates(txs)
    && RewardIsFees(ctx.txs, txs, ctx.asset, recharge) && Shaped(txs, ctx.asset)
    && AllFinalized(txs, ctx.height)
    && (cfg.miner != cfg.foundation || share(SumValues(txs[0].outputs)) <= SumValues(txs[0].outputs) ==>
          CoinbaseOutputsOk(cfg, share, txs[0].outputs))
  }

  /** With the pool in some order of fee rate: the block holds those that are fit among the first `k`,
      and `k` is the first position without room. */
  ghost predicate FillsUp(cfg: Config, ctx: Context, recharge: RechargeFees, s: seq<PoolTx>, coinbaseSize: nat, txs: seq<Tx>, k: nat) {
    && k <= |s|
    && txs != [] && txs[1..] == TakenFrom(ctx, recharge, s[..k])
    && (forall j :: 0 <= j < k ==> Room(cfg, ctx, recharge, s, coinbaseSize, j))
    && (k < |s| ==> !Room(cfg, ctx, recharge, s, coinbaseSize, k))
    && (k < |s| ==> |txs| >= cfg.maxTxInBlock || coinbaseSize + SizeOf(s[..k]) + s[k].size > cfg.maxBlockSize)
  }

  /** The transactions of a new block: the coinbase pays out the fees of those that were chosen. */
  method AssembleTxs(cfg: Config, ctx: Context, recharge: RechargeFees, share: int -> int, ghost pool: seq<PoolTx>, s: seq<PoolTx>,
                     coinbaseHash: Uint256, placeholder: OutPoint, coinbaseSize: nat, height: uint32) returns (txs: seq<Tx>, k: nat)
    requires PoolOk(pool, placeholder) && Sorted(s, pool) && forall i :: 0 <= i < |pool| ==> pool[i].tx.hash != coinbaseHash
    requires cfg.maxTxInBlock >= 1 && ctx.asset == cfg.asset && ctx.height == height
    ensures Acceptable(cfg, ctx, recharge, share, txs)
    ensures FillsUp(cfg, ctx, recharge, s, coinbaseSize, txs, k)
    ensures txs[0].hash == coinbaseHash && txs[0].lockTime == height
    ensures SplitsReward(cfg, share, SumFees(ctx, recharge, txs[1..]), txs[0].outputs)
  {
    hide Fee, Finalized, NoDuplicates, Room, Apart, SplitsReward;
    PermutationApart(pool, s);
    SameElements(pool, s);
    SortedMembers(pool, s, placeholder, coinbaseHash);
    var chosen, totalFee;
    chosen, totalFee, k := SelectTxs(cfg, ctx, recharge, s, coinbaseSize);
    var rewardFoundation := share(totalFee);
    var coinbase := CoinBaseTx(cfg, coinbaseHash, placeholder, height, rewardFoundation, totalFee - rewardFoundation);
    txs := [coinbase] + chosen;
    TakenApart(ctx, recharge, s, k);
    TemplateTxs(cfg, ctx, recharge, share, coinbase, chosen, placeholder, s, totalFee);
  }

  lemma {:induction false} SameElements(pool: seq<PoolTx>, s: seq<PoolTx>)
    requires multiset(s) == multiset(pool)
    ensures forall x :: x in s <==> x in pool
  {
    forall x ensures x in s <==> x in pool {
      assert x in s <==> x in multiset(s);
      assert x in pool <==> x in multiset(pool);
    }
  }

  lemma {:induction false} SortedMembers(pool: seq<PoolTx>, s: seq<PoolTx>, placeholder: OutPoint, coinbaseHash: Uint256)
    requires forall i :: 0 <= i < |pool| ==> Member(pool[i].tx, placeholder) && pool[i].tx.hash != coinbaseHash
    requires forall x :: x in s ==> x in pool
    ensures forall t :: t in PoolTxs(s) ==> Member(t, placeholder) && t.hash != coinbaseHash
    ensures forall i :: 0 <= i < |s| ==> !s[i].tx.kind.CoinBase?
  {
    forall i | 0 <= i < |s| ensures Member(s[i].tx, placeholder) && s[i].tx.hash != coinbaseHash {
      assert s[i] in s;
      var j :| 0 <= j < |pool| && pool[j] == s[i];
    }
  }

  lemma {:induction false} TemplateTxs(cfg: Config, ctx: Context, recharge: RechargeFees, share: int -> int, coinbase: Tx, chosen: seq<Tx>,
                                       placeholder: OutPoint, s: seq<PoolTx>, totalFee: int)
    requires 1 + |chosen| <= cfg.maxTxInBlock && PairwiseApart(chosen) && totalFee == SumFees(ctx, recharge, chosen)
    requires coinbase == CoinBaseTx(cfg, coinbase.hash, placeholder, coinbase.lockTime, share(totalFee), totalFee - share(totalFee))
    requires forall t :: t in chosen ==> Finalized(t, ctx.height) && Member(t, placeholder) && t.hash != coinbase.hash
    requires ctx.asset == cfg.asset
    ensures Acceptable(cfg, ctx, recharge, share, [coinbase] + chosen)
    ensures SplitsReward(cfg, share, totalFee, coinbase.outputs)
  {
    hide Fee, Finalized, NoDuplicates, Apart;
    var txs := [coinbase] + chosen;
    forall i | 0 <= i < |chosen| ensures Member(chosen[i], placeholder) && chosen[i].hash != coinbase.hash && Finalized(chosen[i], ctx.height) {
      assert chosen[i] in chosen;
    }
    TemplateNoDuplicates(coinbase, chosen, placeholder);
    SplitReward(cfg, share, coinbase, totalFee);
    FeesOfTemplate(ctx, recharge, coinbase, chosen, |chosen|);
    assert chosen[..|chosen|] == chosen;
    forall i | 1 <= i < |txs| ensures !txs[i].kind.CoinBase? && Finalized(txs[i], ctx.height) {
      assert txs[i] == chosen[i - 1];
    }
  }

  /** The time for a new block: the clock, or a second after the median if the clock is behind. */
  function MedianAdjustedTime(now: nat, median: nat): (t: nat)
    ensures t > median && t >= now && (t == now || t == median + 1)
  {
    if now < median + 1 then median + 1 else now
  }

  /** A template on top of a chain.  It carries the number after the best height, which follows the
      store and not the tip.  While that is not ahead of the tip, the template passes the checks of the
      validator that depend on the chain, on the store and on the transactions among themselves; its
      height is the subject of another check. */
  method GenerateBlock(cfg: Config, p: ChainParams, chain: seq<Header>, bestHeight: nat, storeTxs: map<Uint256, TxRecord>, recharge: RechargeFees,
                       share: int -> int, ghost pool: seq<PoolTx>, s: seq<PoolTx>, coinbaseHash: Uint256, placeholder: OutPoint, coinbaseSize: nat,
                       now: nat, hash: Uint256, merkleRoot: Uint256) returns (block: Block, k: nat)
    requires GoodParams(p) && Linked(chain) && |chain| < 0x1_0000_0000 && CompactToBig(chain[|chain| - 1].bits) >= 0
    requires bestHeight + 1 < 0x1_0000_0000 && now < 0x1_0000_0000 && MedianTime(chain) + 1 < 0x1_0000_0000
    requires PoolOk(pool, placeholder) && Sorted(s, pool) && forall i :: 0 <= i < |pool| ==> pool[i].tx.hash != coinbaseHash
    requires cfg.maxTxInBlock >= 1
    ensures Acceptable(cfg, Context(storeTxs, cfg.asset, bestHeight + 1), recharge, share, block.txs)
    ensures FillsUp(cfg, Context(storeTxs, cfg.asset, bestHeight + 1), recharge, s, coinbaseSize, block.txs, k)
    ensures bestHeight < |chain| ==> ContextRules(p, chain, block)
    ensures block.header.previous == chain[|chain| - 1].hash && block.header.height == bestHeight + 1
    ensures SplitsReward(cfg, share, SumFees(Context(storeTxs, cfg.asset, bestHeight + 1), recharge, block.txs[1..]), block.txs[0].outputs)
    ensures block.header.timestamp > MedianTime(chain) && block.header.timestamp >= now
    ensures block.header.timestamp == now || block.header.timestamp == MedianTime(chain) + 1
    ensures block.header.hash == hash && block.header.merkleRoot == merkleRoot && block.txs[0].hash == coinbaseHash && block.txs[0].lockTime == bestHeight + 1
    ensures forall i :: 1 <= i < |block.txs| ==> InPool(pool, block.txs[i])
  {
    assert chain != [];
    hide GoodParams, CompactToBig, MedianTime, NextBits, PoolOk, InPool, Finalized, Room, TakenFrom, Sorted, FillsUp, Linked, NoDuplicates, RewardIsFees, CoinbaseOutputsOk;
    var nextBlockHeight: uint32 := bestHeight + 1;
    var ctx := Context(storeTxs, cfg.asset, nextBlockHeight);
    var txs;
    txs, k := AssembleTxs(cfg, ctx, recharge, share, pool, s, coinbaseHash, placeholder, coinbaseSize, nextBlockHeight);
    var median := CalcPastMedianTime(chain);
    var bits := CalcNextRequiredDifficulty(p, chain);
    var header := Header(hash, chain[|chain| - 1].hash, merkleRoot, MedianAdjustedTime(now, median), bits.value, nextBlockHeight);
    block := Block(header, txs);
    FromPool(cfg, ctx, recharge, pool, s, coinbaseSize, txs, k);
    if bestHeight < |chain| {
      FinalStaysFinal(txs, bestHeight + 1, |chain|);
    }
  }

  /** A lock that is over at one height is over at every later one. */
  lemma {:induction false} FinalStaysFinal(txs: seq<Tx>, low: nat, high: nat)
    requires AllFinalized(txs, low) && low <= high
    ensures AllFinalized(txs, high)
  {
  }

  ghost predicate InPool(pool: seq<PoolTx>, tx: Tx) {
    exists j :: 0 <= j < |pool| && pool[j].tx == tx
  }

  lemma {:induction false} FromPool(cfg: Config, ctx: Context, recharge: RechargeFees, pool: seq<PoolTx>, s: seq<PoolTx>, coinbaseSize: nat, txs: seq<Tx>, k: nat)
    requires Sorted(s, pool) && FillsUp(cfg, ctx, recharge, s, coinbaseSize, txs, k)
    ensures forall i :: 1 <= i < |txs| ==> InPool(pool, txs[i])
  {
    hide Room;
    SameElements(pool, s);
    forall i | 1 <= i < |txs| ensures InPool(pool, txs[i]) {
      assert txs[1..][i - 1] == txs[i];
      TakenBelongs(ctx, recharge, s, k, txs[i]);
      var a :| 0 <= a < k && s[a].tx == txs[i];
      assert s[a] in s && s[a] in pool;
      var j :| 0 <= j < |pool| && pool[j] == s[a];
      assert pool[j].tx == txs[i];
    }
  }

  lemma {:induction false} TakenBelongs(ctx: Context, recharge: RechargeFees, s: seq<PoolTx>, n: nat, t: Tx)
    requires n <= |s| && t in TakenFrom(ctx, recharge, s[..n])
    ensures exists i :: 0 <= i < n && s[i].tx == t
  {
    assert s[..n][..n - 1] == s[..n - 1];
    if t in TakenFrom(ctx, recharge, s[..n - 1]) {
      TakenBelongs(ctx, recharge, s, n - 1, t);
    }
  }
}
