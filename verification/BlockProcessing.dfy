/** What happens to a block that arrives from a peer or a miner: whole runs of the chain. */
module BlockProcessing {
  import opened Core
  import opened Difficulty
  import opened ChainStores
  import opened Ledgers
  import opened BlockValidator
  import opened Switching
  import opened Values
  import opened BlockTree
  import opened Blockchains
  import opened Orphans

  /** `error` is what the orphans that waited for an accepted block ran into, if anything. */
  datatype Verdict = Known | Insane | Orphaned | Failed(outcome: Outcome) | Accepted(outcome: Outcome, error: Option<Outcome>)

  /** The outcomes that the chain reports as an error. */
  predicate IsError(outcome: Outcome) {
    outcome.Aborted? || Untouched(outcome)
  }

  function ErrorIn(outcome: Outcome): Option<Outcome> {
    if IsError(outcome) then Some(outcome) else None
  }

  predicate HasAborted(v: Verdict) {
    v == Failed(Aborted) || (v.Accepted? && v.error == Some(Aborted))
  }

  /** An error that may leave orphans behind whose parent is indexed. */
  predicate Stuck(v: Verdict) {
    v == Failed(Aborted) || (v.Accepted? && v.error.Some?)
  }

  /** Outputs that 16 bits can number: not checked by the chain. */
  ghost predicate Regular(txs: seq<Tx>) {
    forall i :: 0 <= i < |txs| ==> |txs[i].outputs| <= 0x1_0000
  }

  /** Indexed blocks stay indexed, and only orphans become indexed; if nothing is lost, every orphan
      is still an orphan or was indexed. */
  ghost predicate BlocksKept(lossless: bool, orphans: map<Uint256, Block>, index: map<Uint256, BlockNode>,
                       orphans': map<Uint256, Block>, index': map<Uint256, BlockNode>)
  {
    && (forall h :: h in index ==> h in index' && index'[h] == index[h])
    && (forall h :: h in index' ==> h in index || (h in orphans && index'[h].block == orphans[h]))
    && (forall h :: h in orphans' ==> h in orphans && orphans'[h] == orphans[h])
    && (lossless ==> forall h :: h in orphans ==> h in orphans' || h in index')
  }

  lemma {:induction false} NothingMoved(orphans: map<Uint256, Block>, index: map<Uint256, BlockNode>)
    ensures BlocksKept(true, orphans, index, orphans, index)
  {
  }

  lemma {:induction false} KeptAdds(lossless: bool, orphans: map<Uint256, Block>, index: map<Uint256, BlockNode>,
                                    orphans': map<Uint256, Block>, index': map<Uint256, BlockNode>,
                                    orphans'': map<Uint256, Block>, index'': map<Uint256, BlockNode>)
    requires BlocksKept(true, orphans, index, orphans', index') && BlocksKept(lossless, orphans', index', orphans'', index'')
    ensures BlocksKept(lossless, orphans, index, orphans'', index'')
  {
  }

  // ----- What happens, step by step -----

  /** The state of the chain and of the orphan pool at one time. */
  datatype Snapshot = Snapshot(chain: ChainState, orphans: map<Uint256, Block>)

  /** A block that was put to the chain, with the state before and after. */
  datatype Step = Step(before: Snapshot, block: Block, outcome: Outcome, after: Snapshot)

  /** What became of a block that arrived: the step for the block itself, and one for each orphan that
      it set free. */
  datatype Event = Event(before: Snapshot, block: Block, evicted: set<Uint256>, verdict: Verdict, steps: seq<Step>, after: Snapshot)

  ghost function ErrorOf(steps: seq<Step>): Option<Outcome> {
    if steps == [] then None else ErrorIn(steps[|steps| - 1].outcome)
  }

  /** Each step starts where the one before it ended, without an error. */
  ghost predicate Chained(steps: seq<Step>, from: Snapshot, to: Snapshot) {
    if steps == [] then to == from
    else
      && steps[0].before == from && steps[|steps| - 1].after == to
      && forall i :: 0 <= i < |steps| - 1 ==> steps[i].after == steps[i + 1].before && !IsError(steps[i].outcome)
  }

  /** The block with the hash is the first one or one of those that were accepted since. */
  ghost predicate FreedBy(first: Uint256, steps: seq<Step>, hash: Uint256) {
    hash == first || exists j :: 0 <= j < |steps| && steps[j].block.header.hash == hash
  }

  ghost predicate AllFreed(first: Uint256, steps: seq<Step>, hashes: seq<Uint256>) {
    forall i :: 0 <= i < |hashes| ==> FreedBy(first, steps, hashes[i])
  }

  /** Orphans that wait for a freed block wait for a listed one. */
  ghost predicate Pending(first: Uint256, steps: seq<Step>, now: Snapshot, but: seq<Uint256>) {
    forall h :: h in now.orphans && FreedBy(first, steps, now.orphans[h].header.previous) ==> now.orphans[h].header.previous in but
  }

  /** What became indexed since was freed. */
  ghost predicate OnlyFreed(first: Uint256, steps: seq<Step>, from: Snapshot, now: Snapshot) {
    forall h :: h in now.chain.index ==> h in from.chain.index || FreedBy(first, steps, h)
  }

  /** What every step keeps, up to one that ends in an error. */
  ghost predicate Onward(error: bool, aborted: bool, a: Snapshot, b: Snapshot) {
    && MissedStay(a.chain.best, b.chain.best)
    && BlocksKept(!error, a.orphans, a.chain.index, b.orphans, b.chain.index)
    && if aborted then !MostWork(b.chain.index.Values, b.chain.best)
       else Progress(a.chain.index.Values, a.chain.best, b.chain.index.Values, b.chain.best)
  }

  lemma {:induction false} OnwardAdds(error: bool, aborted: bool, a: Snapshot, b: Snapshot, c: Snapshot)
    requires Onward(false, false, a, b) && Onward(error, aborted, b, c)
    ensures Onward(error, aborted, a, c)
  {
    hide MissedStay, BlocksKept, MostWork, Progress;
    MissedAdds(a.chain.best, b.chain.best, c.chain.best);
    KeptAdds(!error, a.orphans, a.chain.index, b.orphans, b.chain.index, c.orphans, c.chain.index);
    if !aborted {
      ProgressAdds(a.chain.index.Values, a.chain.best, b.chain.index.Values, b.chain.best, c.chain.index.Values, c.chain.best);
    }
  }

  lemma {:induction false} OnwardSame(a: Snapshot)
    ensures Onward(false, false, a, a)
  {
    hide MissedStay, BlocksKept, MostWork, Progress;
    MissedSame(a.chain.best);
    NothingMoved(a.orphans, a.chain.index);
    NoProgress(a.chain.index.Values, a.chain.best);
  }

  class BlockProcessor {
    const chain: Blockchain
    const pool: OrphanPool
    const recharge: RechargeFees
    /** Sanity checks that are not modelled: merged mining proof, size, clock, transaction syntax. */
    const otherSanity: Block -> bool

    /** No orphan is indexed, and all orphans passed the sanity check. */
    ghost predicate OrphansApart(orphans: map<Uint256, Block>)
      reads chain
    {
      forall h :: h in orphans ==> h !in chain.index && chain.Checked(orphans[h])
    }

    ghost predicate Valid()
      reads this, chain, chain.store, chain.index.Values, pool
    {
      chain.Valid() && pool.Valid() && OrphansApart(pool.orphans)
    }

    constructor Init(chain: Blockchain, recharge: RechargeFees, otherSanity: Block -> bool)
      requires chain.Valid()
      ensures Valid() && this.chain == chain && NoneWaiting([])
    {
      hide Blockchain.Valid, OrphanPool.Valid;
      this.chain, this.recharge, this.otherSanity := chain, recharge, otherSanity;
      pool := new OrphanPool();
    }

    /** Orphans whose parent is indexed wait for one of the listed blocks. */
    ghost predicate NoneWaiting(but: seq<Uint256>)
      reads chain, pool
    {
      forall h :: h in pool.orphans && pool.orphans[h].header.previous in chain.index ==> pool.orphans[h].header.previous in but
    }

    ghost function Now(): Snapshot
      reads chain, chain.store, pool
    {
      Snapshot(chain.State(), pool.orphans)
    }

    /** What every step keeps, up to an error. */
    twostate predicate Stepped(new error: Option<Outcome>)
      reads chain, chain.store, pool
    {
      chain.Grown() && Onward(error.Some?, error == Some(Aborted), old(Now()), Now())
    }

    /** If only children of the first list could be waiting, only children of the second can be now. */
    twostate predicate Waits(before: seq<Uint256>, after: seq<Uint256>)
      reads chain, pool
    {
      old(NoneWaiting(before)) ==> NoneWaiting(after)
    }

    // ----- Steps -----

    /** The outcome of a step is the one told from the state before it, and so is what it leads to. */
    ghost predicate StepOk(step: Step) {
      && step.outcome == chain.ExpectedAt(step.before.chain, step.block)
      && chain.LeadsAt(step.before.chain, step.block, step.outcome, step.after.chain)
    }

    /** An orphan leaves the pool. */
    ghost predicate OrphanStep(step: Step) {
      var hash := step.block.header.hash;
      && StepOk(step)
      && hash in step.before.orphans && step.before.orphans[hash] == step.block
      && step.after.orphans == step.before.orphans - {hash}
    }

    /** A new block leaves the pool alone. */
    ghost predicate BlockStep(step: Step) {
      StepOk(step) && step.after.orphans == step.before.orphans
    }

    /** Steps of orphans, each set free by the first block or by an orphan before it. */
    ghost predicate OrphanSteps(first: Uint256, steps: seq<Step>, from: Snapshot, to: Snapshot) {
      && Chained(steps, from, to)
      && forall i :: 0 <= i < |steps| ==> OrphanStep(steps[i]) && FreedBy(first, steps[..i], steps[i].block.header.previous)
    }

    lemma {:induction false} OneMoreStep(first: Uint256, steps: seq<Step>, from: Snapshot, step: Step)
      requires OrphanSteps(first, steps, from, step.before) && ErrorOf(steps).None? && OrphanStep(step)
      requires FreedBy(first, steps, step.block.header.previous)
      ensures OrphanSteps(first, steps + [step], from, step.after) && ErrorOf(steps + [step]) == ErrorIn(step.outcome)
    {
      hide OrphanStep, FreedBy;
      var more := steps + [step];
      forall i | 0 <= i < |more| ensures OrphanStep(more[i]) && FreedBy(first, more[..i], more[i].block.header.previous) {
        if i < |steps| {
          assert more[..i] == steps[..i];
        } else {
          assert more[..i] == steps;
        }
      }
    }

    lemma {:induction false} FreedStays(first: Uint256, steps: seq<Step>, step: Step, hashes: seq<Uint256>)
      requires AllFreed(first, steps, hashes)
      ensures AllFreed(first, steps + [step], hashes + [step.block.header.hash])
    {
      hide FreedBy;
      forall i | 0 <= i <= |hashes| ensures FreedBy(first, steps + [step], (hashes + [step.block.header.hash])[i]) {
        FreedMore(first, steps, step, (hashes + [step.block.header.hash])[i]);
      }
    }

    // ----- Orphans -----

    twostate predicate TookOrphan(parent: Uint256, new step: Step)
      reads chain, chain.store, pool
    {
      && step.before == old(Now()) && step.after == Now() && OrphanStep(step)
      && step.block.header.previous == parent
    }

    /** Takes the first orphan that waits for a block out of the pool and accepts it. */
    method AcceptOrphan(parent: Uint256) returns (hash: Uint256, outcome: Outcome, ghost step: Step)
      requires Valid() && parent in pool.prevOrphans
      modifies chain, chain.store, chain.index.Values, pool
      ensures step.outcome == outcome && step.block.header.hash == hash
      ensures TookOrphan(parent, step)
      ensures Stepped(ErrorIn(outcome))
      ensures Valid()
    {
      hide Blockchain.Valid, Blockchain.Checked, Blockchain.ExpectedAt, OrphanPool.Valid, Progress, MostWork, BlocksKept, MissedStay;
      hide HeldAt, HeldOnMove, StopsAt, Next, Full;
      FirstWaiting(parent);
      ghost var before := Now();
      var orphan := pool.prevOrphans[parent][0];
      hash := orphan.header.hash;
      pool.RemoveOrphanBlock(orphan);
      outcome := chain.MaybeAcceptBlock(orphan);
      step := Step(before, orphan, outcome, Now());
      OrphanKept(step);
    }

    lemma {:induction false} OrphanKept(step: Step)
      requires step.block.header.hash in step.before.orphans && step.before.orphans[step.block.header.hash] == step.block
      requires step.block.header.hash !in step.before.chain.index && step.after.orphans == step.before.orphans - {step.block.header.hash}
      requires chain.LeadsAt(step.before.chain, step.block, step.outcome, step.after.chain)
      ensures BlocksKept(!IsError(step.outcome), step.before.orphans, step.before.chain.index, step.after.orphans, step.after.chain.index)
    {
      hide HeldAt, Next, HeldOnMove, StopsAt, Full;
    }

    lemma {:induction false} FirstWaiting(parent: Uint256)
      requires pool.Valid() && parent in pool.prevOrphans
      ensures pool.prevOrphans[parent] != []
      ensures var orphan := pool.prevOrphans[parent][0];
        orphan.header.hash in pool.orphans && pool.orphans[orphan.header.hash] == orphan && orphan.header.previous == parent
    {
      pool.ListedUnderParent(pool.prevOrphans[parent][0]);
    }

    lemma {:induction false} NobodyWaits(parent: Uint256, first: Uint256, steps: seq<Step>, others: seq<Uint256>)
      requires Valid() && parent !in pool.prevOrphans && Pending(first, steps, Now(), [parent] + others)
      ensures Pending(first, steps, Now(), others)
    {
      hide Blockchain.Valid, OrphansApart, FreedBy;
      forall h | h in pool.orphans ensures pool.orphans[h].header.previous != parent {
        pool.ListedUnderParent(pool.orphans[h]);
      }
    }

    /** The pool shrank, unless there was nothing to do but to take the first block off the list. */
    twostate predicate Consumed(hashes: seq<Uint256>, hashes': seq<Uint256>)
      requires hashes != []
      reads pool
    {
      pool.orphans.Keys < old(pool.orphans.Keys) || (pool.orphans == old(pool.orphans) && hashes' == hashes[1..])
    }

    /** The steps lead from a state to this one, and freed all the blocks that are listed, and whatever
        became indexed on the way. */
    ghost predicate Traced(first: Uint256, steps: seq<Step>, from: Snapshot, hashes: seq<Uint256>)
      reads chain, chain.store, pool
    {
      OrphanSteps(first, steps, from, Now()) && AllFreed(first, steps, hashes) && OnlyFreed(first, steps, from, Now())
    }

    /** Accepts the orphans that wait for a block, and lists those that others may wait for in turn. */
    method ProcessChildren(hashes: seq<Uint256>, ghost first: Uint256, ghost from: Snapshot, ghost steps: seq<Step>)
      returns (hashes': seq<Uint256>, error: Option<Outcome>, ghost steps': seq<Step>)
      requires hashes != [] && Traced(first, steps, from, hashes) && ErrorOf(steps).None? && Pending(first, steps, Now(), hashes)
      requires Valid()
      modifies chain, chain.store, chain.index.Values, pool
      ensures Traced(first, steps', from, hashes') && ErrorOf(steps') == error
      ensures Consumed(hashes, hashes') && (error.None? ==> Pending(first, steps', Now(), hashes'))
      ensures Stepped(error)
      ensures Valid()
    {
      hide Valid, Onward, OrphanSteps, AllFreed, OnlyFreed, Pending, OrphanStep, FreedBy;
      var parent := hashes[0];
      ParentFreed(first, steps, hashes);
      hashes', error, steps' := hashes[1..], None, steps;
      ghost var start := Now();
      assert [parent] + hashes' == hashes;
      OnwardSame(start);
      while parent in pool.prevOrphans
        invariant Valid() && chain.Grown() && Consumed(hashes, hashes') && error.None?
        invariant Pending(first, steps', Now(), [parent] + hashes')
        invariant Traced(first, steps', from, hashes') && ErrorOf(steps').None? && FreedBy(first, steps', parent)
        invariant Onward(false, false, start, Now())
        decreases |pool.orphans.Keys|
      {
        ghost var before := Now();
        var orphanHash, outcome;
        ghost var step;
        orphanHash, outcome, step := AcceptOrphan(parent);
        error := ErrorIn(outcome);
        OnwardAdds(error.Some?, error == Some(Aborted), start, before, Now());
        PoolShrank(before, step);
        OneMoreStep(first, steps', from, step);
        FreedStays(first, steps', step, hashes');
        FreedMore(first, steps', step, parent);
        StillPending(first, steps', from, step, [parent] + hashes');
        assert [parent] + hashes' + [orphanHash] == [parent] + (hashes' + [orphanHash]);
        steps', hashes' := steps' + [step], hashes' + [orphanHash];
        if error.Some? {
          return;
        }
      }
      NobodyWaits(parent, first, steps', hashes');
    }

    lemma {:induction false} StillPending(first: Uint256, steps: seq<Step>, from: Snapshot, step: Step, but: seq<Uint256>)
      requires OrphanStep(step) && Pending(first, steps, step.before, but) && OnlyFreed(first, steps, from, step.before)
      ensures Pending(first, steps + [step], step.after, but + [step.block.header.hash]) && OnlyFreed(first, steps + [step], from, step.after)
    {
      hide HeldAt, HeldOnMove, StopsAt, Next, Full, Blockchain.ExpectedAt, FreedBy;
      forall h: Uint256 ensures FreedBy(first, steps + [step], h) <==> FreedBy(first, steps, h) || h == step.block.header.hash {
        FreedMore(first, steps, step, h);
      }
    }

    lemma {:induction false} FreedMore(first: Uint256, steps: seq<Step>, step: Step, h: Uint256)
      ensures FreedBy(first, steps + [step], h) <==> FreedBy(first, steps, h) || h == step.block.header.hash
    {
      var more := steps + [step];
      assert more[|steps|] == step;
      assert forall j :: 0 <= j < |steps| ==> more[j] == steps[j];
    }

    lemma {:induction false} ParentFreed(first: Uint256, steps: seq<Step>, hashes: seq<Uint256>)
      requires hashes != [] && AllFreed(first, steps, hashes)
      ensures FreedBy(first, steps, hashes[0]) && AllFreed(first, steps, hashes[1..])
    {
    }

    lemma {:induction false} PoolShrank(before: Snapshot, step: Step)
      requires step.before == before && OrphanStep(step)
      ensures step.after.orphans.Keys < before.orphans.Keys && |step.after.orphans.Keys| < |before.orphans.Keys|
    {
      hide StepOk;
      assert step.after.orphans.Keys == before.orphans.Keys - {step.block.header.hash};
      Fewer(step.after.orphans.Keys, before.orphans.Keys);
    }

    /** The orphans that were taken; without an error, nobody is left who waits for the block or for one
        of them. */
    twostate predicate Emptied(hash: Uint256, new steps: seq<Step>, new error: Option<Outcome>)
      reads chain, chain.store, pool
    {
      && OrphanSteps(hash, steps, old(Now()), Now()) && error == ErrorOf(steps)
      && (error.None? ==> Pending(hash, steps, Now(), []) && Waits([hash], []))
    }

    /** Accepts the orphans that wait for a block, then those that wait for them, and so on. */
    method ProcessOrphans(hash: Uint256) returns (error: Option<Outcome>, ghost steps: seq<Step>)
      requires Valid()
      modifies chain, chain.store, chain.index.Values, pool
      ensures Emptied(hash, steps, error)
      ensures Stepped(error)
      ensures Valid()
    {
      hide Valid, NoneWaiting, Onward, OrphanSteps, AllFreed, OnlyFreed, Pending;
      ghost var start := Now();
      OnwardSame(start);
      NoSteps(hash, start);
      error, steps := None, [];
      var processHashes := [hash];
      while processHashes != []
        invariant Valid() && chain.Grown() && Pending(hash, steps, Now(), processHashes)
        invariant Traced(hash, steps, start, processHashes) && error.None? && ErrorOf(steps).None?
        invariant Onward(false, false, start, Now())
        decreases |pool.orphans.Keys|, |processHashes|
      {
        ghost var before := Now();
        processHashes, error, steps := ProcessChildren(processHashes, hash, start, steps);
        Fewer(pool.orphans.Keys, before.orphans.Keys);
        OnwardAdds(error.Some?, error == Some(Aborted), start, before, Now());
        if error.Some? {
          return;
        }
      }
      AllTaken(hash, steps);
    }

    twostate lemma {:induction false} AllTaken(hash: Uint256, new steps: seq<Step>)
      requires OnlyFreed(hash, steps, old(Now()), Now()) && Pending(hash, steps, Now(), []) && Onward(false, false, old(Now()), Now())
      ensures Waits([hash], [])
    {
      hide MissedStay, Progress, MostWork;
    }

    lemma {:induction false} NoSteps(hash: Uint256, at: Snapshot)
      ensures OrphanSteps(hash, [], at, at) && AllFreed(hash, [], [hash]) && Pending(hash, [], at, [hash]) && OnlyFreed(hash, [], at, at)
    {
    }

    lemma {:induction false} Fewer(a: set<Uint256>, b: set<Uint256>)
      ensures a < b ==> |a| < |b|
    {
      if a < b {
        assert b == a + (b - a);
        assert b - a != {};
      }
    }

    // ----- Blocks -----

    /** With nothing pruned from memory, whatever is stored is indexed. */
    method BlockExists(hash: Uint256) returns (known: bool)
      requires chain.Valid()
      ensures known <==> hash in chain.index
    {
      hide Represents;
      if hash in chain.store.db.headers {
        chain.StoredIsIndexed(hash);
      }
      return hash in chain.index || hash in chain.store.db.headers;
    }

    /** The checks on a block that need no parent, with the fees that some stored transactions give. */
    ghost predicate SanityOn(txs: map<Uint256, TxRecord>, block: Block) {
      && TargetInRange(block.header.bits, chain.params.powLimit) && NoDuplicates(block.txs)
      && Shaped(block.txs, chain.asset) && RewardIsFees(txs, block.txs, chain.asset, recharge)
      && otherSanity(block)
    }

    /** The fees are those of the store as it is. */
    ghost predicate SanityOk(block: Block)
      reads chain.store
    {
      SanityOn(chain.store.db.txs, block)
    }

    method PowCheckBlockSanity(block: Block) returns (ok: bool)
      ensures ok <==> SanityOk(block)
    {
      hide NoDuplicates, TargetInRange, FeesUpTo;
      if !TargetInRange(block.header.bits, chain.params.powLimit) || !otherSanity(block) {
        return false;
      }
      ok := CheckReward(chain.store.db.txs, block.txs, chain.asset, recharge);
      if !ok {
        return;
      }
      for i := 0 to |block.txs[0].outputs|
        invariant forall j :: 0 <= j < i ==> block.txs[0].outputs[j].assetId == chain.asset
      {
        if block.txs[0].outputs[i].assetId != chain.asset {
          return false;
        }
      }
      ok := CheckDuplicates(block.txs);
    }

    ghost predicate IsNew(s: Snapshot, block: Block) {
      block.header.hash !in s.chain.index && block.header.hash !in s.orphans
    }

    ghost predicate ParentUnknown(s: Snapshot, block: Block) {
      block.header.previous != chain.emptyHash && block.header.previous !in s.chain.index
    }

    /** A block that was put to the chain failed, or was accepted with the orphans that it set free. */
    ghost predicate Admitted(e: Event) {
      && e.steps != [] && e.steps[0].before == e.before && e.steps[0].block == e.block && BlockStep(e.steps[0])
      && match e.verdict
         case Failed(outcome) => IsError(outcome) && outcome == e.steps[0].outcome && |e.steps| == 1 && e.steps[0].after == e.after
         case Accepted(outcome, error) =>
           && !IsError(outcome) && outcome == e.steps[0].outcome && error == ErrorOf(e.steps[1..])
           && OrphanSteps(e.block.header.hash, e.steps[1..], e.steps[0].after, e.after)
           && (error.None? ==> Pending(e.block.header.hash, e.steps[1..], e.after, []))
         case _ => false
    }

    /** The verdict on a block, why it is given, and what it does.  The reasons exclude each other. */
    ghost predicate EventOk(e: Event) {
      var sane := SanityOn(HeldAt(e.before.chain).txs, e.block);
      match e.verdict
      case Known => !IsNew(e.before, e.block) && e.steps == [] && e.after == e.before
      case Insane => IsNew(e.before, e.block) && !sane && e.steps == [] && e.after == e.before
      case Orphaned =>
        && IsNew(e.before, e.block) && sane && ParentUnknown(e.before, e.block) && e.steps == []
        && e.after == e.before.(orphans := (e.before.orphans - e.evicted)[e.block.header.hash := e.block])
      case _ => IsNew(e.before, e.block) && sane && !ParentUnknown(e.before, e.block) && Admitted(e)
    }

    /** A reorganisation was aborted if and only if that was the outcome of one of the steps. */
    lemma {:induction false} AbortedSteps(e: Event)
      requires EventOk(e)
      ensures HasAborted(e.verdict) <==> exists j :: 0 <= j < |e.steps| && e.steps[j].outcome.Aborted?
    {
      hide OrphanStep, BlockStep, FreedBy, SanityOn, HeldAt;
      if j :| 0 <= j < |e.steps| && e.steps[j].outcome.Aborted? {
        assert j > 0 ==> e.steps[1..][j - 1] == e.steps[j];
      }
      if HasAborted(e.verdict) {
        assert e.steps[|e.steps| - 1].outcome.Aborted?;
      }
    }

    lemma {:induction false} FirstFreed(first: Uint256, steps: seq<Step>, from: Snapshot, to: Snapshot)
      requires OrphanSteps(first, steps, from, to) && steps != []
      ensures var h := steps[0].block.header.hash;
        h in from.orphans && from.orphans[h].header.previous == first
    {
      hide StepOk;
      assert steps[..0] == [];
    }

    /** Without an orphan that waits for it, a block is all there is. */
    lemma {:induction false} NobodyFreed(e: Event)
      requires EventOk(e) && forall h :: h in e.before.orphans ==> e.before.orphans[h].header.previous != e.block.header.hash
      ensures |e.steps| <= 1
    {
      hide StepOk, SanityOn, HeldAt;
      if |e.steps| > 1 {
        var freed := e.steps[1..];
        FirstFreed(e.block.header.hash, freed, e.steps[0].after, e.after);
        assert false;
      }
    }

    /** The block extended the tip. */
    ghost predicate Extends(e: Event) {
      e.verdict.Accepted? && e.verdict.outcome.Extended? && e.steps != []
    }

    /** A block that extends the tip changes the supply of the chain asset by what its recharges bring
        in, or not at all if the store cannot write it. */
    ghost predicate SupplyKept(e: Event)
      requires e.steps != []
    {
      var l, txs := HeldAt(e.before.chain), e.block.txs;
      Supply(HeldAt(e.steps[0].after.chain), chain.asset) ==
        Supply(l, chain.asset) + if RechargesSpendUnspent(l, txs) then RechargedUpTo(l.txs, txs, chain.asset, recharge, |txs|) else 0
    }

    /** Its reward was checked against the ledger that it is attached to. */
    lemma {:induction false} ExtensionConserves(e: Event)
      requires EventOk(e) && Extends(e) && Regular(e.block.txs) && WellFormed(HeldAt(e.before.chain))
      ensures SupplyKept(e)
    {
      hide HeldAt, WellFormed, SwitchesTo, GrewBy, SyncedAt, OrphanSteps, Supply, RechargedUpTo, RechargesSpendUnspent, Writable, Apply, RewardIsFees, NoDuplicates;
      var l, b := HeldAt(e.before.chain), e.block;
      assert Passes(chain.others, l, b) && HeldAt(e.steps[0].after.chain) == Next(l, b);
      forall i | 0 <= i < |b.txs| ensures TxOk(l, b.txs[i]) {
        assert TxPasses(chain.others, l, b.txs[i]);
      }
      ChecksSuffice(l, b);
      if Writable(l, b) {
        ValueConservation(l, b, chain.asset, recharge);
      }
    }

    // ----- Taking in blocks -----

    /** What holds after every block: what the store missed stays; the tip has the most work unless a
        reorganisation was just aborted; no indexed block is lost; and without an error no orphan is
        lost or waits for a known parent. */
    twostate predicate After(new r: Verdict, block: Block)
      reads chain, chain.store, pool
    {
      && chain.Grown() && chain.MissedKept() && chain.WorkAfter(HasAborted(r)) && (!Stuck(r) ==> Waits([], []))
      && (r.Accepted? ==>
            && block.header.hash in chain.index && chain.index[block.header.hash].block == block
            && BlocksKept(r.error.None?, old(pool.orphans)[block.header.hash := block], old(chain.index), pool.orphans, chain.index))
    }

    /** The event is this one. */
    twostate predicate Happened(new e: Event, block: Block, evicted: set<Uint256>, new r: Verdict)
      reads chain, chain.store, pool
    {
      e.before == old(Now()) && e.after == Now() && e.block == block && e.evicted == evicted && e.verdict == r
    }

    /** A new block was put to the chain, and nobody waits for anything but this block now. */
    twostate predicate PutOnly(block: Block, new outcome: Outcome, new step: Step)
      reads chain, chain.store, pool
    {
      && step.before == old(Now()) && step.after == Now() && step.block == block && step.outcome == outcome
      && BlockStep(step) && Waits([], if Untouched(outcome) then [] else [block.header.hash])
      && (!Untouched(outcome) ==> Entered(step))
    }

    /** The block is in the tree now, with what was there. */
    ghost predicate Entered(step: Step) {
      var hash := step.block.header.hash;
      && hash in step.after.chain.index && step.after.chain.index[hash].block == step.block
      && step.after.chain.index == step.before.chain.index[hash := step.after.chain.index[hash]]
    }

    /** Puts a block to the chain. */
    method Put(block: Block) returns (outcome: Outcome, ghost step: Step)
      requires block.header.hash !in chain.index && block.header.hash !in pool.orphans
      requires Valid() && chain.Checked(block)
      modifies chain, chain.store, chain.index.Values
      ensures PutOnly(block, outcome, step) && unchanged(pool)
      ensures chain.Grown() && chain.WorkAfter(outcome.Aborted?) && chain.MissedKept()
      ensures Valid()
    {
      hide Blockchain.Valid, OrphanPool.Valid, Blockchain.Checked, Progress, MostWork, MissedStay, Blockchain.ExpectedAt, HeldAt, HeldOnMove, StopsAt, Next, Full;
      ghost var before := Now();
      outcome := chain.MaybeAcceptBlock(block);
      step := Step(before, block, outcome, Now());
    }

    /** Accepts a block whose parent is known, and the orphans that waited for it. */
    method Admit(block: Block, ghost evicted: set<Uint256>) returns (r: Verdict, ghost e: Event)
      requires block.header.hash !in chain.index && block.header.hash !in pool.orphans
      requires Valid() && chain.Checked(block)
      modifies chain, chain.store, chain.index.Values, pool
      ensures Happened(e, block, evicted, r) && Admitted(e)
      ensures After(r, block)
      ensures Valid()
    {
      hide Valid, Blockchain.Checked, Progress, MostWork, BlocksKept, MissedStay, StepOk, OrphanSteps, NoneWaiting;
      ghost var before := Now();
      var outcome;
      ghost var step;
      outcome, step := Put(block);
      ghost var middle := Now();
      if IsError(outcome) {
        r := Failed(outcome);
        e := Event(before, block, evicted, r, [step], middle);
        return;
      }
      var error;
      ghost var steps;
      error, steps := ProcessOrphans(block.header.hash);
      BlockKept(step, error, Now());
      MissedAdds(before.chain.best, middle.chain.best, chain.bestChain);
      if error != Some(Aborted) {
        ProgressAdds(before.chain.index.Values, before.chain.best, middle.chain.index.Values, middle.chain.best, chain.index.Values, chain.bestChain);
      }
      r := Accepted(outcome, error);
      assert ([step] + steps)[1..] == steps;
      e := Event(before, block, evicted, r, [step] + steps, Now());
    }

    lemma {:induction false} BlockKept(step: Step, error: Option<Outcome>, now: Snapshot)
      requires step.block.header.hash !in step.before.orphans && step.block.header.hash !in step.before.chain.index
      requires Entered(step)
      requires BlocksKept(error.None?, step.before.orphans, step.after.chain.index, now.orphans, now.chain.index)
      ensures var hash := step.block.header.hash;
        && hash in now.chain.index && now.chain.index[hash].block == step.block
        && BlocksKept(error.None?, step.before.orphans[hash := step.block], step.before.chain.index, now.orphans, now.chain.index)
    {
    }

    /** Takes in a block.  `evicted` are the orphans that expired or make room for it if it is one. */
    method ProcessBlock(block: Block, evicted: set<Uint256>) returns (r: Verdict, ghost e: Event)
      requires Valid() && Regular(block.txs)
      modifies chain, chain.store, chain.index.Values, pool
      ensures Happened(e, block, evicted, r) && EventOk(e) && (Extends(e) ==> SupplyKept(e))
      ensures After(r, block)
      ensures Valid()
    {
      hide Valid, Blockchain.Valid, SanityOn, Regular, SupplyKept, WellFormed, MostWork, BlocksKept, MissedStay, HeldAt, Admitted, NoneWaiting, Progress, Blockchain.Checked;
      MissedSame(chain.bestChain);
      NoProgress(chain.index.Values, chain.bestChain);
      StoredTxs();
      ghost var before := Now();
      var known := BlockExists(block.header.hash);
      if known || block.header.hash in pool.orphans {
        r, e := Known, Event(before, block, evicted, Known, [], Now());
        return;
      }
      var sane := PowCheckBlockSanity(block);
      if !sane {
        r, e := Insane, Event(before, block, evicted, Insane, [], Now());
        return;
      }
      SanityChecks(block);
      r, e := PlaceBlock(block, evicted);
      if Extends(e) {
        ExtensionConserves(e);
      }
    }

    lemma {:induction false} StoredTxs()
      requires Valid()
      ensures chain.Valid() && HeldAt(chain.State()).txs == chain.store.db.txs && WellFormed(HeldAt(chain.State()))
    {
      hide OrphanPool.Valid, OrphansApart, Blockchain.Valid, HeldAt, WellFormed, Represents;
      chain.HeldNow();
      chain.TxsHeld();
    }

    method KeepOrphan(block: Block, evicted: set<Uint256>)
      requires block.header.hash !in chain.index && block.header.hash !in pool.orphans && block.header.previous !in chain.index
      requires Valid() && chain.Checked(block)
      modifies pool
      ensures pool.orphans == (old(pool.orphans) - evicted)[block.header.hash := block] && Waits([], [])
      ensures Valid()
    {
      hide Blockchain.Valid, OrphanPool.Valid, Blockchain.Checked;
      pool.AddOrphanBlock(block, evicted);
    }

    /** Keeps a block whose parent is not known as an orphan, and accepts any other. */
    method PlaceBlock(block: Block, evicted: set<Uint256>) returns (r: Verdict, ghost e: Event)
      requires block.header.hash !in chain.index && block.header.hash !in pool.orphans
      requires Valid() && SanityOn(HeldAt(chain.State()).txs, block) && chain.Checked(block)
      modifies chain, chain.store, chain.index.Values, pool
      ensures Happened(e, block, evicted, r) && EventOk(e)
      ensures After(r, block)
      ensures Valid()
    {
      hide Valid, Blockchain.Valid, Blockchain.Checked, SanityOn, MostWork, BlocksKept, MissedStay, HeldAt, BlockStep, OrphanSteps, Progress, NoneWaiting;
      StoredTxs();
      MissedSame(chain.bestChain);
      NoProgress(chain.index.Values, chain.bestChain);
      ghost var before := Now();
      if block.header.previous != chain.emptyHash {
        var known := BlockExists(block.header.previous);
        if !known {
          KeepOrphan(block, evicted);
          r, e := Orphaned, Event(before, block, evicted, Orphaned, [], Now());
          return;
        }
      }
      r, e := Admit(block, evicted);
    }

    lemma {:induction false} SanityChecks(block: Block)
      requires SanityOk(block) && Regular(block.txs)
      ensures chain.Checked(block)
    {
    }

    // ----- Whole runs -----

    /** The block was dealt with as the state before it demands. */
    ghost predicate Handled(e: Event, block: Block, evicted: set<Uint256>) {
      e.block == block && e.evicted == evicted && EventOk(e) && (Extends(e) ==> SupplyKept(e))
    }

    /** One event for each block, in order, from one state to another. */
    ghost predicate History(events: seq<Event>, blocks: seq<Block>, evicted: seq<set<Uint256>>, from: Snapshot, to: Snapshot)
      requires |blocks| == |evicted|
    {
      && |events| == |blocks|
      && (if events == [] then to == from else events[0].before == from && events[|events| - 1].after == to)
      && (forall i :: 0 <= i < |events| - 1 ==> events[i].after == events[i + 1].before)
      && forall i :: 0 <= i < |events| ==> Handled(events[i], blocks[i], evicted[i])
    }

    /** Some step of some event was an aborted reorganisation. */
    ghost predicate SomeAborted(events: seq<Event>) {
      exists i :: 0 <= i < |events| && AbortedIn(events[i])
    }

    ghost predicate AbortedIn(e: Event) {
      exists j :: 0 <= j < |e.steps| && e.steps[j].outcome.Aborted?
    }

    /** A whole run: every block is dealt with as the state before it demands; whatever blocks arrive, in
        whatever order, the chain stays valid; what the store missed stays on the main chain; and unless a
        reorganisation was aborted on the way, the tip has the most work and never lost any. */
    method Run(blocks: seq<Block>, evicted: seq<set<Uint256>>) returns (aborted: bool, ghost events: seq<Event>)
      requires |blocks| == |evicted| && forall i :: 0 <= i < |blocks| ==> Regular(blocks[i].txs)
      requires Valid()
      modifies chain, chain.store, chain.index.Values, pool
      ensures History(events, blocks, evicted, old(Now()), Now())
      ensures aborted <==> SomeAborted(events)
      ensures chain.MissedKept() && (!aborted ==> chain.WorkAfter(false))
      ensures Valid()
    {
      hide Valid, Regular, Progress, MostWork, NoneWaiting, EventOk, Extends, SupplyKept, MissedStay, BlocksKept;
      ghost var start := Now();
      NoProgress(start.chain.index.Values, start.chain.best);
      MissedSame(start.chain.best);
      aborted, events := false, [];
      for i := 0 to |blocks|
        invariant Valid() && chain.Grown()
        invariant History(events, blocks[..i], evicted[..i], start, Now()) && (aborted <==> SomeAborted(events))
        invariant !aborted ==> Progress(start.chain.index.Values, start.chain.best, chain.index.Values, chain.bestChain)
        invariant MissedStay(start.chain.best, chain.bestChain)
      {
        ghost var before := Now();
        var r;
        ghost var e;
        r, e := ProcessBlock(blocks[i], evicted[i]);
        OneMoreEvent(events, blocks, evicted, i, start, e);
        aborted, events := aborted || HasAborted(r), events + [e];
        MissedAdds(start.chain.best, before.chain.best, chain.bestChain);
        if !aborted {
          ProgressAdds(start.chain.index.Values, start.chain.best, before.chain.index.Values, before.chain.best, chain.index.Values, chain.bestChain);
        }
      }
      assert blocks[..|blocks|] == blocks && evicted[..|evicted|] == evicted;
    }

    lemma {:induction false} OneMoreEvent(events: seq<Event>, blocks: seq<Block>, evicted: seq<set<Uint256>>, n: nat, from: Snapshot, e: Event)
      requires n < |blocks| == |evicted| && History(events, blocks[..n], evicted[..n], from, e.before)
      requires Handled(e, blocks[n], evicted[n])
      ensures History(events + [e], blocks[..n + 1], evicted[..n + 1], from, e.after)
      ensures SomeAborted(events + [e]) <==> SomeAborted(events) || HasAborted(e.verdict)
    {
      hide EventOk, Extends, SupplyKept;
      AbortedSteps(e);
      hide Handled;
      var more := events + [e];
      assert forall i :: 0 <= i < |events| ==> more[i] == events[i];
      assert more[|events|] == e;
      if SomeAborted(events) {
        var i :| 0 <= i < |events| && AbortedIn(events[i]);
        assert AbortedIn(more[i]);
      }
      if HasAborted(e.verdict) {
        assert AbortedIn(more[|events|]);
      }
    }
  }
}
