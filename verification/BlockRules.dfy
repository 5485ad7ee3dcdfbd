/** The rules for a block that depend on its place in the chain. */
module BlockRules {
  import opened Core
  import opened Difficulty
  import opened HeaderChains

  /** A transaction may be in a block if it is not locked, if its lock is over, or if none of its
      inputs asks to observe the lock. */
  predicate Finalized(tx: Tx, height: nat) {
    tx.lockTime == 0 || tx.lockTime < height || forall i :: 0 <= i < |tx.inputs| ==> tx.inputs[i].sequence == 0xffff
  }

  method IsFinalizedTransaction(tx: Tx, blockHeight: nat) returns (ok: bool)
    ensures ok <==> Finalized(tx, blockHeight)
    ensures (exists i :: 0 <= i < |tx.inputs| && tx.inputs[i].sequence != 0xffff) ==> (ok <==> tx.lockTime == 0 || blockHeight > tx.lockTime)
    ensures (forall i :: 0 <= i < |tx.inputs| ==> tx.inputs[i].sequence == 0xffff) ==> ok
  {
    if tx.lockTime == 0 || tx.lockTime < blockHeight {
      return true;
    }
    for i := 0 to |tx.inputs|
      invariant forall j :: 0 <= j < i ==> tx.inputs[j].sequence == 0xffff
    {
      if tx.inputs[i].sequence != 0xffff {
        return false;
      }
    }
    return true;
  }

  ghost predicate AllFinalized(txs: seq<Tx>, height: nat) {
    forall i :: 1 <= i < |txs| ==> Finalized(txs[i], height)
  }

  /** A block may follow the chain: it carries the required target, is newer than the median of the
      last blocks, and all its transactions but the coinbase are final. */
  ghost predicate ContextRules(p: ChainParams, chain: seq<Header>, block: Block) {
    && GoodParams(p) && chain != [] && CompactToBig(chain[|chain| - 1].bits) >= 0
    && block.header.bits == NextBits(p, chain)
    && block.header.timestamp > MedianTime(chain)
    && AllFinalized(block.txs, |chain|)
  }

  method PowCheckBlockContext(p: ChainParams, chain: seq<Header>, block: Block) returns (ok: bool)
    requires GoodParams(p) && Linked(chain) && |chain| < 0x1_0000_0000
    requires CompactToBig(chain[|chain| - 1].bits) >= 0 && block.txs != []
    ensures ok <==> ContextRules(p, chain, block)
  {
    hide CompactToBig, NextBits, MedianTime, GoodParams, Finalized;
    var expectedDifficulty := CalcNextRequiredDifficulty(p, chain);
    if expectedDifficulty.None? || block.header.bits != expectedDifficulty.value {
      return false;
    }
    var medianTime := CalcPastMedianTime(chain);
    if block.header.timestamp <= medianTime {
      return false;
    }
    for i := 1 to |block.txs|
      invariant forall j :: 1 <= j < i ==> Finalized(block.txs[j], |chain|)
    {
      var final := IsFinalizedTransaction(block.txs[i], |chain|);
      if !final {
        return false;
      }
    }
    return true;
  }

  /** A chain whose blocks all obey the rules is one that the target and median theorems are about. */
  ghost predicate Obeys(p: ChainParams, chain: seq<Block>)
  {
    forall i :: 1 <= i < |chain| ==> ContextRules(p, HeadersOf(chain[..i]), chain[i])
  }

  ghost function HeadersOf(chain: seq<Block>): seq<Header> {
    seq(|chain|, i requires 0 <= i < |chain| => chain[i].header)
  }

  lemma {:induction false} ObeyedRules(p: ChainParams, chain: seq<Block>)
    requires GoodParams(p) && Linked(HeadersOf(chain)) && Obeys(p, chain)
    ensures Accepted(p, HeadersOf(chain)) && TimesAdvance(HeadersOf(chain))
  {
    hide CompactToBig, NextBits, MedianTime, GoodParams;
    forall i | 1 <= i < |chain|
      ensures CarriesNextBits(p, HeadersOf(chain), i) && MedianTime(HeadersOf(chain)[..i]) < HeadersOf(chain)[i].timestamp
    {
      assert HeadersOf(chain[..i]) == HeadersOf(chain)[..i];
      assert ContextRules(p, HeadersOf(chain[..i]), chain[i]);
    }
  }
}
