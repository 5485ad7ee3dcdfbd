/** What a light client gets for a block: the filter, the builder and the checker together. */
module LightClients {
  import opened Core
  import opened Ledgers
  import opened MerkleTree
  import opened MerkleBuilder
  import opened Bloom

  lemma {:induction false} MatchedIn(leaves: seq<Hash>, matches: seq<bool>, lo: nat, i: nat)
    requires lo <= i < |leaves| == |matches|
    ensures matches[i] ==> leaves[i] in MatchedLeaves(leaves, matches, lo, |leaves|)
    decreases i - lo
  {
    if lo < i {
      MatchedIn(leaves, matches, lo + 1, i);
    }
  }

  /** The client accepts the message for a block, and finds in it every transaction that its filter
      has or that spends, within the block, what pays to an address of the filter. */
  method Serve(filter: Filter, pair: PairHash, txs: seq<Tx>) returns (res: Checked, ghost matched: seq<bool>)
    requires filter.Valid() && CollisionFree(pair) && NoDup(TxHashes(txs)) && 1 <= |txs| <= 0x8000_0000
    modifies filter.data
    ensures |matched| == |txs| && res == Accept(MatchedLeaves(TxHashes(txs), matched, 0, |txs|))
    ensures forall i :: 0 <= i < |txs| && old(filter.Relevant(txs[i])) ==> txs[i].hash in res.found
    ensures forall i, j :: 0 <= i < j < |txs| && old(filter.Follows(txs[i], txs[j])) ==> txs[j].hash in res.found
  {
    hide CollisionFree, MatchedLeaves, Filter.Relevant, Filter.Follows, Filter.Keeps;
    var flags := filter.MatchAll(txs);
    matched := flags;
    var hashes := TxHashes(txs);
    res := BuildThenCheck(pair, hashes, flags);
    forall i | 0 <= i < |txs| && matched[i] ensures txs[i].hash in MatchedLeaves(hashes, matched, 0, |txs|) {
      MatchedIn(hashes, matched, 0, i);
    }
  }
}
