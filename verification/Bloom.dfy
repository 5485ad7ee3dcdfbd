/** The Bloom filter that a light client loads: it may match too much, but never too little. */
module Bloom {
  import opened Core
  import opened Words

  /** How hashes, addresses and outpoints are written out, and the hash function on bytes. */
  datatype Encoding = Encoding(
    ofHash: Uint256 -> Bytes,
    ofAddress: Uint168 -> Bytes,
    ofOutPoint: OutPoint -> Bytes,
    murmur: (uint32, Bytes) -> uint32)

  // ----- Bits of a byte -----

  predicate Bit(b: byte, k: nat) {
    Shr(b, k) % 2 == 1
  }

  /** Masking a byte with a shifted one tests a bit. */
  lemma {:induction false} Tested(b: byte, k: nat)
    requires k < 8
    ensures And(b, Shl(1, k)) != 0 <==> Bit(b, k)
  {
    ShlPow2(k);
    TestBit(b, k);
  }

  /** Or with a shifted one sets that bit, and no other. */
  lemma {:induction false} Joined(b: byte, k: nat)
    requires k < 8
    ensures Or(b, Shl(1, k)) < 0x100
    ensures forall i: nat :: Bit(Or(b, Shl(1, k)), i) <==> Bit(b, i) || i == k
  {
    hide Shr, Or, Shl;
    ShlPow2(k);
    assert Pow2(8) == 0x100;
    hide Pow2;
    Pow2Monotone(k + 1, 8);
    PowBelow(k);
    OrBelow(b, Pow2(k), 8);
    forall i: nat ensures Bit(Or(b, Shl(1, k)), i) <==> Bit(b, i) || i == k {
      OrBit(b, Pow2(k), i);
      BitOfPow2(k, i);
    }
  }

  lemma {:induction false} PowBelow(k: nat)
    ensures Pow2(k) < Pow2(k + 1)
  {
  }

  class Filter {
    const loaded: bool
    const data: array<byte>
    const hashFuncs: uint32
    const tweak: uint32
    const enc: Encoding

    /** A filter that was loaded has some bytes, at most as many as the protocol allows. */
    ghost predicate Valid() {
      loaded ==> 0 < data.Length <= 36000
    }

    constructor LoadFilter(data: array<byte>, hashFuncs: uint32, tweak: uint32, enc: Encoding)
      requires 0 < data.Length <= 36000
      ensures Valid() && loaded && this.data == data && this.hashFuncs == hashFuncs && this.tweak == tweak && this.enc == enc
    {
      this.loaded, this.data, this.hashFuncs, this.tweak, this.enc := true, data, hashFuncs, tweak, enc;
    }

    /** The bit for a hash function, by its number. */
    function Hash(hashNum: uint32, bytes: Bytes): (idx: nat)
      requires Valid() && loaded
      ensures idx < 8 * data.Length
    {
      enc.murmur((hashNum * 0xfba4_c795 + tweak) % 0x1_0000_0000, bytes) % (8 * data.Length)
    }

    ghost predicate IsSet(idx: nat)
      requires idx < 8 * data.Length
      reads data
    {
      Bit(data[idx / 8], idx % 8)
    }

    /** All bits for the bytes are set. */
    ghost predicate Has(bytes: Bytes)
      requires Valid()
      reads data
    {
      loaded && forall i: nat :: i < hashFuncs ==> IsSet(Hash(i, bytes))
    }

    method Matches(bytes: Bytes) returns (r: bool)
      requires Valid()
      ensures r <==> Has(bytes)
      ensures r <==> loaded && forall i: nat, idx: nat :: i < hashFuncs && idx == Hash(i, bytes) ==> Shr(data[idx / 8], idx % 8) % 2 == 1
    {
      hide And, Shl, Shr;
      if !loaded {
        return false;
      }
      for i := 0 to hashFuncs
        invariant forall j: nat :: j < i ==> IsSet(Hash(j, bytes))
      {
        var idx := Hash(i, bytes);
        Tested(data[idx / 8], idx % 8);
        if And(data[idx / 8], Shl(1, idx % 8)) == 0 {
          return false;
        }
      }
      return true;
    }

    /** Sets one bit, and leaves all others alone. */
    method SetBit(idx: nat)
      requires idx < 8 * data.Length
      modifies data
      ensures forall k: nat :: k < 8 * data.Length ==> (IsSet(k) <==> old(IsSet(k)) || k == idx)
    {
      hide Bit, Or, Shl;
      Joined(data[idx / 8], idx % 8);
      data[idx / 8] := Or(data[idx / 8], Shl(1, idx % 8));
    }

    /** Nothing that was in the filter is lost. */
    twostate predicate Keeps()
      requires Valid()
      reads data
    {
      forall bytes :: old(Has(bytes)) ==> Has(bytes)
    }

    method Add(bytes: Bytes)
      requires Valid()
      modifies data
      ensures loaded ==> Has(bytes)
      ensures loaded ==> forall k: nat :: k < 8 * data.Length ==> (IsSet(k) <==> old(IsSet(k)) || exists i: nat :: i < hashFuncs && k == Hash(i, bytes))
      ensures Keeps()
      ensures !loaded ==> unchanged(data)
    {
      hide Bit;
      if !loaded {
        return;
      }
      for i := 0 to hashFuncs
        invariant forall k: nat :: k < 8 * data.Length ==> (IsSet(k) <==> old(IsSet(k)) || exists j: nat :: j < i && k == Hash(j, bytes))
      {
        SetBit(Hash(i, bytes));
      }
    }

    // ----- Transactions -----

    ghost predicate HasAddress(tx: Tx, i: nat)
      requires Valid() && i < |tx.outputs|
      reads data
    {
      Has(enc.ofAddress(tx.outputs[i].programHash))
    }

    ghost predicate HasOutPoint(op: OutPoint)
      requires Valid()
      reads data
    {
      Has(enc.ofOutPoint(op))
    }

    ghost predicate PaysTo(tx: Tx, n: nat)
      requires Valid() && n <= |tx.outputs|
      reads data
    {
      exists i :: 0 <= i < n && HasAddress(tx, i)
    }

    ghost predicate Spends(tx: Tx)
      requires Valid()
      reads data
    {
      exists j :: 0 <= j < |tx.inputs| && HasOutPoint(tx.inputs[j].previous)
    }

    /** The filter has the hash of the transaction, an address it pays to, or an output it spends. */
    ghost predicate Relevant(tx: Tx)
      requires Valid()
      reads data
    {
      Has(enc.ofHash(tx.hash)) || PaysTo(tx, |tx.outputs|) || Spends(tx)
    }

    /** The bit is one of those for an output, among the first `n`, that pays to an address in the filter. */
    ghost predicate ForOutput(tx: Tx, n: nat, k: nat)
      requires Valid() && n <= |tx.outputs|
      reads data
    {
      loaded && exists i, f: nat :: 0 <= i < n && f < hashFuncs && HasAddress(tx, i) && k == Hash(f, enc.ofOutPoint(OutputOf(tx, i)))
    }

    /** No bit was set but those for such outputs. */
    twostate predicate OnlyOutputs(tx: Tx, n: nat)
      requires Valid() && n <= |tx.outputs|
      reads data
    {
      forall k: nat :: k < 8 * data.Length && IsSet(k) && !old(IsSet(k)) ==> ForOutput(tx, n, k)
    }

    /** Adds one output that pays to an address in the filter. */
    method AddOutPoint(tx: Tx, n: nat)
      requires Valid() && loaded && n < |tx.outputs| && HasAddress(tx, n)
      modifies data
      ensures Keeps() && HasOutPoint(OutputOf(tx, n))
      ensures forall k: nat :: k < 8 * data.Length && old(ForOutput(tx, n, k)) ==> ForOutput(tx, n + 1, k)
      ensures OnlyOutputs(tx, n + 1)
    {
      hide Has, IsSet;
      Add(enc.ofOutPoint(OutputOf(tx, n)));
      assert HasAddress(tx, n);
      forall k: nat | k < 8 * data.Length && old(ForOutput(tx, n, k)) ensures ForOutput(tx, n + 1, k) {
        var i, f: nat :| 0 <= i < n && f < hashFuncs && old(HasAddress(tx, i)) && k == Hash(f, enc.ofOutPoint(OutputOf(tx, i)));
        assert HasAddress(tx, i);
      }
    }

    /** Adds the outputs that pay to an address in the filter. */
    method MatchOutputs(tx: Tx, start: bool) returns (matched: bool)
      requires Valid()
      modifies data
      ensures matched <==> start || old(PaysTo(tx, |tx.outputs|))
      ensures Keeps()
      ensures forall i :: 0 <= i < |tx.outputs| && old(HasAddress(tx, i)) ==> HasOutPoint(OutputOf(tx, i))
      ensures OnlyOutputs(tx, |tx.outputs|)
      ensures !matched ==> data[..] == old(data[..])
    {
      hide Has, IsSet;
      matched := start;
      for i := 0 to |tx.outputs|
        invariant Keeps()
        invariant start || old(PaysTo(tx, i)) ==> matched
        invariant matched ==> start || old(PaysTo(tx, |tx.outputs|))
        invariant forall j :: 0 <= j < i && old(HasAddress(tx, j)) ==> HasOutPoint(OutputOf(tx, j))
        invariant OnlyOutputs(tx, i)
        invariant !old(PaysTo(tx, i)) ==> data[..] == old(data[..])
      {
        var matches := Matches(enc.ofAddress(tx.outputs[i].programHash));
        if matches {
          if !old(PaysTo(tx, i)) {
            SameBits();
            assert old(HasAddress(tx, i));
          }
          assert old(PaysTo(tx, i + 1));
          matched := true;
          AddOutPoint(tx, i);
        }
      }
    }

    /** Equal bytes hold the same. */
    twostate lemma SameBits()
      requires Valid() && data[..] == old(data[..])
      ensures forall bytes :: old(Has(bytes)) <==> Has(bytes)
    {
      assert forall i :: 0 <= i < data.Length ==> data[..][i] == old(data[..])[i];
    }

    method MatchTxAndUpdate(tx: Tx) returns (r: bool)
      requires Valid()
      modifies data
      ensures r <==> old(Relevant(tx))
      ensures Keeps()
      ensures forall i :: 0 <= i < |tx.outputs| && old(HasAddress(tx, i)) ==> HasOutPoint(OutputOf(tx, i))
      ensures OnlyOutputs(tx, |tx.outputs|)
      ensures !r ==> data[..] == old(data[..])
    {
      hide Has, IsSet;
      r := Matches(enc.ofHash(tx.hash));
      r := MatchOutputs(tx, r);
      if !r {
        SameBits();
        r := MatchInputs(tx);
      }
    }

    method MatchInputs(tx: Tx) returns (r: bool)
      requires Valid()
      ensures r <==> Spends(tx)
    {
      hide Has, IsSet;
      for j := 0 to |tx.inputs|
        invariant forall k :: 0 <= k < j ==> !HasOutPoint(tx.inputs[k].previous)
      {
        r := Matches(enc.ofOutPoint(tx.inputs[j].previous));
        if r {
          return;
        }
      }
      return false;
    }

    // ----- Blocks -----

    twostate lemma RelevantKept(tx: Tx)
      requires Valid() && Keeps()
      ensures old(Relevant(tx)) ==> Relevant(tx)
    {
      hide Has, IsSet;
      if old(PaysTo(tx, |tx.outputs|)) {
        var i :| 0 <= i < |tx.outputs| && old(HasAddress(tx, i));
        assert HasAddress(tx, i);
      }
      if old(Spends(tx)) {
        var j :| 0 <= j < |tx.inputs| && old(HasOutPoint(tx.inputs[j].previous));
        assert HasOutPoint(tx.inputs[j].previous);
      }
    }

    /** One transaction spends an output of another that pays to an address in the filter. */
    ghost predicate Follows(tx: Tx, next: Tx)
      requires Valid()
      reads data
    {
      exists i, j :: 0 <= i < |tx.outputs| && 0 <= j < |next.inputs| && HasAddress(tx, i) &&
        next.inputs[j].previous.txId == tx.hash && next.inputs[j].previous.index == i % 0x1_0000
    }

    /** The match flags of the transactions of a block, or of many blocks one after the other: what is
        relevant to the filter at the start, or spends what pays to it, is matched. */
    method MatchAll(txs: seq<Tx>) returns (matched: seq<bool>)
      requires Valid()
      modifies data
      ensures |matched| == |txs| && Keeps()
      ensures forall i :: 0 <= i < |txs| && old(Relevant(txs[i])) ==> matched[i]
      ensures forall i, j :: 0 <= i < j < |txs| && old(Follows(txs[i], txs[j])) ==> matched[j]
    {
      hide Has, IsSet;
      matched := [];
      for n := 0 to |txs|
        invariant |matched| == n && Keeps()
        invariant forall i, o :: 0 <= i < n && 0 <= o < |txs[i].outputs| && old(HasAddress(txs[i], o)) ==> HasOutPoint(OutputOf(txs[i], o))
        invariant forall i :: 0 <= i < n && old(Relevant(txs[i])) ==> matched[i]
        invariant forall i, j :: 0 <= i < j < n && old(Follows(txs[i], txs[j])) ==> matched[j]
      {
        RelevantKept(txs[n]);
        var r := MatchTxAndUpdate(txs[n]);
        matched := matched + [r];
      }
    }
  }

  /** An output as later transactions refer to it. */
  function OutputOf(tx: Tx, i: nat): OutPoint {
    OutPoint(tx.hash, i % 0x1_0000)
  }
}
