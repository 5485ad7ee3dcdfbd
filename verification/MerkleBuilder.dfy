/** Building a merkle block message: the recursive traversal that appends to two lists, and the
    packing of flag bits into bytes.  Together with the checker it gives the round trip on messages. */
module MerkleBuilder {
  import opened Words
  import opened Core
  import opened MerkleTree
  import opened MerkleBlocks

  // ----- Packing -----

  /** Bit `j` of a byte, read as `FlagBits` reads it. */
  predicate BitOf(x: nat, j: nat) {
    Shr(x, j) % 2 == 1
  }

  /** The bits of a byte below 2^(r+1) after bit `r` was set or left clear in a byte below 2^r. */
  lemma {:induction false} SetBit(x: nat, r: nat, bit: bool, j: nat)
    requires x < Pow2(r)
    ensures var y := Or(x, if bit then Pow2(r) else 0);
      && y < Pow2(r + 1)
      && (BitOf(y, j) <==> if j < r then BitOf(x, j) else j == r && bit)
  {
    var y := Or(x, if bit then Pow2(r) else 0);
    if bit {
      OrAbove(x, r);
      if j < r {
        ShrBelow(x, r, j);
      } else if j == r {
        ShrTop(x, r);
      } else {
        Pow2Monotone(r + 1, j);
        ShrSmall(y, j);
      }
    } else {
      OrZero(x);
      if j >= r {
        Pow2Monotone(r, j);
        ShrSmall(x, j);
      }
    }
  }

  /** The first bits of the flag bytes are the given bits, and the padding is zero. */
  ghost predicate Packs(flags: seq<byte>, bits: seq<bool>) {
    && |flags| == (|bits| + 7) / 8
    && forall j :: 0 <= j < 8 * |flags| ==> (FlagBits(flags)[j] <==> j < |bits| && bits[j])
  }

  lemma {:induction false} PacksPrefix(flags: seq<byte>, bits: seq<bool>)
    requires Packs(flags, bits)
    ensures FlagBits(flags) == bits + FlagBits(flags)[|bits|..]
  {
  }

  /** Byte `b` holds the bits with indices `8b .. 8b+8` that are below `i`. */
  ghost predicate ByteHolds(x: nat, bits: seq<bool>, b: nat, i: nat) {
    forall r: nat :: r < 8 ==> (BitOf(x, r) <==> 8 * b + r < i && 8 * b + r < |bits| && bits[8 * b + r])
  }

  lemma {:induction false} ByteHoldsNext(x: nat, bits: seq<bool>, b: nat, r: nat)
    requires r < 8 && x < Pow2(r) && 8 * b + r < |bits|
    requires ByteHolds(x, bits, b, 8 * b + r)
    ensures ByteHolds(Or(x, if bits[8 * b + r] then Pow2(r) else 0), bits, b, 8 * b + r + 1)
    ensures Or(x, if bits[8 * b + r] then Pow2(r) else 0) < Pow2(r + 1)
  {
    var y := Or(x, if bits[8 * b + r] then Pow2(r) else 0);
    SetBit(x, r, bits[8 * b + r], 0);
    forall j: nat | j < 8 ensures BitOf(y, j) <==> 8 * b + j < 8 * b + r + 1 && bits[8 * b + j] {
      SetBit(x, r, bits[8 * b + r], j);
    }
  }

  lemma {:induction false} ByteHoldsOther(x: nat, bits: seq<bool>, b: nat, i: nat)
    requires b != i / 8 && ByteHolds(x, bits, b, i)
    ensures ByteHolds(x, bits, b, i + 1)
  {
  }

  lemma {:induction false} ZeroByteHolds(bits: seq<bool>, b: nat)
    ensures ByteHolds(0, bits, b, 0)
  {
    forall r: nat | r < 8 ensures !BitOf(0, r) {
      ShrSmall(0, r);
    }
  }

  lemma {:induction false} PacksBytes(flags: seq<byte>, bits: seq<bool>)
    requires |flags| == (|bits| + 7) / 8
    requires forall b :: 0 <= b < |flags| ==> ByteHolds(flags[b], bits, b, |bits|)
    ensures Packs(flags, bits)
  {
    forall j | 0 <= j < 8 * |flags| ensures FlagBits(flags)[j] <==> j < |bits| && bits[j] {
      assert j == 8 * (j / 8) + j % 8;
      assert ByteHolds(flags[j / 8], bits, j / 8, |bits|);
      assert FlagBits(flags)[j] <==> BitOf(flags[j / 8], j % 8);
    }
  }

  /** The flag bytes after the first `i` bits were stored. */
  ghost predicate Packing(flags: seq<byte>, bits: seq<bool>, i: nat) {
    && (forall b :: 0 <= b < |flags| ==> ByteHolds(flags[b], bits, b, i))
    && (i / 8 < |flags| ==> flags[i / 8] < Pow2(i % 8))
    && (forall b :: i / 8 < b < |flags| ==> flags[b] == 0)
  }

  lemma {:induction false} PackNext(flags: seq<byte>, bits: seq<bool>, i: nat)
    requires Packing(flags, bits, i) && i < |bits| && i / 8 < |flags|
    ensures var y := Or(flags[i / 8], if bits[i] then Pow2(i % 8) else 0);
      y < 256 && Packing(flags[i / 8 := y], bits, i + 1)
  {
    var b, r := i / 8, i % 8;
    var y := Or(flags[b], if bits[i] then Pow2(r) else 0);
    assert i == 8 * b + r;
    ByteHoldsNext(flags[b], bits, b, r);
    Pow2Monotone(r + 1, 8);
    assert Pow2(8) == 256;
    var flags': seq<byte> := flags[b := y];
    forall b' | 0 <= b' < |flags'| ensures ByteHolds(flags'[b'], bits, b', i + 1) {
      if b' != b {
        ByteHoldsOther(flags[b'], bits, b', i);
      }
    }
    assert (i + 1) / 8 == if r == 7 then b + 1 else b;
  }

  method PackFlags(bits: seq<bool>) returns (flags: array<byte>)
    ensures fresh(flags) && Packs(flags[..], bits)
  {
    flags := new byte[(|bits| + 7) / 8](_ => 0);
    assert Packing(flags[..], bits, 0) by {
      forall b | 0 <= b < flags.Length ensures ByteHolds(flags[b], bits, b, 0) {
        ZeroByteHolds(bits, b);
      }
    }
    var i := 0;
    while i < |bits|
      invariant 0 <= i <= |bits|
      invariant Packing(flags[..], bits, i)
    {
      ghost var was := flags[..];
      PackNext(was, bits, i);
      flags[i / 8] := Or(flags[i / 8], if bits[i] then Pow2(i % 8) else 0);
      assert flags[..] == was[i / 8 := flags[i / 8]];
      i := i + 1;
    }
    PacksBytes(flags[..], bits);
  }

  // ----- Traversal -----

  /** The number of nodes of a row, on 32-bit words. */
  function CalcTreeWidth(numTx: uint32, height: nat): nat {
    Shr((numTx + Shl(1, height) + MOD32 - 1) % MOD32, height)
  }

  lemma {:induction false} WidthOfHalf(n: nat, h: nat)
    ensures Width(n, h + 1) == Width((n + 1) / 2, h)
  {
    if h > 0 {
      WidthOfHalf(n, h - 1);
    }
  }

  lemma {:induction false} WidthIsCeiling(n: nat, h: nat)
    requires n > 0
    ensures Width(n, h) == Shr(n + Pow2(h) - 1, h)
    decreases h
  {
    if h > 0 {
      WidthOfHalf(n, h - 1);
      var half := (n + 1) / 2;
      WidthIsCeiling(half, h - 1);
      assert (n + Pow2(h) - 1) / 2 == half + Pow2(h - 1) - 1;
    }
  }

  lemma {:induction false} TreeWidth(n: uint32, h: nat)
    requires 1 <= n <= 0x8000_0000 && h <= 31
    ensures CalcTreeWidth(n, h) == Width(n, h)
  {
    ShlPow2(h);
    WidthIsCeiling(n, h);
  }

  /** A node whose leaves can be numbered with 32 bits. */
  ghost predicate Fits(n: nat, h: nat, k: nat) {
    h <= 31 && Populated(n, h, k) && First(h, k + 1) <= 0x8000_0000
  }

  /** The intermediate state of building a message. */
  class MBlock {
    const pair: PairHash
    const allHashes: seq<Hash>
    const matched: seq<bool>
    var bits: seq<bool>
    var finalHashes: seq<Hash>

    constructor (pair: PairHash, allHashes: seq<Hash>, matched: seq<bool>)
      ensures this.pair == pair && this.allHashes == allHashes && this.matched == matched
      ensures bits == [] && finalHashes == []
    {
      this.pair, this.allHashes, this.matched := pair, allHashes, matched;
      bits, finalHashes := [], [];
    }

    /** Whether any leaf below a node is matched. */
    method IsParent(height: nat, pos: nat) returns (isParent: bool)
      requires |matched| == |allHashes| <= 0x8000_0000 && Fits(|allHashes|, height, pos)
      ensures Last(|allHashes|, height, pos) <= |matched|
      ensures isParent <==> AnyMatch(matched, First(height, pos), Last(|allHashes|, height, pos))
    {
      var n := |allHashes|;
      Bounds(n, height, pos);
      isParent := false;
      var i := Shl(pos, height);
      while i < Shl(pos + 1, height) && i < n
        invariant First(height, pos) <= i <= Last(n, height, pos)
        invariant isParent <==> AnyMatch(matched, First(height, pos), i)
      {
        isParent := isParent || matched[i];
        i := i + 1;
      }
    }

    /** Appends the partial tree of one node to both lists. */
    method TraverseAndBuild(height: nat, pos: nat)
      requires |matched| == |allHashes| <= 0x8000_0000 && Fits(|allHashes|, height, pos)
      modifies this
      ensures bits == old(bits) + Build(pair, allHashes, matched, height, pos).bits
      ensures finalHashes == old(finalHashes) + Build(pair, allHashes, matched, height, pos).hashes
      decreases height
    {
      ghost var n := |allHashes|;
      var isParent := IsParent(height, pos);
      bits := bits + [isParent];
      if height == 0 || !isParent {
        finalHashes := finalHashes + [CalcHash(pair, allHashes, height, pos)];
        return;
      }
      FitsChildren(n, height, pos);
      TraverseAndBuild(height - 1, pos * 2);
      if pos * 2 + 1 < CalcTreeWidth(|allHashes|, height - 1) {
        TraverseAndBuild(height - 1, pos * 2 + 1);
      }
      AppendChildren(pair, allHashes, matched, height, pos, old(bits), old(finalHashes));
    }
  }

  /** Appending a node that is descended into is appending its flag and then its children in turn. */
  lemma {:induction false} AppendChildren(pair: PairHash, leaves: seq<Hash>, matched: seq<bool>, h: nat, k: nat,
                                          bits: seq<bool>, hashes: seq<Hash>)
    requires |matched| == |leaves| && Populated(|leaves|, h, k)
    requires h > 0 && AnyMatch(matched, First(h, k), Last(|leaves|, h, k))
    ensures var b, l := Build(pair, leaves, matched, h, k), Build(pair, leaves, matched, h - 1, k * 2);
      if k * 2 + 1 < Width(|leaves|, h - 1) then
        var r := Build(pair, leaves, matched, h - 1, k * 2 + 1);
        bits + b.bits == bits + [true] + l.bits + r.bits && hashes + b.hashes == hashes + l.hashes + r.hashes
      else
        bits + b.bits == bits + [true] + l.bits && b.hashes == l.hashes
  {
    var l := Build(pair, leaves, matched, h - 1, k * 2);
    if k * 2 + 1 < Width(|leaves|, h - 1) {
      var r := Build(pair, leaves, matched, h - 1, k * 2 + 1);
      assert bits + [true] + l.bits + r.bits == bits + ([true] + l.bits + r.bits);
      assert hashes + l.hashes + r.hashes == hashes + (l.hashes + r.hashes);
    } else {
      assert bits + [true] + l.bits == bits + ([true] + l.bits);
    }
  }

  lemma {:induction false} Bounds(n: nat, h: nat, k: nat)
    requires Fits(n, h, k) && n <= 0x8000_0000
    ensures Shl(k, h) == First(h, k) && Shl(k + 1, h) == First(h, k + 1)
    ensures First(h, k) < Last(n, h, k) <= n
  {
    LeafRange(n, h, k);
    ShlIsFirst(h, k);
    ShlIsFirst(h, k + 1);
  }

  lemma {:induction false} FitsChildren(n: uint32, h: nat, k: nat)
    requires Fits(n, h, k) && h > 0 && n <= 0x8000_0000
    ensures Fits(n, h - 1, k * 2)
    ensures CalcTreeWidth(n, h - 1) == Width(n, h - 1)
    ensures k * 2 + 1 < Width(n, h - 1) ==> Fits(n, h - 1, k * 2 + 1)
  {
    FirstIncreases(h - 1, 2 * k + 1, 2 * k + 2);
    assert Width(n, 0) == n;
    PopulatedFirst(n, h, k);
    TreeWidth(n, h - 1);
  }

  lemma {:induction false} ShlIsFirst(h: nat, k: nat)
    requires First(h, k) <= 0x8000_0000
    ensures Shl(k, h) == First(h, k)
  {
    if h > 0 {
      FirstDoubles(h - 1, k);
      ShlIsFirst(h - 1, k);
    }
  }

  // ----- Messages -----

  method NewMerkleBlock(pair: PairHash, root: Hash, txs: seq<Hash>, matched: seq<bool>) returns (m: MerkleBlock)
    requires 1 <= |txs| <= 0x8000_0000 && |matched| == |txs|
    ensures m.root == root && m.transactions == |txs|
    ensures Populated(|txs|, Depth(|txs|), 0)
    ensures m.hashes == Build(pair, txs, matched, Depth(|txs|), 0).hashes
    ensures Packs(m.flags, Build(pair, txs, matched, Depth(|txs|), 0).bits)
  {
    hide Build, Depth, Pow2, CalcHash;
    var n := |txs|;
    var mBlock := new MBlock(pair, txs, matched);
    var height := RootHeight(n);
    WholeTree(n);
    ShlPow2(height);
    FirstOfRow(height);
    mBlock.TraverseAndBuild(height, 0);
    var flags := PackFlags(mBlock.bits);
    m := MerkleBlock(root, n, mBlock.finalHashes, flags[..]);
  }

  lemma {:induction false} WidthAboveOne(n: nat, h: nat)
    ensures Width(n, h) > 1 <==> Pow2(h) < n
  {
    PopulatedFirst(n, h, 1);
    FirstOfRow(h);
  }

  method RootHeight(n: uint32) returns (height: nat)
    requires 1 <= n <= 0x8000_0000
    ensures height == Depth(n) <= 31
  {
    Pow2Of31();
    height := 0;
    TreeWidth(n, 0);
    WidthAboveOne(n, 0);
    while CalcTreeWidth(n, height) > 1
      invariant height <= 31 && CalcTreeWidth(n, height) == Width(n, height)
      invariant Width(n, height) > 1 <==> Pow2(height) < n
      invariant height > 0 ==> Pow2(height - 1) < n
      decreases 31 - height
    {
      height := height + 1;
      TreeWidth(n, height);
      WidthAboveOne(n, height);
    }
    DepthUnique(n, height);
  }

  /** A message built for a block and then checked returns the matched transactions in block order. */
  method BuildThenCheck(pair: PairHash, txs: seq<Hash>, matched: seq<bool>) returns (res: Checked)
    requires CollisionFree(pair) && NoDup(txs)
    requires 1 <= |txs| <= 0x8000_0000 && |matched| == |txs|
    ensures res == Accept(MatchedLeaves(txs, matched, 0, |txs|))
  {
    var m := NewMerkleBlock(pair, Root(pair, txs), txs, matched);
    res := CheckMerkleBlock(pair, m);
    ghost var b := Build(pair, txs, matched, Depth(|txs|), 0);
    PacksPrefix(m.flags, b.bits);
    RoundTrip(pair, txs, matched, FlagBits(m.flags)[|b.bits|..]);
  }
}
