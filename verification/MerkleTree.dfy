/** The Merkle tree over the transactions of a block and its partial form, the "Partial Merkle
    branch format" of BIP 37, as plain recursion.  The imperative builder and the stack machine that
    checks a partial tree are proved against the functions of this module. */
module MerkleTree {
  import opened Words
  import opened Core

  type Hash = Uint256

  /** The hash of two concatenated digests. */
  type PairHash = (Hash, Hash) -> Hash

  ghost predicate CollisionFree(pair: PairHash) {
    forall a, b, c, d :: pair(a, b) == pair(c, d) ==> a == c && b == d
  }

  // ----- Geometry -----

  /** The number of nodes of height `h`: each row has one node for every two of the row below. */
  function Width(n: nat, h: nat): nat {
    if h == 0 then n else (Width(n, h - 1) + 1) / 2
  }

  predicate Populated(n: nat, h: nat, k: nat) {
    k < Width(n, h)
  }

  /** The first leaf below node `k` of height `h`. */
  function First(h: nat, k: nat): nat
    decreases h
  {
    if h == 0 then k else First(h - 1, 2 * k)
  }

  /** One past the last leaf below node `k` of height `h`. */
  function Last(n: nat, h: nat, k: nat): nat {
    if First(h, k + 1) < n then First(h, k + 1) else n
  }

  lemma {:induction false} FirstIncreases(h: nat, j: nat, k: nat)
    requires j < k
    ensures First(h, j) < First(h, k)
    decreases h
  {
    if h > 0 {
      FirstIncreases(h - 1, 2 * j, 2 * k);
    }
  }

  /** A node exists exactly when its first leaf does. */
  lemma {:induction false} PopulatedFirst(n: nat, h: nat, k: nat)
    ensures Populated(n, h, k) <==> First(h, k) < n
    decreases h
  {
    if h > 0 {
      PopulatedFirst(n, h - 1, 2 * k);
    }
  }

  lemma {:induction false} FirstDoubles(h: nat, k: nat)
    ensures First(h + 1, k) == 2 * First(h, k)
    decreases h
  {
    if h > 0 {
      FirstDoubles(h - 1, 2 * k);
    }
  }

  lemma {:induction false} FirstOfRow(h: nat)
    ensures First(h, 0) == 0 && First(h, 1) == Pow2(h)
  {
    if h > 0 {
      FirstOfRow(h - 1);
      FirstDoubles(h - 1, 1);
    }
  }

  lemma {:induction false} LeafRange(n: nat, h: nat, k: nat)
    requires Populated(n, h, k)
    ensures First(h, k) < Last(n, h, k) <= n
    ensures First(h, k) < First(h, k + 1)
  {
    FirstIncreases(h, k, k + 1);
    PopulatedFirst(n, h, k);
  }

  /** The height of a tree with `n` leaves. */
  function Depth(n: nat): (d: nat)
    ensures n <= Pow2(d)
    ensures d > 0 ==> Pow2(d - 1) < n
  {
    if n <= 1 then 0 else 1 + Depth((n + 1) / 2)
  }

  lemma {:induction false} DepthUnique(n: nat, d: nat)
    requires n <= Pow2(d)
    requires d > 0 ==> Pow2(d - 1) < n
    ensures d == Depth(n)
  {
    var e := Depth(n);
    if d < e {
      Pow2Monotone(d, e - 1);
    } else if e < d {
      Pow2Monotone(e, d - 1);
    }
  }

  lemma {:induction false} DepthAtMost31(n: nat)
    requires n <= 0x8000_0000
    ensures Depth(n) <= 31
  {
    Pow2Of31();
    if Depth(n) > 31 {
      Pow2Monotone(31, Depth(n) - 1);
    }
  }

  lemma {:induction false} WholeTree(n: nat)
    requires n > 0
    ensures Populated(n, Depth(n), 0)
    ensures First(Depth(n), 0) == 0 && Last(n, Depth(n), 0) == n
  {
    FirstOfRow(Depth(n));
    PopulatedFirst(n, Depth(n), 0);
  }

  lemma {:induction false} LastOnlyChild(n: nat, h: nat, k: nat)
    requires h > 0 && !Populated(n, h - 1, 2 * k + 1)
    ensures Last(n, h - 1, 2 * k) == Last(n, h, k)
  {
    PopulatedFirst(n, h - 1, 2 * k + 1);
    FirstIncreases(h - 1, 2 * k + 1, 2 * k + 2);
  }

  // ----- The whole tree -----

  function CalcHash(pair: PairHash, leaves: seq<Hash>, h: nat, k: nat): Hash
    requires Populated(|leaves|, h, k)
    decreases h
  {
    if h == 0 then
      leaves[k]
    else
      var left := CalcHash(pair, leaves, h - 1, 2 * k);
      var right := if Populated(|leaves|, h - 1, 2 * k + 1) then CalcHash(pair, leaves, h - 1, 2 * k + 1) else left;
      pair(left, right)
  }

  /** Without collisions, nodes of one height that have the same hash have the same first leaf. */
  lemma {:induction false} SameHashSameFirstLeaf(pair: PairHash, leaves: seq<Hash>, h: nat, j: nat, k: nat)
    requires CollisionFree(pair)
    requires Populated(|leaves|, h, j) && Populated(|leaves|, h, k)
    requires CalcHash(pair, leaves, h, j) == CalcHash(pair, leaves, h, k)
    ensures First(h, j) < |leaves| && First(h, k) < |leaves|
    ensures leaves[First(h, j)] == leaves[First(h, k)]
    decreases h
  {
    if h == 0 {
    } else {
      SameHashSameFirstLeaf(pair, leaves, h - 1, 2 * j, 2 * k);
    }
  }

  lemma {:induction false} SiblingsDiffer(pair: PairHash, leaves: seq<Hash>, h: nat, k: nat)
    requires CollisionFree(pair) && NoDup(leaves)
    requires Populated(|leaves|, h, k + 1) && Populated(|leaves|, h, k)
    ensures CalcHash(pair, leaves, h, k) != CalcHash(pair, leaves, h, k + 1)
  {
    FirstIncreases(h, k, k + 1);
    if CalcHash(pair, leaves, h, k) == CalcHash(pair, leaves, h, k + 1) {
      SameHashSameFirstLeaf(pair, leaves, h, k, k + 1);
    }
  }

  // ----- The partial tree: what the builder emits -----

  predicate AnyMatch(matches: seq<bool>, lo: nat, hi: nat)
    requires hi <= |matches|
  {
    exists i :: lo <= i < hi && matches[i]
  }

  /** The hashes of the matched leaves with indices `lo .. hi`, in block order. */
  function MatchedLeaves(leaves: seq<Hash>, matches: seq<bool>, lo: nat, hi: nat): seq<Hash>
    requires lo <= hi <= |leaves| == |matches|
    decreases hi - lo
  {
    if lo == hi then []
    else (if matches[lo] then [leaves[lo]] else []) + MatchedLeaves(leaves, matches, lo + 1, hi)
  }

  lemma {:induction false} MatchedLeavesSplit(leaves: seq<Hash>, matches: seq<bool>, lo: nat, mid: nat, hi: nat)
    requires lo <= mid <= hi <= |leaves| == |matches|
    ensures MatchedLeaves(leaves, matches, lo, hi)
         == MatchedLeaves(leaves, matches, lo, mid) + MatchedLeaves(leaves, matches, mid, hi)
    decreases mid - lo
  {
    if lo < mid {
      MatchedLeavesSplit(leaves, matches, lo + 1, mid, hi);
    }
  }

  lemma {:induction false} NoMatchNoLeaves(leaves: seq<Hash>, matches: seq<bool>, lo: nat, hi: nat)
    requires lo <= hi <= |leaves| == |matches|
    requires !AnyMatch(matches, lo, hi)
    ensures MatchedLeaves(leaves, matches, lo, hi) == []
    decreases hi - lo
  {
    if lo < hi {
      NoMatchNoLeaves(leaves, matches, lo + 1, hi);
    }
  }

  function MatchedBelow(leaves: seq<Hash>, matches: seq<bool>, h: nat, k: nat): seq<Hash>
    requires |matches| == |leaves| && Populated(|leaves|, h, k)
  {
    LeafRange(|leaves|, h, k);
    MatchedLeaves(leaves, matches, First(h, k), Last(|leaves|, h, k))
  }

  lemma {:induction false} MatchedChildren(leaves: seq<Hash>, matches: seq<bool>, h: nat, k: nat, found: seq<Hash>)
    requires |matches| == |leaves| && Populated(|leaves|, h, k) && h > 0 && Populated(|leaves|, h - 1, 2 * k + 1)
    ensures found + MatchedBelow(leaves, matches, h - 1, 2 * k) + MatchedBelow(leaves, matches, h - 1, 2 * k + 1)
         == found + MatchedBelow(leaves, matches, h, k)
  {
    var n := |leaves|;
    LeafRange(n, h, k);
    LeafRange(n, h - 1, 2 * k);
    LeafRange(n, h - 1, 2 * k + 1);
    PopulatedFirst(n, h - 1, 2 * k + 1);
    MatchedLeavesSplit(leaves, matches, First(h, k), First(h - 1, 2 * k + 1), Last(n, h, k));
  }

  datatype Partial = Partial(bits: seq<bool>, hashes: seq<Hash>)

  /** The flag bits and hashes for the subtree at node `k` of height `h`, depth first. */
  function Build(pair: PairHash, leaves: seq<Hash>, matches: seq<bool>, h: nat, k: nat): Partial
    requires |matches| == |leaves| && Populated(|leaves|, h, k)
    decreases h
  {
    var n := |leaves|;
    var isParent := AnyMatch(matches, First(h, k), Last(n, h, k));
    if h == 0 || !isParent then
      Partial([isParent], [CalcHash(pair, leaves, h, k)])
    else
      var l := Build(pair, leaves, matches, h - 1, 2 * k);
      if Populated(n, h - 1, 2 * k + 1) then
        var r := Build(pair, leaves, matches, h - 1, 2 * k + 1);
        Partial([true] + l.bits + r.bits, l.hashes + r.hashes)
      else
        Partial([true] + l.bits, l.hashes)
  }

  /** Below a node with `m` matched leaves, at most `m` hashes for each level and one more are emitted,
      and twice as many bits; so a node without a match gives one hash and one bit. */
  lemma {:induction false} BuildIsSmall(pair: PairHash, leaves: seq<Hash>, matches: seq<bool>, h: nat, k: nat)
    requires |matches| == |leaves| && Populated(|leaves|, h, k)
    ensures var b, m := Build(pair, leaves, matches, h, k), |MatchedBelow(leaves, matches, h, k)|;
      1 <= |b.hashes| <= 1 + m * h && 1 <= |b.bits| <= 1 + 2 * (m * h)
    decreases h
  {
    hide MatchedBelow, Populated;
    var n := |leaves|;
    var m := |MatchedBelow(leaves, matches, h, k)|;
    if h > 0 && AnyMatch(matches, First(h, k), Last(n, h, k)) {
      SomeBelow(leaves, matches, h, k);
      LeftChild(n, h, k);
      BuildIsSmall(pair, leaves, matches, h - 1, 2 * k);
      var l := |MatchedBelow(leaves, matches, h - 1, 2 * k)|;
      if Populated(n, h - 1, 2 * k + 1) {
        BuildIsSmall(pair, leaves, matches, h - 1, 2 * k + 1);
        MatchedChildren(leaves, matches, h, k, []);
        var r := |MatchedBelow(leaves, matches, h - 1, 2 * k + 1)|;
        OneLevelMore(l, r, h);
        assert m == l + r;
      } else {
        OnlyBelow(leaves, matches, h, k);
        OneLevelMore(l, 0, h);
        assert m == l;
      }
    } else {
      NotNegative(m, h);
    }
  }

  lemma {:induction false} NotNegative(m: nat, h: nat)
    ensures m * h >= 0
  {
  }

  lemma {:induction false} OneLevelMore(l: nat, r: nat, h: nat)
    requires h > 0
    ensures (l + r) * h == l * (h - 1) + r * (h - 1) + l + r
  {
  }

  lemma {:induction false} LeftChild(n: nat, h: nat, k: nat)
    requires h > 0 && Populated(n, h, k)
    ensures Populated(n, h - 1, 2 * k)
  {
  }

  lemma {:induction false} SomeBelow(leaves: seq<Hash>, matches: seq<bool>, h: nat, k: nat)
    requires |matches| == |leaves| && Populated(|leaves|, h, k) && AnyMatch(matches, First(h, k), Last(|leaves|, h, k))
    ensures |MatchedBelow(leaves, matches, h, k)| >= 1
  {
    LeafRange(|leaves|, h, k);
    var lo, hi := First(h, k), Last(|leaves|, h, k);
    var i :| lo <= i < hi && matches[i];
    MatchedLeavesSplit(leaves, matches, lo, i, hi);
  }

  lemma {:induction false} OnlyBelow(leaves: seq<Hash>, matches: seq<bool>, h: nat, k: nat)
    requires |matches| == |leaves| && Populated(|leaves|, h, k) && h > 0 && !Populated(|leaves|, h - 1, 2 * k + 1)
    ensures Populated(|leaves|, h - 1, 2 * k) && MatchedBelow(leaves, matches, h - 1, 2 * k) == MatchedBelow(leaves, matches, h, k)
  {
    LastOnlyChild(|leaves|, h, k);
  }

  // ----- The partial tree: what a checker reads -----

  datatype CheckError =
    | NoTransactions
    | NoFlagBits
    | RootMismatch
    | DuplicateHash
    | LeftChildMissing
    | RanOutOfHashes
    | RanOutOfFlags

  /** What is left of the message, and the matched transaction hashes so far. */
  datatype Cursor = Cursor(bits: seq<bool>, hashes: seq<Hash>, found: seq<Hash>)

  datatype Parse = Parsed(hash: Hash, at: Cursor) | Failed(error: CheckError)

  /** Combine a left hash with the parse of its right sibling. */
  function Join(pair: PairHash, left: Hash, right: Parse): Parse {
    match right
    case Failed(_) => right
    case Parsed(x, c) => if left == x then Failed(DuplicateHash) else Parsed(pair(left, x), c)
  }

  /** Read the subtree at node `k` of height `h` of a tree with `n` leaves. */
  function ParseNode(pair: PairHash, n: nat, h: nat, k: nat, c: Cursor): Parse
    decreases h
  {
    if c.hashes == [] then Failed(RanOutOfHashes)
    else if c.bits == [] then Failed(RanOutOfFlags)
    else if h == 0 then
      Parsed(c.hashes[0], Cursor(c.bits[1..], c.hashes[1..], if c.bits[0] then c.found + [c.hashes[0]] else c.found))
    else if !c.bits[0] then
      Parsed(c.hashes[0], Cursor(c.bits[1..], c.hashes[1..], c.found))
    else
      match ParseNode(pair, n, h - 1, 2 * k, c.(bits := c.bits[1..]))
      case Failed(e) => Failed(e)
      case Parsed(left, c1) =>
        if Populated(n, h - 1, 2 * k + 1) then
          Join(pair, left, ParseNode(pair, n, h - 1, 2 * k + 1, c1))
        else
          Parsed(pair(left, left), c1)
  }

  datatype Checked = Accept(found: seq<Hash>) | Reject(error: CheckError)

  /** Check a partial tree against a root: the recursive form. */
  function Check(pair: PairHash, n: nat, bits: seq<bool>, hashes: seq<Hash>, root: Hash): Checked {
    if n == 0 then Reject(NoTransactions)
    else if bits == [] then Reject(NoFlagBits)
    else Against(root, ParseNode(pair, n, Depth(n), 0, Cursor(bits, hashes, [])))
  }

  /** The outcome of a parse of the whole tree, compared with the root that is expected. */
  function Against(root: Hash, p: Parse): Checked {
    match p
    case Failed(e) => Reject(e)
    case Parsed(x, c) => if x == root then Accept(c.found) else Reject(RootMismatch)
  }

  function Root(pair: PairHash, leaves: seq<Hash>): Hash
    requires leaves != []
  {
    WholeTree(|leaves|);
    CalcHash(pair, leaves, Depth(|leaves|), 0)
  }

  // ----- Round trip -----

  /** Reading what was built for a node gives back the hash of the node, consumes exactly what was
      built and adds exactly the matched leaves below the node. */
  ghost predicate ReadsBack(pair: PairHash, leaves: seq<Hash>, matches: seq<bool>, h: nat, k: nat,
                            bits: seq<bool>, hashes: seq<Hash>, found: seq<Hash>)
    requires |matches| == |leaves| && Populated(|leaves|, h, k)
  {
    var b := Build(pair, leaves, matches, h, k);
    ParseNode(pair, |leaves|, h, k, Cursor(b.bits + bits, b.hashes + hashes, found))
    == Parsed(CalcHash(pair, leaves, h, k), Cursor(bits, hashes, found + MatchedBelow(leaves, matches, h, k)))
  }

  lemma {:induction false} ReadsBackTip(pair: PairHash, leaves: seq<Hash>, matches: seq<bool>, h: nat, k: nat,
                     bits: seq<bool>, hashes: seq<Hash>, found: seq<Hash>)
    requires |matches| == |leaves| && Populated(|leaves|, h, k)
    requires h == 0 || !AnyMatch(matches, First(h, k), Last(|leaves|, h, k))
    ensures ReadsBack(pair, leaves, matches, h, k, bits, hashes, found)
  {
    LeafRange(|leaves|, h, k);
    var lo, hi := First(h, k), Last(|leaves|, h, k);
    var b := Build(pair, leaves, matches, h, k);
    assert (b.bits + bits)[1..] == bits && (b.hashes + hashes)[1..] == hashes;
    if !AnyMatch(matches, lo, hi) {
      NoMatchNoLeaves(leaves, matches, lo, hi);
      assert found + [] == found;
    } else {
      assert MatchedLeaves(leaves, matches, k, k + 1) == [leaves[k]] + MatchedLeaves(leaves, matches, k + 1, k + 1);
    }
  }

  /** One descent with two children. */
  lemma {:induction false} JoinBoth(pair: PairHash, n: nat, h: nat, k: nat, l: Partial, r: Partial, bits: seq<bool>, hashes: seq<Hash>,
                 found: seq<Hash>, found1: seq<Hash>, found2: seq<Hash>, left: Hash, right: Hash)
    requires h > 0 && Populated(n, h - 1, 2 * k + 1) && l.hashes != [] && left != right
    requires ParseNode(pair, n, h - 1, 2 * k, Cursor(l.bits + (r.bits + bits), l.hashes + (r.hashes + hashes), found))
             == Parsed(left, Cursor(r.bits + bits, r.hashes + hashes, found1))
    requires ParseNode(pair, n, h - 1, 2 * k + 1, Cursor(r.bits + bits, r.hashes + hashes, found1))
             == Parsed(right, Cursor(bits, hashes, found2))
    ensures ParseNode(pair, n, h, k, Cursor(([true] + l.bits + r.bits) + bits, (l.hashes + r.hashes) + hashes, found))
            == Parsed(pair(left, right), Cursor(bits, hashes, found2))
  {
    var c := Cursor(([true] + l.bits + r.bits) + bits, (l.hashes + r.hashes) + hashes, found);
    assert c.bits[1..] == l.bits + (r.bits + bits);
    assert c.hashes == l.hashes + (r.hashes + hashes);
  }

  lemma {:induction false} BuildNonEmpty(pair: PairHash, leaves: seq<Hash>, matches: seq<bool>, h: nat, k: nat)
    requires |matches| == |leaves| && Populated(|leaves|, h, k)
    ensures Build(pair, leaves, matches, h, k).bits != [] && Build(pair, leaves, matches, h, k).hashes != []
    decreases h
  {
    if h > 0 {
      BuildNonEmpty(pair, leaves, matches, h - 1, 2 * k);
    }
  }

  lemma {:induction false} ParseBuilt(pair: PairHash, leaves: seq<Hash>, matches: seq<bool>, h: nat, k: nat,
                                      bits: seq<bool>, hashes: seq<Hash>, found: seq<Hash>)
    requires CollisionFree(pair) && NoDup(leaves)
    requires |matches| == |leaves| && Populated(|leaves|, h, k)
    ensures ReadsBack(pair, leaves, matches, h, k, bits, hashes, found)
    decreases h
  {
    hide ReadsBack, CollisionFree, NoDup;
    var n := |leaves|;
    if h == 0 || !AnyMatch(matches, First(h, k), Last(n, h, k)) {
      ReadsBackTip(pair, leaves, matches, h, k, bits, hashes, found);
    } else if Populated(n, h - 1, 2 * k + 1) {
      ParseBuiltPair(pair, leaves, matches, h, k, bits, hashes, found);
    } else {
      ParseBuiltOnly(pair, leaves, matches, h, k, bits, hashes, found);
    }
  }

  lemma {:induction false} ParseBuiltOnly(pair: PairHash, leaves: seq<Hash>, matches: seq<bool>, h: nat, k: nat,
                                          bits: seq<bool>, hashes: seq<Hash>, found: seq<Hash>)
    requires CollisionFree(pair) && NoDup(leaves)
    requires |matches| == |leaves| && Populated(|leaves|, h, k)
    requires h > 0 && AnyMatch(matches, First(h, k), Last(|leaves|, h, k)) && !Populated(|leaves|, h - 1, 2 * k + 1)
    ensures ReadsBack(pair, leaves, matches, h, k, bits, hashes, found)
    decreases h, 0
  {
    var n := |leaves|;
    ParseBuilt(pair, leaves, matches, h - 1, 2 * k, bits, hashes, found);
    BuildNonEmpty(pair, leaves, matches, h - 1, 2 * k);
    var l := Build(pair, leaves, matches, h - 1, 2 * k);
    assert ([true] + l.bits + bits)[1..] == l.bits + bits;
    LastOnlyChild(n, h, k);
  }

  lemma {:induction false} ParseBuiltPair(pair: PairHash, leaves: seq<Hash>, matches: seq<bool>, h: nat, k: nat,
                                          bits: seq<bool>, hashes: seq<Hash>, found: seq<Hash>)
    requires CollisionFree(pair) && NoDup(leaves)
    requires |matches| == |leaves| && Populated(|leaves|, h, k)
    requires h > 0 && AnyMatch(matches, First(h, k), Last(|leaves|, h, k)) && Populated(|leaves|, h - 1, 2 * k + 1)
    ensures ReadsBack(pair, leaves, matches, h, k, bits, hashes, found)
    decreases h, 0
  {
    var n := |leaves|;
    var l := Build(pair, leaves, matches, h - 1, 2 * k);
    var r := Build(pair, leaves, matches, h - 1, 2 * k + 1);
    var found1 := found + MatchedBelow(leaves, matches, h - 1, 2 * k);
    MatchedChildren(leaves, matches, h, k, found);
    ParseBuilt(pair, leaves, matches, h - 1, 2 * k, r.bits + bits, r.hashes + hashes, found);
    ParseBuilt(pair, leaves, matches, h - 1, 2 * k + 1, bits, hashes, found1);
    SiblingsDiffer(pair, leaves, h - 1, 2 * k);
    BuildNonEmpty(pair, leaves, matches, h - 1, 2 * k);
    JoinBoth(pair, n, h, k, l, r, bits, hashes, found, found1, found + MatchedBelow(leaves, matches, h, k),
             CalcHash(pair, leaves, h - 1, 2 * k), CalcHash(pair, leaves, h - 1, 2 * k + 1));
  }

  /** Checking the partial tree of a block, whatever padding follows its flag bits, accepts and
      returns exactly the matched transactions in block order. */
  lemma {:induction false} RoundTrip(pair: PairHash, leaves: seq<Hash>, matches: seq<bool>, padding: seq<bool>)
    requires CollisionFree(pair) && NoDup(leaves)
    requires leaves != [] && |matches| == |leaves|
    ensures Populated(|leaves|, Depth(|leaves|), 0)
    ensures var b := Build(pair, leaves, matches, Depth(|leaves|), 0);
            Check(pair, |leaves|, b.bits + padding, b.hashes, Root(pair, leaves))
              == Accept(MatchedLeaves(leaves, matches, 0, |leaves|))
  {
    var n := |leaves|;
    WholeTree(n);
    var b := Build(pair, leaves, matches, Depth(n), 0);
    assert b.hashes + [] == b.hashes;
    ParseBuilt(pair, leaves, matches, Depth(n), 0, padding, [], []);
    assert b.bits != [];
    assert [] + MatchedLeaves(leaves, matches, 0, n) == MatchedLeaves(leaves, matches, 0, n);
  }

  // ----- Soundness -----

  /** `found` lists leaves at strictly increasing positions `at`, all below `hi`. */
  ghost predicate LeavesAt(leaves: seq<Hash>, hi: nat, at: seq<nat>, found: seq<Hash>) {
    && |at| == |found|
    && (forall i :: 0 <= i < |at| ==> at[i] < hi && at[i] < |leaves| && found[i] == leaves[at[i]])
    && (forall i, j :: 0 <= i < j < |at| ==> at[i] < at[j])
  }

  /** A node that parses to the right hash has children that do. */
  lemma {:induction false} ParsedChildren(pair: PairHash, leaves: seq<Hash>, h: nat, k: nat, c: Cursor)
    requires CollisionFree(pair) && h > 0 && Populated(|leaves|, h, k) && c.bits != [] && c.bits[0]
    requires ParseNode(pair, |leaves|, h, k, c).Parsed?
    requires ParseNode(pair, |leaves|, h, k, c).hash == CalcHash(pair, leaves, h, k)
    ensures Populated(|leaves|, h - 1, 2 * k)
    ensures var left := ParseNode(pair, |leaves|, h - 1, 2 * k, c.(bits := c.bits[1..]));
      && left.Parsed? && left.hash == CalcHash(pair, leaves, h - 1, 2 * k)
      && if Populated(|leaves|, h - 1, 2 * k + 1) then
           var right := ParseNode(pair, |leaves|, h - 1, 2 * k + 1, left.at);
           && right.Parsed? && right.hash == CalcHash(pair, leaves, h - 1, 2 * k + 1)
           && ParseNode(pair, |leaves|, h, k, c).at == right.at
         else ParseNode(pair, |leaves|, h, k, c).at == left.at
  {
  }

  /** Whatever bits and hashes were read, a subtree that hashes to the true hash of its node
      contributed only leaves below that node, in order. */
  lemma {:induction false} ParseSound(pair: PairHash, leaves: seq<Hash>, h: nat, k: nat, c: Cursor, at0: seq<nat>)
    returns (at: seq<nat>)
    requires CollisionFree(pair) && Populated(|leaves|, h, k)
    requires ParseNode(pair, |leaves|, h, k, c).Parsed?
    requires ParseNode(pair, |leaves|, h, k, c).hash == CalcHash(pair, leaves, h, k)
    requires LeavesAt(leaves, First(h, k), at0, c.found)
    ensures LeavesAt(leaves, First(h, k + 1), at, ParseNode(pair, |leaves|, h, k, c).at.found)
    decreases h
  {
    var n := |leaves|;
    FirstIncreases(h, k, k + 1);
    if h > 0 {
      FirstIncreases(h - 1, 2 * k + 1, 2 * k + 2);
    }
    if h == 0 {
      at := if c.bits[0] then at0 + [k] else at0;
    } else if !c.bits[0] {
      at := at0;
    } else {
      ParsedChildren(pair, leaves, h, k, c);
      hide ParseNode, CalcHash, CollisionFree;
      var c0 := c.(bits := c.bits[1..]);
      var c1 := ParseNode(pair, n, h - 1, 2 * k, c0).at;
      var at1 := ParseSound(pair, leaves, h - 1, 2 * k, c0, at0);
      if Populated(n, h - 1, 2 * k + 1) {
        at := ParseSound(pair, leaves, h - 1, 2 * k + 1, c1, at1);
      } else {
        at := at1;
      }
    }
  }

  /** Any message that is accepted against the root of a block returns transactions of that block,
      at strictly increasing positions. */
  lemma {:induction false} Soundness(pair: PairHash, leaves: seq<Hash>, bits: seq<bool>, hashes: seq<Hash>)
    requires CollisionFree(pair) && leaves != []
    ensures var r := Check(pair, |leaves|, bits, hashes, Root(pair, leaves));
            r.Accept? ==> exists at :: LeavesAt(leaves, |leaves|, at, r.found)
  {
    var n := |leaves|;
    var r := Check(pair, n, bits, hashes, Root(pair, leaves));
    if r.Accept? {
      WholeTree(n);
      var at := ParseSound(pair, leaves, Depth(n), 0, Cursor(bits, hashes, []), []);
      assert LeavesAt(leaves, n, at, r.found);
    }
  }

  // ----- A wrong number of transactions -----

  /** The children of a node that parses to the right hash do so too, and are the true ones, although
      the reader goes by another number of leaves: it would have to take two equal hashes for siblings
      to see a child too many, and to pair a hash with itself to see one too few. */
  lemma {:induction false} ClaimedChildren(pair: PairHash, leaves: seq<Hash>, n: nat, h: nat, k: nat, c: Cursor)
    requires CollisionFree(pair) && NoDup(leaves) && h > 0 && Populated(|leaves|, h, k) && c.bits != [] && c.bits[0]
    requires ParseNode(pair, n, h, k, c).Parsed?
    requires ParseNode(pair, n, h, k, c).hash == CalcHash(pair, leaves, h, k)
    ensures Populated(|leaves|, h - 1, 2 * k) && (Populated(n, h - 1, 2 * k + 1) <==> Populated(|leaves|, h - 1, 2 * k + 1))
    ensures var left := ParseNode(pair, n, h - 1, 2 * k, c.(bits := c.bits[1..]));
      && left.Parsed? && left.hash == CalcHash(pair, leaves, h - 1, 2 * k)
      && if Populated(|leaves|, h - 1, 2 * k + 1) then
           var right := ParseNode(pair, n, h - 1, 2 * k + 1, left.at);
           && right.Parsed? && right.hash == CalcHash(pair, leaves, h - 1, 2 * k + 1)
           && ParseNode(pair, n, h, k, c).at == right.at
         else ParseNode(pair, n, h, k, c).at == left.at
  {
    if Populated(|leaves|, h - 1, 2 * k + 1) {
      SiblingsDiffer(pair, leaves, h - 1, 2 * k);
    }
  }

  lemma {:induction false} ClaimedSound(pair: PairHash, leaves: seq<Hash>, n: nat, h: nat, k: nat, c: Cursor, at0: seq<nat>)
    returns (at: seq<nat>)
    requires CollisionFree(pair) && NoDup(leaves) && Populated(|leaves|, h, k)
    requires ParseNode(pair, n, h, k, c).Parsed?
    requires ParseNode(pair, n, h, k, c).hash == CalcHash(pair, leaves, h, k)
    requires LeavesAt(leaves, First(h, k), at0, c.found)
    ensures LeavesAt(leaves, First(h, k + 1), at, ParseNode(pair, n, h, k, c).at.found)
    decreases h
  {
    FirstIncreases(h, k, k + 1);
    if h > 0 {
      FirstIncreases(h - 1, 2 * k + 1, 2 * k + 2);
    }
    if h == 0 {
      at := if c.bits[0] then at0 + [k] else at0;
    } else if !c.bits[0] {
      at := at0;
    } else {
      ClaimedChildren(pair, leaves, n, h, k, c);
      hide ParseNode, CalcHash, CollisionFree, NoDup;
      var c0 := c.(bits := c.bits[1..]);
      var c1 := ParseNode(pair, n, h - 1, 2 * k, c0).at;
      at := ClaimedSound(pair, leaves, n, h - 1, 2 * k, c0, at0);
      if Populated(|leaves|, h - 1, 2 * k + 1) {
        at := ClaimedSound(pair, leaves, n, h - 1, 2 * k + 1, c1, at);
      }
    }
  }

  /** A message that claims any number of transactions for which the tree has the same depth, and is
      accepted against the root of a block, returns transactions of that block, and none of them twice. */
  lemma {:induction false} SoundForAnyCount(pair: PairHash, leaves: seq<Hash>, n: nat, bits: seq<bool>, hashes: seq<Hash>)
    requires CollisionFree(pair) && NoDup(leaves) && leaves != [] && Depth(n) == Depth(|leaves|)
    ensures var r := Check(pair, n, bits, hashes, Root(pair, leaves));
            r.Accept? ==> NoDup(r.found) && exists at :: LeavesAt(leaves, |leaves|, at, r.found)
  {
    var r := Check(pair, n, bits, hashes, Root(pair, leaves));
    if r.Accept? {
      WholeTree(|leaves|);
      var at := ClaimedSound(pair, leaves, n, Depth(n), 0, Cursor(bits, hashes, []), []);
      assert LeavesAt(leaves, |leaves|, at, r.found);
    }
  }
}
