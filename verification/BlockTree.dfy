/** The nodes of the block tree.  Except for the main chain flag, a node never changes once it is
    linked to its parent. */
module BlockTree {
  import opened Core
  import opened Words
  import opened Difficulty

  class BlockNode {
    const header: Header
    const hash: Uint256
    const height: uint32
    const bits: uint32
    const workSum: nat
    const parent: BlockNode?
    var inMainChain: bool
    /** The block that the node was created for. */
    ghost const block: Block
    /** The ancestors of the node, root first. */
    ghost const path: seq<BlockNode>

    /** A node for a block, linked to its parent with the work of both summed up. */
    constructor NewBlockNode(b: Block, parent: BlockNode?)
      ensures this.parent == parent && block == b && !inMainChain
      ensures header == b.header && hash == b.header.hash && height == b.header.height && bits == b.header.bits
      ensures path == if parent == null then [] else parent.path + [parent]
      ensures workSum == CalcWork(b.header.bits) + if parent == null then 0 else parent.workSum
    {
      header, hash, height, bits := b.header, b.header.hash, b.header.height, b.header.bits;
      this.parent, block, inMainChain := parent, b, false;
      path := if parent == null then [] else parent.path + [parent];
      workSum := CalcWork(b.header.bits) + if parent == null then 0 else parent.workSum;
    }
  }

  /** The fields of a node fit its block and its parent. */
  ghost predicate NodeOk(n: BlockNode) {
    && n.header == n.block.header && n.hash == n.block.header.hash && n.height == n.block.header.height && n.bits == n.block.header.bits
    && (n.parent == null ==> n.path == [] && n.workSum == CalcWork(n.bits))
    && (n.parent != null ==>
          && n.path == n.parent.path + [n.parent]
          && n.block.header.previous == n.parent.hash
          && n.height == n.parent.height + 1
          && n.workSum == n.parent.workSum + CalcWork(n.bits))
  }

  /** A set of nodes that holds the parent of each of them; only the root has none. */
  ghost predicate Tree(nodes: set<BlockNode>, root: BlockNode) {
    forall n :: n in nodes ==> NodeOk(n) && (if n.parent == null then n == root else n.parent in nodes)
  }

  /** The way from the root to a node, both included. */
  ghost function Full(n: BlockNode): seq<BlockNode> {
    n.path + [n]
  }

  ghost function Blocks(nodes: seq<BlockNode>): seq<Block> {
    seq(|nodes|, i requires 0 <= i < |nodes| => nodes[i].block)
  }

  lemma {:induction false} PathInTree(nodes: set<BlockNode>, root: BlockNode, n: BlockNode, i: nat)
    requires Tree(nodes, root) && n in nodes && i < |Full(n)|
    ensures Full(n)[i] in nodes
    ensures Full(Full(n)[i]) == Full(n)[..i + 1]
    ensures i == 0 ==> Full(n)[i] == root
    ensures i > 0 ==> Full(n)[i].parent == Full(n)[i - 1]
    decreases |n.path|
  {
    if i == |n.path| {
      assert Full(n)[..i + 1] == Full(n);
    } else {
      PathInTree(nodes, root, n.parent, i);
      assert Full(n)[..i + 1] == Full(n.parent)[..i + 1];
    }
  }

  /** A node on the way to another is there at the position that its own path gives. */
  lemma {:induction false} OnPath(nodes: set<BlockNode>, root: BlockNode, n: BlockNode, x: BlockNode)
    requires Tree(nodes, root) && n in nodes && x in Full(n)
    ensures |x.path| < |Full(n)| && Full(n)[|x.path|] == x
    ensures Full(n)[..|x.path| + 1] == Full(x) && x in nodes
  {
    hide NodeOk, Tree, Full;
    var i :| 0 <= i < |Full(n)| && Full(n)[i] == x;
    PathInTree(nodes, root, n, i);
    FullEnds(x);
    assert |Full(x)| == i + 1;
  }

  /** A node on a path that has a parent is not the first, and its parent comes right before it. */
  lemma {:induction false} Above(nodes: set<BlockNode>, root: BlockNode, n: BlockNode, i: nat)
    requires Tree(nodes, root) && n in nodes && i < |Full(n)| && Full(n)[i].parent != null
    ensures i > 0 && Full(n)[i].parent == Full(n)[i - 1] && Full(n)[i - 1] in nodes && Full(n)[i] in nodes
  {
    PathInTree(nodes, root, n, i);
    RootOnPath(nodes, root, n);
    if i > 0 {
      PathInTree(nodes, root, n, i - 1);
    }
  }

  lemma {:induction false} FullEnds(n: BlockNode)
    ensures |Full(n)| == |n.path| + 1 && Full(n)[|n.path|] == n && n in Full(n)
  {
  }

  lemma {:induction false} ReverseStep<T>(s: seq<T>, i: nat)
    requires i < |s|
    ensures Reverse(s[i..]) == Reverse(s[i + 1..]) + [s[i]]
  {
  }

  lemma {:induction false} RootOnPath(nodes: set<BlockNode>, root: BlockNode, n: BlockNode)
    requires Tree(nodes, root) && n in nodes
    ensures root in Full(n) && root in nodes && root.parent == null
  {
    PathInTree(nodes, root, n, 0);
    assert Full(n)[0] == root;
    assert Full(root) == Full(n)[..1];
  }

  // ----- The index of nodes by hash -----

  ghost predicate Indexed(index: map<Uint256, BlockNode>) {
    forall h :: h in index ==> index[h].hash == h
  }

  lemma {:induction false} ByHash(index: map<Uint256, BlockNode>, n: BlockNode)
    requires Indexed(index)
    ensures n in index.Values <==> n.hash in index && index[n.hash] == n
  {
  }

  lemma {:induction false} IndexGrows(index: map<Uint256, BlockNode>, root: BlockNode, node: BlockNode)
    requires Indexed(index) && Tree(index.Values, root)
    requires NodeOk(node) && node.parent != null && node.parent in index.Values
    requires node.hash in index ==> index[node.hash] == node
    ensures var index' := index[node.hash := node];
      Indexed(index') && index'.Values == index.Values + {node} && Tree(index'.Values, root)
  {
    var index' := index[node.hash := node];
    forall n ensures n in index'.Values <==> n in index.Values + {node} {
      ByHash(index, n);
      ByHash(index', n);
    }
  }

  // ----- Work -----

  /** No node has more work than the tip. */
  ghost predicate MostWork(nodes: set<BlockNode>, tip: BlockNode) {
    forall n :: n in nodes ==> n.workSum <= tip.workSum
  }

  /** A tip with the most work is replaced by one, and a new tip has more work than the old one. */
  ghost predicate Progress(before: set<BlockNode>, tip: BlockNode, after: set<BlockNode>, tip': BlockNode) {
    && (MostWork(before, tip) ==> MostWork(after, tip'))
    && (tip' != tip ==> tip'.workSum > tip.workSum)
  }

  lemma {:induction false} NoProgress(nodes: set<BlockNode>, tip: BlockNode)
    ensures Progress(nodes, tip, nodes, tip)
  {
  }

  lemma {:induction false} ProgressAdds(a: set<BlockNode>, tipA: BlockNode, b: set<BlockNode>, tipB: BlockNode, c: set<BlockNode>, tipC: BlockNode)
    requires Progress(a, tipA, b, tipB) && Progress(b, tipB, c, tipC)
    ensures Progress(a, tipA, c, tipC)
  {
  }

  lemma {:induction false} WorkAdds(node: BlockNode, powLimit: nat)
    requires NodeOk(node) && node.parent != null && powLimit < Pow2(256) && TargetInRange(node.bits, powLimit)
    ensures node.workSum > node.parent.workSum
  {
    hide CalcWork, TargetInRange;
    WorkIsPositive(node.bits, powLimit);
  }

  ghost predicate WorkGrows(nodes: set<BlockNode>) {
    forall n :: n in nodes && n.parent != null ==> n.workSum > n.parent.workSum
  }

  lemma {:induction false} AncestorsHaveLess(nodes: set<BlockNode>, root: BlockNode, node: BlockNode, x: BlockNode)
    requires Tree(nodes, root) && WorkGrows(nodes) && node in nodes && x in Full(node)
    ensures x.workSum <= node.workSum
  {
    hide Tree, Full, WorkGrows;
    FullEnds(node);
    var i :| 0 <= i < |Full(node)| && Full(node)[i] == x;
    if i < |Full(node)| - 1 {
      WorkAlongPath(nodes, root, node, i, |Full(node)| - 1);
    }
  }

  lemma {:induction false} WorkAlongPath(nodes: set<BlockNode>, root: BlockNode, node: BlockNode, i: nat, j: nat)
    requires Tree(nodes, root) && WorkGrows(nodes) && node in nodes && i < j < |Full(node)|
    ensures Full(node)[i].workSum < Full(node)[j].workSum
    decreases j
  {
    hide Tree, Full;
    PathInTree(nodes, root, node, j);
    if i < j - 1 {
      WorkAlongPath(nodes, root, node, i, j - 1);
    }
  }

  ghost function BitsOf(nodes: seq<BlockNode>): seq<uint32> {
    seq(|nodes|, i requires 0 <= i < |nodes| => nodes[i].bits)
  }

  /** The work of a list of blocks with these targets. */
  ghost function WorkOf(bits: seq<uint32>): nat {
    if bits == [] then 0 else WorkOf(bits[..|bits| - 1]) + CalcWork(bits[|bits| - 1])
  }

  /** The sum that a node carries is the work of all blocks from the root up to it. */
  lemma {:induction false} WorkIsSummed(nodes: set<BlockNode>, root: BlockNode, n: BlockNode)
    requires Tree(nodes, root) && n in nodes
    ensures n.workSum == WorkOf(BitsOf(Full(n)))
    decreases |n.path|
  {
    hide CalcWork;
    if n.parent == null {
      assert BitsOf(Full(n))[..0] == [];
    } else {
      WorkIsSummed(nodes, root, n.parent);
      assert BitsOf(Full(n))[..|n.path|] == BitsOf(Full(n.parent));
    }
  }

  /** One branch is at least as long as another, and its blocks above the fork meet targets that are no
      larger, one by one. */
  ghost predicate HarderAbove(a: seq<uint32>, b: seq<uint32>, k: nat) {
    && k <= |b| <= |a| && a[..k] == b[..k]
    && forall i :: k <= i < |b| ==> 0 < CompactToBig(a[i]) <= CompactToBig(b[i])
  }

  /** It has at least as much work then. */
  lemma {:induction false} HarderBranch(a: seq<uint32>, b: seq<uint32>, k: nat)
    requires HarderAbove(a, b, k)
    ensures WorkOf(a) >= WorkOf(b)
    decreases |a|
  {
    hide CalcWork, CompactToBig;
    var last := |a| - 1;
    if |a| > |b| {
      assert a[..last][..k] == a[..k];
      HarderBranch(a[..last], b, k);
    } else if k == |b| {
      assert a[..k] == a && b[..k] == b;
    } else {
      assert a[..last][..k] == a[..k] && b[..last][..k] == b[..k];
      HarderBranch(a[..last], b[..last], k);
      HarderIsMoreWork(a[last], b[last]);
    }
  }

  // ----- Forks -----

  ghost function Reverse<T>(s: seq<T>): seq<T> {
    seq(|s|, i requires 0 <= i < |s| => s[|s| - 1 - i])
  }

  /** The length of the common beginning of two lists. */
  ghost function CommonLen<T>(s: seq<T>, t: seq<T>): (k: nat)
    ensures k <= |s| && k <= |t|
  {
    if s == [] || t == [] || s[0] != t[0] then 0 else 1 + CommonLen(s[1..], t[1..])
  }

  lemma {:induction false} CommonLenIs<T>(s: seq<T>, t: seq<T>, k: nat)
    requires k <= |s| && k <= |t| && s[..k] == t[..k] && (k < |s| && k < |t| ==> s[k] != t[k])
    ensures CommonLen(s, t) == k
  {
    if k > 0 {
      assert s[0] == s[..k][0] == t[..k][0] == t[0];
      assert s[1..][..k - 1] == s[..k][1..] && t[1..][..k - 1] == t[..k][1..];
      CommonLenIs(s[1..], t[1..], k - 1);
    }
  }

  lemma {:induction false} CommonLenMeans<T>(s: seq<T>, t: seq<T>)
    ensures var k := CommonLen(s, t);
      s[..k] == t[..k] && (k < |s| && k < |t| ==> s[k] != t[k])
  {
    if s != [] && t != [] && s[0] == t[0] {
      CommonLenMeans(s[1..], t[1..]);
      var k := CommonLen(s, t);
      assert s[..k] == [s[0]] + s[1..][..k - 1] && t[..k] == [t[0]] + t[1..][..k - 1];
    }
  }

  /** The ways to two nodes agree for `k` steps, and for no more. */
  ghost predicate ForkAt(a: BlockNode, b: BlockNode, k: nat) {
    && 1 <= k <= |Full(a)| && k <= |Full(b)|
    && Full(a)[..k] == Full(b)[..k]
    && (k < |Full(a)| && k < |Full(b)| ==> Full(a)[k] != Full(b)[k])
  }

  lemma {:induction false} ForkIs(a: BlockNode, b: BlockNode, k: nat)
    requires ForkAt(a, b, k)
    ensures CommonLen(Full(a), Full(b)) == k
  {
    hide Full;
    CommonLenIs(Full(a), Full(b), k);
  }

  /** A new child of `b` parts from `a` where `b` does. */
  lemma {:induction false} ForkOfChild(a: BlockNode, b: BlockNode, child: BlockNode)
    requires Full(child) == Full(b) + [child] && child !in Full(a)
    ensures CommonLen(Full(a), Full(child)) == CommonLen(Full(a), Full(b))
  {
    hide Full;
    var k := CommonLen(Full(a), Full(b));
    CommonLenMeans(Full(a), Full(b));
    assert Full(child)[..k] == Full(b)[..k];
    assert k < |Full(a)| ==> Full(a)[k] in Full(a);
    CommonLenIs(Full(a), Full(child), k);
  }

  lemma {:induction false} ForkCommon(nodes: set<BlockNode>, root: BlockNode, a: BlockNode, b: BlockNode, x: BlockNode)
    requires Tree(nodes, root) && a in nodes && b in nodes && x in Full(a) && x in Full(b)
    requires |Full(x)| < |Full(b)| ==> Full(b)[|Full(x)|] !in Full(a)
    ensures ForkAt(a, b, |Full(x)|) && Full(a)[|Full(x)| - 1] == x && |Full(x)| <= |Full(a)|
  {
    OnPath(nodes, root, a, x);
    OnPath(nodes, root, b, x);
    FullEnds(x);
    hide NodeOk, Tree, Full;
    var k := |Full(x)|;
    assert k < |Full(a)| && k < |Full(b)| ==> Full(a)[k] in Full(a);
  }

  /** Above the fork the two branches have nothing in common. */
  lemma {:induction false} AboveFork(nodes: set<BlockNode>, root: BlockNode, a: BlockNode, b: BlockNode, k: nat, i: nat)
    requires Tree(nodes, root) && a in nodes && b in nodes && ForkAt(a, b, k) && k <= i < |Full(b)|
    ensures Full(b)[i] !in Full(a)
  {
    var x := Full(b)[i];
    PathInTree(nodes, root, b, i);
    assert x in Full(a) ==> i < |Full(a)| && Full(a)[..i + 1] == Full(b)[..i + 1] by {
      if x in Full(a) {
        OnPath(nodes, root, a, x);
        FullEnds(x);
      }
    }
    hide NodeOk, Tree, Full;
    if i < |Full(a)| {
      PrefixesAgree(Full(a), Full(b), i + 1, k);
    }
  }

  lemma {:induction false} PrefixesAgree<T>(s: seq<T>, t: seq<T>, n: nat, k: nat)
    requires k < n <= |s| && n <= |t|
    ensures s[..n] == t[..n] ==> s[k] == t[k]
  {
  }
}
