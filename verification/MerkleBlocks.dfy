/** The merkle block message, and the stack machine that checks it, which is proved against the
    recursive functions of `MerkleTree`. */
module MerkleBlocks {
  import opened Words
  import opened Core
  import opened MerkleTree

  /** `root` is the Merkle root of the block header that the message carries. */
  datatype MerkleBlock = MerkleBlock(root: Hash, transactions: uint32, hashes: seq<Hash>, flags: seq<byte>)

  // ----- Flag bytes -----

  /** The flag bits of a message, low bit of each byte first. */
  function FlagBits(flags: seq<byte>): (bits: seq<bool>)
    ensures |bits| == 8 * |flags|
  {
    seq(8 * |flags|, j requires 0 <= j < 8 * |flags| => Shr(flags[j / 8], j % 8) % 2 == 1)
  }

  lemma {:induction false} FlagBitsTail(flags: seq<byte>)
    requires flags != []
    ensures FlagBits(flags)[8..] == FlagBits(flags[1..])
  {
  }

  /** Reading one flag bit and moving on, as the checker does it. */
  lemma {:induction false} NextFlag(flags: seq<byte>, i: nat)
    requires flags != [] && i < 8
    ensures FlagBits(flags)[i] <==> And(flags[0], Pow2(i)) != 0
    ensures FlagBits(flags)[i..][1..] == if i + 1 == 8 then FlagBits(flags[1..])[0..] else FlagBits(flags)[i + 1..]
  {
    assert i / 8 == 0 && i % 8 == i;
    TestBit(flags[0], i);
    FlagBitsTail(flags);
  }

  // ----- Positions -----

  lemma {:induction false} WidthBound(n: nat, h: nat, l: nat)
    requires n <= Pow2(h + l)
    ensures Width(n, h) <= Pow2(l)
    ensures n > 0 ==> Width(n, h) > 0
  {
    if h > 0 {
      WidthBound(n, h - 1, l + 1);
    }
  }

  /** The packed position of node `k` of the row `l` steps below the root, in a tree of depth `d`. */
  function Pos(d: nat, l: nat, k: int): int {
    2 * Pow2(d) - 2 * Pow2(l) + k
  }

  lemma {:induction false} RowUnique(d: nat, l: nat, k: nat, l': nat, k': nat)
    requires k < Pow2(l) && k' < Pow2(l')
    requires Pos(d, l, k) == Pos(d, l', k')
    ensures l == l' && k == k'
  {
    if l < l' {
      Pow2Monotone(l + 1, l');
    } else if l' < l {
      Pow2Monotone(l' + 1, l);
    }
  }

  method TreeDepth(n: uint32) returns (e: nat)
    requires n <= 0x8000_0000
    ensures e == Depth(n) && e <= 31
  {
    e := 0;
    Pow2Of31();
    ShlPow2(0);
    while Shl(1, e) < n
      invariant e <= 31 && Shl(1, e) == Pow2(e)
      invariant e > 0 ==> Pow2(e - 1) < n
      decreases 32 - e
    {
      assert e != 31;
      e := e + 1;
      ShlPow2(e);
    }
    DepthUnique(n, e);
  }

  /** Above 2^31 leaves the loop of `TreeDepth` has no exit: no 32-bit power of two is large enough. */
  lemma {:induction false} TreeDepthDiverges(n: uint32, e: nat)
    requires n > 0x8000_0000
    ensures Shl(1, e) < n
  {
    if e <= 31 {
      ShlPow2(e);
    } else {
      ShlGone(e);
    }
  }

  method NextPowerOfTwo(n: uint32) returns (msb: nat)
    requires n <= 0x8000_0000
    ensures msb == Pow2(Depth(n)) <= 0x8000_0000
  {
    var e := TreeDepth(n);
    ShlPow2(e);
    msb := Shl(1, e);
  }

  /** The position of the parent: halve and set the top bit. */
  method ParentOf(pos: nat, msb: nat, ghost d: nat) returns (p: nat)
    requires msb == Pow2(d) && pos < 2 * msb
    ensures p == pos / 2 + msb
  {
    ShrOne(pos);
    OrAbove(pos / 2, d);
    p := Or(Shr(pos, 1), msb);
  }

  /** The position of the left child of an upper node: clear the top bit and double. */
  method LeftChildOf(pos: nat, msb: nat, ghost d: nat) returns (p: nat)
    requires msb == Pow2(d) <= 0x8000_0000 && msb <= pos < 2 * msb
    ensures p == 2 * (pos - msb)
  {
    XorTop(pos, d);
    ShlOne(pos - msb);
    p := Shl(Xor(pos, msb), 1);
  }

  /** The position of the right sibling of a left node; a right node stays where it is. */
  method RightOfPair(pos: nat) returns (p: nat)
    ensures p == if pos % 2 == 0 then pos + 1 else pos
  {
    LowBit(pos);
    p := Or(pos, 1);
  }

  method IsUpper(pos: nat, msb: nat, ghost d: nat) returns (upper: bool)
    requires msb == Pow2(d) && pos < 2 * msb
    ensures upper <==> pos >= msb
  {
    TopBit(pos, d);
    upper := And(pos, msb) != 0;
  }

  method IsRightSide(pos: nat) returns (right: bool)
    ensures right <==> pos % 2 == 1
  {
    LowBit(pos);
    right := And(pos, 1) != 0;
  }

  method RootPos(msb: nat) returns (pos: nat)
    requires 1 <= msb <= 0x8000_0000
    ensures pos == 2 * msb - 2
  {
    assert Shl(msb, 0) == msb;
    pos := Sub32(Shl(msb, 1), 2);
  }

  lemma {:induction false} HalfPos(a: int, b: int, k: int)
    ensures (2 * a - 4 * b + k) / 2 + a == 2 * a - 2 * b + k / 2
  {
  }

  lemma {:induction false} PosAbove(d: nat, l: nat, k: nat)
    requires 0 < l <= d && k < Pow2(l)
    ensures 0 <= Pos(d, l, k) < 2 * Pow2(d)
    ensures Pos(d, l, k) / 2 + Pow2(d) == Pos(d, l - 1, k / 2)
  {
    Pow2Monotone(l, d);
    HalfPos(Pow2(d), Pow2(l - 1), k);
  }

  /** Where a row of the tree ends, and its last populated position. */
  ghost function RowEnd(d: nat, row: nat): int
    requires row <= d
  {
    2 * Pow2(d) - Pow2(d - row)
  }

  ghost function RowLast(size: nat, d: nat, row: nat): int
    requires row <= d
  {
    Pos(d, d - row, Width(size, row) - 1)
  }

  lemma {:induction false} RowAbove(size: nat, d: nat, row: nat)
    requires row < d && 0 < size <= Pow2(d)
    ensures 0 <= RowEnd(d, row) < 2 * Pow2(d) && RowEnd(d, row) / 2 + Pow2(d) == RowEnd(d, row + 1)
    ensures 0 <= RowLast(size, d, row) < 2 * Pow2(d) && RowLast(size, d, row) / 2 + Pow2(d) == RowLast(size, d, row + 1)
    ensures Pos(d, d - row - 1, 0) == RowEnd(d, row)
  {
    WidthBound(size, row, d - row);
    PosAbove(d, d - row, Width(size, row) - 1);
    Pow2Monotone(d - row, d);
    HalfPos(Pow2(d), 0, -2 * Pow2(d - row - 1));
  }

  /** A position is dead when it lies past the root or names a node that does not exist. */
  method InDeadZone(pos: uint32, size: uint32) returns (dead: bool)
    requires 1 <= size <= 0x8000_0000
    ensures pos > 2 * Pow2(Depth(size)) - 2 ==> dead
    ensures forall l: nat, k: nat :: l <= Depth(size) && k < Pow2(l) && pos == Pos(Depth(size), l, k)
              ==> (dead <==> !Populated(size, Depth(size) - l, k))
  {
    ghost var d := Depth(size);
    var msb := NextPowerOfTwo(size);
    var last: nat := size - 1;
    var root := RootPos(msb);
    if pos > root {
      return true;
    }
    var h: nat := msb;
    ghost var row := 0;
    while pos >= h
      invariant row <= d && h == RowEnd(d, row) && last == RowLast(size, d, row)
      invariant Pos(d, d - row, 0) <= pos <= 2 * msb - 2
      decreases d - row
    {
      assert row != d;
      RowAbove(size, d, row);
      h := ParentOf(h, msb, d);
      last := ParentOf(last, msb, d);
      row := row + 1;
    }
    DeadInRow(size, d, row, pos);
    return pos > last;
  }

  lemma {:induction false} DeadInRow(size: nat, d: nat, row: nat, pos: nat)
    requires row <= d && Pos(d, d - row, 0) <= pos < RowEnd(d, row)
    ensures forall l: nat, k: nat :: l <= d && k < Pow2(l) && pos == Pos(d, l, k)
              ==> (pos > RowLast(size, d, row) <==> !Populated(size, d - l, k))
  {
    forall l: nat, k: nat | l <= d && k < Pow2(l) && pos == Pos(d, l, k)
      ensures pos > RowLast(size, d, row) <==> !Populated(size, d - l, k)
    {
      RowUnique(d, l, k, d - row, pos - Pos(d, d - row, 0));
    }
  }

  // ----- Where the stack machine stands -----

  /** The way from the root to the node being read: at each step into a right child the hash of the
      left one is already known. */
  datatype Path = Top | LeftOf(up: Path) | RightOf(up: Path, left: Hash)

  ghost function Len(path: Path): nat {
    match path
    case Top => 0
    case LeftOf(up) => Len(up) + 1
    case RightOf(up, _) => Len(up) + 1
  }

  ghost function Index(path: Path): nat {
    match path
    case Top => 0
    case LeftOf(up) => 2 * Index(up)
    case RightOf(up, _) => 2 * Index(up) + 1
  }

  /** The path stays within the nodes that exist. */
  ghost predicate OnTree(n: nat, d: nat, path: Path) {
    match path
    case Top => true
    case LeftOf(up) => OnTree(n, d, up) && Len(up) < d
    case RightOf(up, _) => OnTree(n, d, up) && Len(up) < d && Populated(n, d - Len(up) - 1, 2 * Index(up) + 1)
  }

  /** The position the machine is at when it reads the node at the end of the path. */
  ghost function PosOf(d: nat, path: Path): int {
    match path
    case Top => 2 * Pow2(d) - 2
    case LeftOf(up) => 2 * (PosOf(d, up) - Pow2(d))
    case RightOf(up, _) => 2 * (PosOf(d, up) - Pow2(d)) + 1
  }

  lemma {:induction false} PosOfNode(d: nat, path: Path)
    ensures PosOf(d, path) == Pos(d, Len(path), Index(path))
  {
    match path
    case Top =>
    case LeftOf(up) => PosOfNode(d, up);
    case RightOf(up, _) => PosOfNode(d, up);
  }

  lemma {:induction false} PathNode(n: nat, d: nat, path: Path)
    requires n > 0 && n <= Pow2(d) && OnTree(n, d, path)
    ensures Len(path) <= d && Index(path) < Pow2(Len(path))
    ensures Populated(n, d - Len(path), Index(path))
  {
    match path
    case Top => WidthBound(n, d, 0);
    case LeftOf(up) => PathNode(n, d, up);
    case RightOf(up, _) => PathNode(n, d, up);
  }

  lemma {:induction false} PosRange(d: nat, l: nat, k: nat)
    requires l <= d <= 31 && k < Pow2(l)
    ensures 0 <= Pos(d, l, k) <= 2 * Pow2(d) - 2 && 2 * Pow2(d) <= MOD32
    ensures Pos(d, l, k) >= Pow2(d) <==> l < d
    ensures l == d ==> Pos(d, l, k) == k
  {
    ShlPow2(d);
    Pow2Monotone(l, d);
    if l < d {
      Pow2Monotone(l + 1, d);
    }
  }

  /** What the machine learns from the position of a node, and where it moves. */
  lemma {:induction false} NodePos(n: nat, d: nat, path: Path)
    requires n > 0 && n <= Pow2(d) && d <= 31 && OnTree(n, d, path)
    ensures 0 <= PosOf(d, path) < 2 * Pow2(d) <= MOD32 && Len(path) <= d
    ensures PosOf(d, path) >= Pow2(d) <==> Len(path) < d
    ensures PosOf(d, path) % 2 == 1 <==> path.RightOf?
    ensures Len(path) == d ==> PosOf(d, path) < n
  {
    PathNode(n, d, path);
    PosOfNode(d, path);
    PosRange(d, Len(path), Index(path));
    PosParity(d, path);
    if Len(path) == d {
      assert Width(n, 0) == n;
    }
  }

  lemma {:induction false} PosParity(d: nat, path: Path)
    ensures PosOf(d, path) % 2 == 1 <==> path.RightOf?
  {
    match path
    case Top => EvenAndOdd(Pow2(d) - 1);
    case LeftOf(up) => EvenAndOdd(PosOf(d, up) - Pow2(d));
    case RightOf(up, _) => EvenAndOdd(PosOf(d, up) - Pow2(d));
  }

  lemma {:induction false} ParentPos(n: nat, d: nat, path: Path)
    requires n > 0 && n <= Pow2(d) && OnTree(n, d, path) && !path.Top?
    ensures PosOf(d, path) / 2 + Pow2(d) == PosOf(d, path.up)
  {
  }

  /** The stack that stands for a path: every ancestor is on it without a hash, and every left
      sibling with its hash. */
  ghost function Encode(d: nat, path: Path): seq<MerkleNode> {
    match path
    case Top => []
    case LeftOf(up) => Encode(d, up) + [MerkleNode(PosOf(d, up), None)]
    case RightOf(up, l) => Encode(d, up) + [MerkleNode(PosOf(d, up), None), MerkleNode(PosOf(d, LeftOf(up)), Some(l))]
  }

  /** The outcome of the whole parse, given the outcome for the node at the end of the path. */
  ghost function Finish(pair: PairHash, n: nat, d: nat, path: Path, r: Parse): Parse
    requires OnTree(n, d, path)
  {
    match path
    case Top => r
    case RightOf(up, l) => Finish(pair, n, d, up, Join(pair, l, r))
    case LeftOf(up) =>
      match r
      case Failed(_) => r
      case Parsed(l, c) =>
        var h, k := d - Len(up) - 1, 2 * Index(up) + 1;
        if Populated(n, h, k) then Finish(pair, n, d, up, Join(pair, l, ParseNode(pair, n, h, k, c)))
        else Finish(pair, n, d, up, Parsed(pair(l, l), c))
  }

  lemma {:induction false} FinishFailed(pair: PairHash, n: nat, d: nat, path: Path, e: CheckError)
    requires OnTree(n, d, path)
    ensures Finish(pair, n, d, path, Failed(e)) == Failed(e)
  {
    match path
    case Top =>
    case LeftOf(up) =>
    case RightOf(up, _) => FinishFailed(pair, n, d, up, e);
  }

  /** The stack and position when the hash `y` of the node at the end of the path is known.  After
      the right child of an upper row the position has already moved to the parent. */
  ghost predicate Filled(d: nat, path: Path, y: Hash, stack: seq<MerkleNode>, pos: int) {
    && stack == Encode(d, path) + [MerkleNode(PosOf(d, path), Some(y))]
    && match path
       case Top => true
       case LeftOf(_) => pos == PosOf(d, path) + 1
       case RightOf(up, _) => pos == PosOf(d, path) || pos == PosOf(d, up)
  }

  /** The states the machine is in at the head of its loop.  A left child whose right sibling exists
      counts as the start of reading that sibling. */
  ghost predicate At(n: nat, d: nat, path: Path, filled: Option<Hash>, stack: seq<MerkleNode>, pos: int) {
    && OnTree(n, d, path)
    && match filled
       case None => stack == Encode(d, path) && pos == PosOf(d, path)
       case Some(y) =>
         && Filled(d, path, y, stack, pos)
         && (path.LeftOf? ==> !Populated(n, d - Len(path), Index(path) + 1))
  }

  /** The outcome of the whole parse from such a state. */
  ghost function Rest(pair: PairHash, n: nat, d: nat, path: Path, filled: Option<Hash>, c: Cursor): Parse
    requires n > 0 && n <= Pow2(d) && OnTree(n, d, path)
  {
    PathNode(n, d, path);
    Finish(pair, n, d, path, if filled.Some? then Parsed(filled.value, c)
                             else ParseNode(pair, n, d - Len(path), Index(path), c))
  }

  lemma {:induction false} EncodeRight(d: nat, up: Path, y: Hash)
    ensures Encode(d, RightOf(up, y)) == Encode(d, LeftOf(up)) + [MerkleNode(PosOf(d, LeftOf(up)), Some(y))]
  {
  }

  lemma {:induction false} StartRight(pair: PairHash, n: nat, d: nat, up: Path, y: Hash, c: Cursor)
    requires n > 0 && n <= Pow2(d) && OnTree(n, d, RightOf(up, y))
    ensures Rest(pair, n, d, RightOf(up, y), None, c) == Finish(pair, n, d, LeftOf(up), Parsed(y, c))
  {
  }

  lemma {:induction false} Settle(pair: PairHash, n: nat, d: nat, path: Path, y: Hash, stack: seq<MerkleNode>, pos: int, c: Cursor)
    returns (path': Path, filled: Option<Hash>)
    requires n > 0 && n <= Pow2(d) && OnTree(n, d, path) && Filled(d, path, y, stack, pos)
    ensures At(n, d, path', filled, stack, pos)
    ensures Rest(pair, n, d, path', filled, c) == Finish(pair, n, d, path, Parsed(y, c))
  {
    if path.LeftOf? && Populated(n, d - Len(path), Index(path) + 1) {
      path', filled := RightOf(path.up, y), None;
      EncodeRight(d, path.up, y);
      StartRight(pair, n, d, path.up, y, c);
    } else {
      path', filled := path, Some(y);
    }
  }

  /** Which stack operation the machine can perform, read off the state. */
  lemma {:induction false} StackShape(n: nat, d: nat, path: Path, filled: Option<Hash>, stack: seq<MerkleNode>, pos: int)
    requires At(n, d, path, filled, stack, pos)
    ensures var tip := |stack| - 1;
      && ((tip == 0 && stack[0].h.Some?) <==> (filled.Some? && path.Top?))
      && ((tip > 1 && stack[tip - 1].h.Some? && stack[tip].h.Some?) <==> (filled.Some? && path.RightOf?))
      && (filled.Some? ==> tip >= 0 && stack[tip].h == filled)
      && (filled.Some? && path.LeftOf? ==> tip >= 1 && stack[tip - 1].p == PosOf(d, path.up))
      && (filled.Some? && path.RightOf? ==> stack[tip - 1].h == Some(path.left) && stack[tip - 2].p == PosOf(d, path.up))
  {
  }

  /** The position is in the dead zone exactly when the right sibling is missing. */
  lemma {:induction false} PosShape(n: nat, d: nat, path: Path, filled: Option<Hash>, stack: seq<MerkleNode>, pos: int)
    returns (l: nat, k: nat)
    requires n > 0 && n <= Pow2(d) && At(n, d, path, filled, stack, pos) && d <= 31
    requires filled.None? || !path.Top?
    ensures 0 <= pos < MOD32 && l <= d && k < Pow2(l) && pos == Pos(d, l, k)
    ensures Populated(n, d - l, k) <==> !(filled.Some? && path.LeftOf?)
  {
    PathNode(n, d, path);
    PosOfNode(d, path);
    l, k := Len(path), Index(path);
    if filled.Some? {
      PathNode(n, d, path.up);
      PosOfNode(d, path.up);
      if path.LeftOf? {
        k := k + 1;
      } else if pos == PosOf(d, path.up) {
        l, k := Len(path.up), Index(path.up);
      }
    }
    PosRange(d, l, k);
  }

  lemma {:induction false} DescendRest(pair: PairHash, n: nat, d: nat, path: Path, c: Cursor)
    requires n > 0 && n <= Pow2(d) && OnTree(n, d, path) && Len(path) < d
    requires c.hashes != [] && c.bits != [] && c.bits[0]
    ensures Rest(pair, n, d, LeftOf(path), None, c.(bits := c.bits[1..])) == Rest(pair, n, d, path, None, c)
  {
    var h, k := d - Len(path), Index(path);
    var left := ParseNode(pair, n, h - 1, 2 * k, c.(bits := c.bits[1..]));
    ParseInner(pair, n, h, k, c);
    assert Rest(pair, n, d, path, None, c) == Finish(pair, n, d, path, ParseNode(pair, n, h, k, c));
    assert Rest(pair, n, d, LeftOf(path), None, c.(bits := c.bits[1..])) == Finish(pair, n, d, LeftOf(path), left);
    hide ParseNode, Rest, Index;
    FinishLeftOf(pair, n, d, path, left);
  }

  lemma {:induction false} FinishLeftOf(pair: PairHash, n: nat, d: nat, path: Path, left: Parse)
    requires OnTree(n, d, path) && Len(path) < d && OnTree(n, d, LeftOf(path))
    ensures var h, k := d - Len(path) - 1, 2 * Index(path) + 1;
      Finish(pair, n, d, LeftOf(path), left) ==
        Finish(pair, n, d, path,
          if left.Failed? then left
          else if Populated(n, h, k) then Join(pair, left.hash, ParseNode(pair, n, h, k, left.at))
          else Parsed(pair(left.hash, left.hash), left.at))
  {
    hide ParseNode, Index, Len;
    if left.Failed? {
      FinishFailed(pair, n, d, path, left.error);
    }
  }

  /** A node with its flag set, in terms of its children. */
  lemma {:induction false} ParseInner(pair: PairHash, n: nat, h: nat, k: nat, c: Cursor)
    requires h > 0 && c.hashes != [] && c.bits != [] && c.bits[0]
    ensures var left := ParseNode(pair, n, h - 1, 2 * k, c.(bits := c.bits[1..]));
      ParseNode(pair, n, h, k, c) ==
        if left.Failed? then left
        else if Populated(n, h - 1, 2 * k + 1) then Join(pair, left.hash, ParseNode(pair, n, h - 1, 2 * k + 1, left.at))
        else Parsed(pair(left.hash, left.hash), left.at)
  {
  }

  /** The position after a node was closed: its right sibling, or the node itself. */
  lemma {:induction false} Closed(pair: PairHash, n: nat, d: nat, path: Path, y: Hash, stack: seq<MerkleNode>, pos: int, c: Cursor)
    returns (path': Path, filled: Option<Hash>)
    requires n > 0 && n <= Pow2(d) && d <= 31 && OnTree(n, d, path)
    requires stack == Encode(d, path) + [MerkleNode(PosOf(d, path), Some(y))]
    requires pos == if PosOf(d, path) % 2 == 0 then PosOf(d, path) + 1 else PosOf(d, path)
    ensures At(n, d, path', filled, stack, pos)
    ensures Rest(pair, n, d, path', filled, c) == Finish(pair, n, d, path, Parsed(y, c))
  {
    NodePos(n, d, path);
    path', filled := Settle(pair, n, d, path, y, stack, pos, c);
  }

  lemma {:induction false} OnlyChildRest(pair: PairHash, n: nat, d: nat, path: Path, x: Hash, c: Cursor)
    requires n > 0 && n <= Pow2(d) && OnTree(n, d, path) && path.LeftOf?
    requires !Populated(n, d - Len(path), Index(path) + 1)
    ensures Rest(pair, n, d, path, Some(x), c) == Finish(pair, n, d, path.up, Parsed(pair(x, x), c))
  {
  }

  lemma {:induction false} PairRest(pair: PairHash, n: nat, d: nat, path: Path, x: Hash, c: Cursor)
    requires n > 0 && n <= Pow2(d) && OnTree(n, d, path) && path.RightOf? && x != path.left
    ensures Rest(pair, n, d, path, Some(x), c) == Finish(pair, n, d, path.up, Parsed(pair(path.left, x), c))
  {
  }

  lemma {:induction false} DuplicateRest(pair: PairHash, n: nat, d: nat, path: Path, c: Cursor)
    requires n > 0 && n <= Pow2(d) && OnTree(n, d, path) && path.RightOf?
    ensures Rest(pair, n, d, path, Some(path.left), c) == Failed(DuplicateHash)
  {
    FinishFailed(pair, n, d, path.up, DuplicateHash);
  }

  /** The stack after the machine took the hash of a node from the message. */
  lemma {:induction false} ReadHash(pair: PairHash, n: nat, d: nat, path: Path, stack: seq<MerkleNode>, pos: int, c: Cursor)
    returns (path': Path, filled: Option<Hash>, c': Cursor)
    requires n > 0 && n <= Pow2(d) && OnTree(n, d, path)
    requires c.hashes != [] && c.bits != [] && (Len(path) < d ==> !c.bits[0])
    requires Filled(d, path, c.hashes[0], stack, pos)
    ensures At(n, d, path', filled, stack, pos)
    ensures c' == Cursor(c.bits[1..], c.hashes[1..], if Len(path) == d && c.bits[0] then c.found + [c.hashes[0]] else c.found)
    ensures Rest(pair, n, d, path', filled, c') == Rest(pair, n, d, path, None, c)
  {
    PathNode(n, d, path);
    c' := ParseNode(pair, n, d - Len(path), Index(path), c).at;
    path', filled := Settle(pair, n, d, path, c.hashes[0], stack, pos, c');
  }

  // ----- The checker -----

  /** A node on the stack; `None` until its hash is known. */
  datatype MerkleNode = MerkleNode(p: int, h: Option<Hash>)

  datatype Parent = Hashed(hash: Hash) | Refused(error: CheckError)

  function MakeMerkleParent(pair: PairHash, left: Option<Hash>, right: Option<Hash>): Parent {
    if left.Some? && right.Some? && left.value == right.value then Refused(DuplicateHash)
    else if left.None? then Refused(LeftChildMissing)
    else Hashed(pair(left.value, if right.Some? then right.value else left.value))
  }

  /** What the machine does next: finish, close a node, or read the next node. */
  datatype Operation = Done | OnlyChild | TwoChildren | NextNode

  method NextOperation(n: uint32, stack: seq<MerkleNode>, pos: nat, ghost d: nat, ghost path: Path, ghost filled: Option<Hash>)
    returns (op: Operation)
    requires 1 <= n <= 0x8000_0000 && d == Depth(n) && d <= 31 && At(n, d, path, filled, stack, pos)
    ensures op == match filled
                  case None => NextNode
                  case Some(_) => if path.Top? then Done else if path.LeftOf? then OnlyChild else TwoChildren
    ensures op.Done? ==> stack == [MerkleNode(PosOf(d, path), filled)]
  {
    StackShape(n, d, path, filled, stack, pos);
    var tip := |stack| - 1;
    if tip == 0 && stack[0].h.Some? {
      return Done;
    }
    ghost var l, k := PosShape(n, d, path, filled, stack, pos);
    var dead := InDeadZone(pos, n);
    if dead {
      return OnlyChild;
    }
    if tip > 1 && stack[tip - 1].h.Some? && stack[tip].h.Some? {
      return TwoChildren;
    }
    return NextNode;
  }

  /** An only child: hash the node on top of the stack with itself into its parent. */
  method CloseOnlyChild(pair: PairHash, stack: seq<MerkleNode>, ghost n: nat, ghost d: nat,
                        ghost path: Path, ghost x: Hash, ghost c: Cursor)
    returns (stack': seq<MerkleNode>, pos: nat, ghost path': Path, ghost filled: Option<Hash>)
    requires n > 0 && n <= Pow2(d) && d <= 31 && OnTree(n, d, path) && path.LeftOf?
    requires !Populated(n, d - Len(path), Index(path) + 1)
    requires stack == Encode(d, path) + [MerkleNode(PosOf(d, path), Some(x))]
    ensures At(n, d, path', filled, stack', pos) && |stack'| < |stack|
    ensures Rest(pair, n, d, path', filled, c) == Rest(pair, n, d, path, Some(x), c)
  {
    NodePos(n, d, path.up);
    var tip := |stack| - 1;
    var parent := MakeMerkleParent(pair, stack[tip].h, None);
    stack' := stack[tip - 1 := stack[tip - 1].(h := Some(parent.hash))];
    stack' := stack'[..tip];
    assert stack' == Encode(d, path.up) + [MerkleNode(PosOf(d, path.up), Some(pair(x, x)))];
    pos := RightOfPair(stack'[tip - 1].p);
    OnlyChildRest(pair, n, d, path, x, c);
    path', filled := Closed(pair, n, d, path.up, pair(x, x), stack', pos, c);
  }

  /** Two children: hash the two nodes on top of the stack into their parent, unless they are equal. */
  method ClosePair(pair: PairHash, stack: seq<MerkleNode>, ghost n: nat, ghost d: nat,
                   ghost path: Path, ghost x: Hash, ghost c: Cursor)
    returns (ok: bool, stack': seq<MerkleNode>, pos: nat, ghost path': Path, ghost filled: Option<Hash>)
    requires n > 0 && n <= Pow2(d) && d <= 31 && OnTree(n, d, path) && path.RightOf?
    requires stack == Encode(d, path) + [MerkleNode(PosOf(d, path), Some(x))]
    ensures !ok ==> Rest(pair, n, d, path, Some(x), c) == Failed(DuplicateHash)
    ensures ok ==> At(n, d, path', filled, stack', pos) && |stack'| < |stack|
    ensures ok ==> Rest(pair, n, d, path', filled, c) == Rest(pair, n, d, path, Some(x), c)
  {
    stack', pos, path', filled := stack, 0, path, None;
    NodePos(n, d, path.up);
    var tip := |stack| - 1;
    var parent := MakeMerkleParent(pair, stack[tip - 1].h, stack[tip].h);
    ok := parent.Hashed?;
    if !ok {
      DuplicateRest(pair, n, d, path, c);
      return;
    }
    stack' := stack[tip - 2 := stack[tip - 2].(h := Some(parent.hash))];
    stack' := stack'[..tip - 1];
    assert stack' == Encode(d, path.up) + [MerkleNode(PosOf(d, path.up), Some(parent.hash))];
    pos := RightOfPair(stack'[tip - 2].p);
    PairRest(pair, n, d, path, x, c);
    path', filled := Closed(pair, n, d, path.up, parent.hash, stack', pos, c);
  }

  /** Push the next node: take its hash from the message, or descend into it if its flag says so. */
  method PushNode(pair: PairHash, stack: seq<MerkleNode>, pos: nat, hashes: seq<Hash>, flag: bool, found: seq<Hash>,
                  msb: nat, ghost n: nat, ghost d: nat, ghost path: Path, ghost c: Cursor)
    returns (stack': seq<MerkleNode>, pos': nat, hashes': seq<Hash>, found': seq<Hash>,
             ghost path': Path, ghost filled: Option<Hash>, ghost c': Cursor)
    requires n > 0 && n <= Pow2(d) && d <= 31 && At(n, d, path, None, stack, pos) && msb == Pow2(d)
    requires c.hashes == hashes != [] && c.bits != [] && c.bits[0] == flag && c.found == found
    ensures At(n, d, path', filled, stack', pos')
    ensures c' == Cursor(c.bits[1..], hashes', found')
    ensures Rest(pair, n, d, path', filled, c') == Rest(pair, n, d, path, None, c)
  {
    NodePos(n, d, path);
    pos', hashes', found' := pos, hashes, found;
    var node := MerkleNode(pos, None);
    var upper := IsUpper(pos, msb, d);
    var rightSide := IsRightSide(pos);
    if upper {
      if !flag {
        node := node.(h := Some(hashes[0]));
        hashes' := hashes[1..];
        if rightSide {
          ParentPos(n, d, path);
          pos' := ParentOf(pos, msb, d);
        } else {
          pos' := RightOfPair(pos);
        }
        stack' := stack + [node];
        path', filled, c' := ReadHash(pair, n, d, path, stack', pos', c);
      } else {
        pos' := LeftChildOf(pos, msb, d);
        stack' := stack + [node];
        DescendRest(pair, n, d, path, c);
        path', filled, c' := LeftOf(path), None, c.(bits := c.bits[1..]);
      }
    } else {
      assert pos < n;
      node := node.(h := Some(hashes[0]));
      hashes' := hashes[1..];
      if flag {
        found' := found + [node.h.value];
      }
      if !rightSide {
        pos' := RightOfPair(pos);
      }
      stack' := stack + [node];
      path', filled, c' := ReadHash(pair, n, d, path, stack', pos', c);
    }
  }

  lemma {:induction false} StartOfCheck(pair: PairHash, n: nat, d: nat, c: Cursor)
    requires n > 0 && n <= Pow2(d)
    ensures At(n, d, Top, None, [], 2 * Pow2(d) - 2)
    ensures Rest(pair, n, d, Top, None, c) == ParseNode(pair, n, d, 0, c)
  {
  }

  lemma {:induction false} RestDone(pair: PairHash, n: nat, d: nat, x: Hash, c: Cursor)
    requires n > 0 && n <= Pow2(d) && OnTree(n, d, Top)
    ensures Rest(pair, n, d, Top, Some(x), c) == Parsed(x, c)
  {
  }

  lemma {:induction false} OutOf(pair: PairHash, n: nat, d: nat, path: Path, c: Cursor)
    requires n > 0 && n <= Pow2(d) && OnTree(n, d, path)
    ensures c.hashes == [] ==> Rest(pair, n, d, path, None, c) == Failed(RanOutOfHashes)
    ensures c.hashes != [] && c.bits == [] ==> Rest(pair, n, d, path, None, c) == Failed(RanOutOfFlags)
  {
    FinishFailed(pair, n, d, path, RanOutOfHashes);
    FinishFailed(pair, n, d, path, RanOutOfFlags);
  }

  /** Takes the next flag bit; a byte that is used up is dropped. */
  method TakeFlag(flags: seq<byte>, i: nat, ghost bits: seq<bool>) returns (flag: bool, flags': seq<byte>, i': nat)
    requires flags != [] && i < 8 && bits == FlagBits(flags)[i..]
    ensures bits != [] && flag == bits[0]
    ensures i' < 8 && (flags' == [] ==> i' == 0) && bits[1..] == FlagBits(flags')[i'..]
    ensures 8 * |flags'| - i' < 8 * |flags| - i
  {
    NextFlag(flags, i);
    flag := And(flags[0], Pow2(i)) != 0;
    flags', i' := flags, i + 1;
    if i' == 8 {
      i' := 0;
      flags' := flags[1..];
    }
  }

  /** The main loop: from the root position and an empty stack it computes the recursive parse. */
  method RunMachine(pair: PairHash, m: MerkleBlock, msb: nat, rootPos: nat, ghost d: nat) returns (res: Checked)
    requires 1 <= m.transactions <= 0x8000_0000 && m.flags != []
    requires d == Depth(m.transactions) && d <= 31 && m.transactions <= Pow2(d) && msb == Pow2(d) && rootPos == 2 * msb - 2
    ensures res == Against(m.root, ParseNode(pair, m.transactions, d, 0, Cursor(FlagBits(m.flags), m.hashes, [])))
  {
    hide Depth, Pow2, ParseNode, Encode, PosOf, Rest;
    var n := m.transactions;
    var hashes, flags := m.hashes, m.flags;
    var stack: seq<MerkleNode> := [];
    var found: seq<Hash> := [];
    var pos := rootPos;
    var i: nat := 0;
    ghost var path, filled := Top, None;
    ghost var c := Cursor(FlagBits(flags), hashes, []);
    ghost var want := ParseNode(pair, n, d, 0, c);
    StartOfCheck(pair, n, d, c);
    while true
      invariant At(n, d, path, filled, stack, pos)
      invariant i < 8 && (flags == [] ==> i == 0)
      invariant c == Cursor(FlagBits(flags)[i..], hashes, found)
      invariant want == Rest(pair, n, d, path, filled, c)
      decreases 8 * |flags| - i, |stack|
    {
      var op := NextOperation(n, stack, pos, d, path, filled);
      if op.Done? {
        RestDone(pair, n, d, filled.value, c);
        if stack[0].h.value == m.root {
          return Accept(found);
        }
        return Reject(RootMismatch);
      }
      if op.OnlyChild? {
        stack, pos, path, filled := CloseOnlyChild(pair, stack, n, d, path, filled.value, c);
        continue;
      }
      if op.TwoChildren? {
        var ok;
        ok, stack, pos, path, filled := ClosePair(pair, stack, n, d, path, filled.value, c);
        if !ok {
          return Reject(DuplicateHash);
        }
        continue;
      }
      OutOf(pair, n, d, path, c);
      if hashes == [] {
        return Reject(RanOutOfHashes);
      }
      if flags == [] {
        return Reject(RanOutOfFlags);
      }
      var flag;
      flag, flags, i := TakeFlag(flags, i, c.bits);
      stack, pos, hashes, found, path, filled, c := PushNode(pair, stack, pos, hashes, flag, found, msb, n, d, path, c);
    }
  }

  /** The stack machine computes the recursive check: same result, same error, for every message. */
  method CheckMerkleBlock(pair: PairHash, m: MerkleBlock) returns (res: Checked)
    requires m.transactions <= 0x8000_0000
    ensures res == Check(pair, m.transactions, FlagBits(m.flags), m.hashes, m.root)
  {
    hide Pow2, ParseNode;
    if m.transactions == 0 {
      return Reject(NoTransactions);
    }
    if m.flags == [] {
      return Reject(NoFlagBits);
    }
    var msb := NextPowerOfTwo(m.transactions);
    var pos := RootPos(msb);
    DepthAtMost31(m.transactions);
    res := RunMachine(pair, m, msb, pos, Depth(m.transactions));
  }
}
