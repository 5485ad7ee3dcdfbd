/** Consensus rules that look back along a chain of headers: the next difficulty and the median time.
    A chain is the sequence of headers from genesis to the block in question. */
module HeaderChains {
  import opened Core
  import opened Words
  import opened Difficulty

  datatype ChainParams = ChainParams(
    regNet: bool,
    powLimit: nat,
    powLimitBits: uint32,
    targetTimespan: nat,
    targetTimePerBlock: nat,
    adjustmentFactor: nat)

  /** 2^255 - 1 */
  const POW_LIMIT: nat := 128 * Pow256(31) - 1

  const MAINNET := ChainParams(false, POW_LIMIT, 0x1f00_08ff, 60 * 2 * 720, 60 * 2, 4)
  const TESTNET := ChainParams(false, POW_LIMIT, 0x1e1d_a5ff, 10 * 10, 10, 4)
  const REGNET := ChainParams(true, POW_LIMIT, 0x207f_ffff, 10, 1, 4)

  function BlocksPerRetarget(p: ChainParams): nat
    requires p.targetTimePerBlock > 0
  {
    p.targetTimespan / p.targetTimePerBlock
  }

  /** What the parameter sets have in common. */
  predicate GoodParams(p: ChainParams) {
    && p.adjustmentFactor == 4
    && p.targetTimePerBlock > 0
    && p.targetTimespan > 0
    && 1 <= BlocksPerRetarget(p) < 0x1_0000_0000
    && 0 < CompactToBig(p.powLimitBits) <= p.powLimit
    && ByteLen(2 * p.powLimit) <= 255
    && p.powLimit < Pow2(256)
  }

  /** A chain as the block tree holds it: heights count up from genesis. */
  ghost predicate Linked(chain: seq<Header>) {
    chain != [] && forall i :: 0 <= i < |chain| ==> chain[i].height == i
  }

  // ----- The next difficulty -----

  /** Seconds between two timestamps on 32-bit words: a negative difference wraps around. */
  function Elapsed(last: uint32, first: uint32): nat {
    if last >= first then last - first else last + 0x1_0000_0000 - first
  }

  function Clamp(x: nat, lo: nat, hi: nat): nat {
    if x < lo then lo else if x > hi then hi else x
  }

  function NewTarget(p: ChainParams, oldTarget: nat, elapsed: nat): nat
    requires p.targetTimespan > 0 && p.adjustmentFactor > 0
  {
    var adjusted := Clamp(elapsed, p.targetTimespan / p.adjustmentFactor, p.targetTimespan * p.adjustmentFactor);
    var scaled := Scale(oldTarget, adjusted, p.targetTimespan);
    if scaled > p.powLimit then p.powLimit else scaled
  }

  function Scale(x: nat, a: nat, b: nat): nat
    requires b > 0
  {
    (x * a) / b
  }

  /** The compact target that the block after `chain` must carry. */
  function NextBits(p: ChainParams, chain: seq<Header>): uint32
    requires GoodParams(p) && chain != [] && CompactToBig(chain[|chain| - 1].bits) >= 0
  {
    var n := |chain|;
    if n == 1 || p.regNet then p.powLimitBits
    else if n % BlocksPerRetarget(p) != 0 || n < BlocksPerRetarget(p) then chain[n - 1].bits
    else
      var elapsed := Elapsed(chain[n - 1].timestamp, chain[n - BlocksPerRetarget(p)].timestamp);
      BigToCompact(NewTarget(p, CompactToBig(chain[n - 1].bits), elapsed))
  }

  /** Never fails on a linked chain: the block that opens the interval is always found. */
  method CalcNextRequiredDifficulty(p: ChainParams, chain: seq<Header>) returns (bits: Option<uint32>)
    requires GoodParams(p) && Linked(chain) && |chain| < 0x1_0000_0000
    requires CompactToBig(chain[|chain| - 1].bits) >= 0
    ensures bits == Some(NextBits(p, chain))
  {
    hide CompactToBig, BigToCompact, NewTarget, ByteLen, Pow2;
    var prevNode := chain[|chain| - 1];
    if prevNode.height == 0 || p.regNet {
      return Some(p.powLimitBits);
    }
    var interval := BlocksPerRetarget(p);
    hide BlocksPerRetarget, GoodParams;
    if (prevNode.height + 1) % interval != 0 {
      return Some(prevNode.bits);
    }
    AtLeastOneInterval(|chain|, interval);
    IntervalBack(prevNode.height, interval);
    var height := (prevNode.height + 0x1_0000_0000 - interval + 1) % 0x1_0000_0000;
    if height > prevNode.height {
      return None;
    }
    var at := AncestorAt(chain, height);
    var target := NewTarget(p, CompactToBig(prevNode.bits), Elapsed(prevNode.timestamp, chain[at].timestamp));
    return Some(BigToCompact(target));
  }

  /** Follows the parents down to a height. */
  method AncestorAt(chain: seq<Header>, height: nat) returns (at: nat)
    requires Linked(chain) && height < |chain|
    ensures at == height
  {
    at := |chain| - 1;
    while chain[at].height != height
      invariant height <= at < |chain|
    {
      at := at - 1;
    }
  }

  lemma {:induction false} IntervalBack(height: nat, interval: nat)
    requires 1 <= interval <= height + 1 < 0x1_0000_0000
    ensures (height + 0x1_0000_0000 - interval + 1) % 0x1_0000_0000 == height + 1 - interval
  {
  }

  lemma {:induction false} AtLeastOneInterval(n: nat, r: nat)
    requires n > 0 && r > 0 && n % r == 0
    ensures n >= r
  {
  }

  /** Block `i` carries the target that the rule asks for. */
  ghost predicate CarriesNextBits(p: ChainParams, chain: seq<Header>, i: nat)
    requires GoodParams(p) && 1 <= i < |chain|
  {
    CompactToBig(chain[i - 1].bits) >= 0 && chain[i].bits == NextBits(p, chain[..i])
  }

  ghost predicate Accepted(p: ChainParams, chain: seq<Header>)
    requires GoodParams(p)
  {
    Linked(chain) && forall i :: 1 <= i < |chain| ==> CarriesNextBits(p, chain, i)
  }

  /** The networks on which difficulty is adjusted. */
  predicate Adjusts(p: ChainParams) {
    GoodParams(p) && !p.regNet && p.targetTimespan % 4 == 0
  }

  lemma {:induction false} ProductBounds(x: nat, a: nat, q: nat)
    requires q <= a <= 16 * q
    ensures q * x <= x * a <= q * (16 * x)
  {
  }

  lemma {:induction false} ScaleBounds(x: nat, a: nat, q: nat)
    requires q > 0 && q <= a <= 16 * q
    ensures Scale(x, a, 4 * q) <= 4 * x && x < 4 * (Scale(x, a, 4 * q) + 1)
  {
    var s := Scale(x, a, 4 * q);
    DivBounds(x * a, 4 * q);
    ProductBounds(x, a, q);
    assert (4 * q) * s == q * (4 * s);
    assert q * (4 * s) + 4 * q == q * (4 * (s + 1));
    Cancel(q, 4 * s, 16 * x);
    Cancel(q, x, 4 * (s + 1));
  }

  /** One adjustment changes the target by at most a factor of four either way, whatever the
      timestamps say, and never raises it above the limit. */
  lemma {:induction false} NewTargetBounds(p: ChainParams, target: nat, elapsed: nat)
    requires Adjusts(p) && target <= p.powLimit
    ensures NewTarget(p, target, elapsed) <= p.powLimit
    ensures NewTarget(p, target, elapsed) <= 4 * target
    ensures target < 4 * (NewTarget(p, target, elapsed) + 1)
  {
    var q := p.targetTimespan / 4;
    assert p.targetTimespan == 4 * q;
    ScaleBounds(target, Clamp(elapsed, q, p.targetTimespan * 4), q);
  }

  /** The same after the new target went through the compact form. */
  lemma {:induction false} RetargetStep(p: ChainParams, target: nat, elapsed: nat)
    requires Adjusts(p) && target <= p.powLimit
    ensures var t := CompactToBig(BigToCompact(NewTarget(p, target, elapsed)));
            0 <= t <= p.powLimit && t <= 4 * target && target * 0x8000 <= 4 * (t * 0x8001) + 3 * 0x8000
  {
    hide CompactToBig, BigToCompact, NewTarget, ByteLen;
    var x := NewTarget(p, target, elapsed);
    NewTargetBounds(p, target, elapsed);
    if x == 0 {
      DecodeZero();
    } else {
      ByteLenMonotone(2 * x, 2 * p.powLimit);
      CompactRoundsDown(x);
    }
  }

  /** Targets along a chain: within the limit, constant between adjustments, and at most a factor of
      four apart (up to rounding) at each adjustment. */
  lemma {:induction false} RetargetBound(p: ChainParams, chain: seq<Header>, i: nat)
    requires Adjusts(p) && Accepted(p, chain) && 1 <= i < |chain|
    ensures 0 <= CompactToBig(chain[i].bits) <= p.powLimit
    ensures i == 1 ==> chain[i].bits == p.powLimitBits
    ensures i >= 2 && i % BlocksPerRetarget(p) != 0 ==> chain[i].bits == chain[i - 1].bits
    ensures i >= 2 && i % BlocksPerRetarget(p) == 0 ==>
              var t, t0 := CompactToBig(chain[i].bits), CompactToBig(chain[i - 1].bits);
              t <= 4 * t0 && t0 * 0x8000 <= 4 * (t * 0x8001) + 3 * 0x8000
  {
    hide CompactToBig, BigToCompact, NewTarget, ByteLen;
    assert CarriesNextBits(p, chain, i);
    if i >= 2 {
      RetargetBound(p, chain, i - 1);
      var r := BlocksPerRetarget(p);
      if i % r == 0 {
        AtLeastOneInterval(i, r);
        RetargetStep(p, CompactToBig(chain[i - 1].bits), Elapsed(chain[i - 1].timestamp, chain[i - r].timestamp));
      }
    }
  }

  /** What the two timestamps of an interval make of the target: with `w` seconds between them, where a
      negative difference wraps around, the target `x` before it is capped and encoded is the old one
      scaled by `w` over the timespan, rounded down, but by no less than a quarter and no more than four. */
  lemma {:induction false} RetargetExact(p: ChainParams, chain: seq<Header>, i: nat) returns (x: nat)
    requires Adjusts(p) && Accepted(p, chain) && 2 <= i < |chain| && i % BlocksPerRetarget(p) == 0
    ensures BlocksPerRetarget(p) <= i
    ensures chain[i].bits == BigToCompact(if x > p.powLimit then p.powLimit else x)
    ensures var t, s, span := CompactToBig(chain[i - 1].bits), chain[i - 1].timestamp - chain[i - BlocksPerRetarget(p)].timestamp, p.targetTimespan;
      var w := if s < 0 then s + 0x1_0000_0000 else s;
      && (4 * w < span ==> 4 * x <= t < 4 * (x + 1))
      && (span <= 4 * w && w <= 4 * span ==> span * x <= t * w < span * (x + 1))
      && (w > 4 * span ==> x == 4 * t)
  {
    hide CompactToBig, BigToCompact, ByteLen, Scale, Clamp;
    RetargetNext(p, chain, i);
    hide NextBits, Accepted;
    var t, q := CompactToBig(chain[i - 1].bits), p.targetTimespan / 4;
    var w := Elapsed(chain[i - 1].timestamp, chain[i - BlocksPerRetarget(p)].timestamp);
    x := Scale(t, Clamp(w, q, 4 * p.targetTimespan), p.targetTimespan);
    ScaleExact(t, w, q);
  }

  lemma {:induction false} RetargetNext(p: ChainParams, chain: seq<Header>, i: nat)
    requires Adjusts(p) && Accepted(p, chain) && 2 <= i < |chain| && i % BlocksPerRetarget(p) == 0
    ensures BlocksPerRetarget(p) <= i && CompactToBig(chain[i - 1].bits) >= 0
    ensures chain[i].bits == BigToCompact(NewTarget(p, CompactToBig(chain[i - 1].bits), Elapsed(chain[i - 1].timestamp, chain[i - BlocksPerRetarget(p)].timestamp)))
  {
    hide CompactToBig, BigToCompact, ByteLen, NewTarget, Elapsed, BlocksPerRetarget;
    AtLeastOneInterval(i, BlocksPerRetarget(p));
    assert CarriesNextBits(p, chain, i);
  }

  /** The longer an interval took, the larger the new target; an interval on schedule changes nothing. */
  lemma {:induction false} NewTargetGrows(p: ChainParams, t: nat, u: nat, v: nat)
    requires Adjusts(p) && u <= v
    ensures NewTarget(p, t, u) <= NewTarget(p, t, v) <= p.powLimit
    ensures t <= p.powLimit ==> NewTarget(p, t, p.targetTimespan) == t
  {
    hide CompactToBig, ByteLen, Pow2, Scale, Clamp;
    var q := p.targetTimespan / 4;
    assert p.targetTimespan == 4 * q && p.targetTimespan * 4 == 16 * q;
    ScaleGrows(t, u, v, q);
    ScaleGrows(t, 4 * q, 4 * q, q);
  }

  lemma {:induction false} ScaleMeans(t: nat, a: nat, b: nat)
    requires b > 0
    ensures b * Scale(t, a, b) <= t * a < b * (Scale(t, a, b) + 1)
  {
    DivBounds(t * a, b);
    MulSucc(b, Scale(t, a, b));
  }

  lemma {:induction false} Regroup(q: nat, x: int)
    ensures (4 * q) * x == q * (4 * x)
  {
  }

  lemma {:induction false} Quarter(t: nat, q: nat)
    requires q > 0
    ensures var x := Scale(t, q, 4 * q); 4 * x <= t < 4 * (x + 1)
  {
    hide Scale;
    var x := Scale(t, q, 4 * q);
    ScaleMeans(t, q, 4 * q);
    Regroup(q, x);
    Regroup(q, x + 1);
    Cancel(q, 4 * x, t);
    Cancel(q, t, 4 * (x + 1));
  }

  lemma {:induction false} Fourfold(t: nat, q: nat, k: nat)
    requires q > 0
    ensures Scale(t, k * (4 * q), 4 * q) == k * t
  {
    hide Scale;
    var x := Scale(t, k * (4 * q), 4 * q);
    ScaleMeans(t, k * (4 * q), 4 * q);
    assert t * (k * (4 * q)) == (4 * q) * (k * t);
    Cancel(4 * q, x, k * t);
    Cancel(4 * q, k * t, x + 1);
  }

  lemma {:induction false} ScaleExact(t: nat, w: nat, q: nat)
    requires q > 0
    ensures var x := Scale(t, Clamp(w, q, 16 * q), 4 * q);
      && (w < q ==> 4 * x <= t < 4 * (x + 1))
      && (q <= w <= 16 * q ==> (4 * q) * x <= t * w < (4 * q) * (x + 1))
      && (w > 16 * q ==> x == 4 * t)
  {
    hide Scale;
    if w < q {
      Quarter(t, q);
    } else if w > 16 * q {
      assert 4 * (4 * q) == 16 * q;
      Fourfold(t, q, 4);
    } else {
      ScaleMeans(t, w, 4 * q);
    }
  }

  lemma {:induction false} ScaleGrows(t: nat, w: nat, w': nat, q: nat)
    requires q > 0 && w <= w'
    ensures Scale(t, Clamp(w, q, 16 * q), 4 * q) <= Scale(t, Clamp(w', q, 16 * q), 4 * q)
    ensures w == 4 * q ==> Scale(t, Clamp(w, q, 16 * q), 4 * q) == t
  {
    hide Scale;
    var a, a' := Clamp(w, q, 16 * q), Clamp(w', q, 16 * q);
    hide Clamp;
    ScaleMeans(t, a, 4 * q);
    ScaleMeans(t, a', 4 * q);
    MulMonotone(t, a, a');
    Cancel(4 * q, Scale(t, a, 4 * q), Scale(t, a', 4 * q) + 1);
    if w == 4 * q {
      assert 1 * (4 * q) == 4 * q;
      Fourfold(t, q, 1);
    }
  }

  /** Of two intervals that start from the same target, the one that took longer never leads to a
      smaller target. */
  lemma {:induction false} SlowerIsEasier(p: ChainParams, a: seq<Header>, i: nat, b: seq<Header>, j: nat)
    requires Adjusts(p) && Accepted(p, a) && Accepted(p, b)
    requires 2 <= i < |a| && 2 <= j < |b| && i % BlocksPerRetarget(p) == 0 == j % BlocksPerRetarget(p)
    requires CompactToBig(a[i - 1].bits) == CompactToBig(b[j - 1].bits)
    ensures BlocksPerRetarget(p) <= i && BlocksPerRetarget(p) <= j
    ensures 0 <= a[i - 1].timestamp - a[i - BlocksPerRetarget(p)].timestamp <= b[j - 1].timestamp - b[j - BlocksPerRetarget(p)].timestamp ==>
              CompactToBig(a[i].bits) <= CompactToBig(b[j].bits)
  {
    hide CompactToBig, BigToCompact, ByteLen, NewTarget, NextBits, Accepted;
    var r, t := BlocksPerRetarget(p), CompactToBig(a[i - 1].bits);
    RetargetNext(p, a, i);
    RetargetNext(p, b, j);
    hide BlocksPerRetarget;
    var u, v := Elapsed(a[i - 1].timestamp, a[i - r].timestamp), Elapsed(b[j - 1].timestamp, b[j - r].timestamp);
    if a[i - 1].timestamp >= a[i - r].timestamp && u <= v {
      NewTargetGrows(p, t, u, v);
      TargetsOrdered(p, NewTarget(p, t, u), NewTarget(p, t, v));
    }
  }

  lemma {:induction false} TargetsOrdered(p: ChainParams, x: nat, y: nat)
    requires GoodParams(p) && x <= y <= p.powLimit
    ensures CompactToBig(BigToCompact(x)) <= CompactToBig(BigToCompact(y))
  {
    hide CompactToBig, BigToCompact, ByteLen;
    DecodeZero();
    ByteLenMonotone(2 * x, 2 * p.powLimit);
    ByteLenMonotone(2 * y, 2 * p.powLimit);
    if x > 0 {
      CompactMonotone(x, y);
    } else if y > 0 {
      CompactRoundsDown(y);
    }
  }

  /** An interval that took as long as it should leaves the target as it was; a shorter one never makes
      it larger, and a longer one never smaller. */
  lemma {:induction false} OnSchedule(p: ChainParams, chain: seq<Header>, i: nat)
    requires Adjusts(p) && Accepted(p, chain) && 2 <= i < |chain| && i % BlocksPerRetarget(p) == 0
    ensures BlocksPerRetarget(p) <= i
    ensures var t, t0, s := CompactToBig(chain[i].bits), CompactToBig(chain[i - 1].bits), chain[i - 1].timestamp - chain[i - BlocksPerRetarget(p)].timestamp;
      && (s == p.targetTimespan ==> t == t0)
      && (0 <= s <= p.targetTimespan ==> t <= t0)
      && (s >= p.targetTimespan ==> t >= t0)
  {
    hide CompactToBig, BigToCompact, ByteLen, NewTarget, NextBits;
    var r, t0 := BlocksPerRetarget(p), CompactToBig(chain[i - 1].bits);
    RetargetNext(p, chain, i);
    RetargetBound(p, chain, i - 1);
    hide BlocksPerRetarget, Accepted;
    var w := Elapsed(chain[i - 1].timestamp, chain[i - r].timestamp);
    Recoded(chain[i - 1].bits);
    if chain[i - 1].timestamp >= chain[i - r].timestamp {
      if w <= p.targetTimespan {
        NewTargetGrows(p, t0, w, p.targetTimespan);
        TargetsOrdered(p, NewTarget(p, t0, w), t0);
      }
      if w >= p.targetTimespan {
        NewTargetGrows(p, t0, p.targetTimespan, w);
        TargetsOrdered(p, t0, NewTarget(p, t0, w));
      }
    }
  }

  /** The target of an accepted block survives encoding. */
  lemma {:induction false} Recoded(bits: uint32)
    requires CompactToBig(bits) >= 0
    ensures CompactToBig(BigToCompact(CompactToBig(bits))) == CompactToBig(bits)
  {
    hide CompactToBig, BigToCompact, ByteLen;
    DecodeZero();
    if CompactToBig(bits) > 0 {
      CompactStable(bits);
    }
  }

  lemma {:induction false} LimitPower()
    ensures Pow256(32) == 2 * POW_LIMIT + 2
  {
  }

  lemma {:induction false} ByteIsEightBits(e: nat)
    ensures Pow2(8 * e) == Pow256(e)
  {
    if e > 0 {
      ByteIsEightBits(e - 1);
      var k := 8 * (e - 1);
      assert Pow2(k + 8) == 2 * Pow2(k + 7) && Pow2(k + 7) == 2 * Pow2(k + 6) && Pow2(k + 6) == 2 * Pow2(k + 5);
      assert Pow2(k + 5) == 2 * Pow2(k + 4) && Pow2(k + 4) == 2 * Pow2(k + 3) && Pow2(k + 3) == 2 * Pow2(k + 2);
      assert Pow2(k + 2) == 2 * Pow2(k + 1) && Pow2(k + 1) == 2 * Pow2(k);
    }
  }

  lemma {:induction false} LimitLength()
    ensures ByteLen(2 * POW_LIMIT) <= 32
  {
    hide ByteLen, Pow256;
    LimitPower();
    LengthAtMost(2 * POW_LIMIT, 32);
  }

  /** A compact target of at most 32 bytes is within the limit. */
  lemma {:induction false} WithinLimit(c: uint32)
    requires 4 <= c / 0x100_0000 <= 32 && 0 < c % 0x100_0000 < 0x80_0000
    ensures 0 < CompactToBig(c) <= POW_LIMIT
  {
    var m, k := c % 0x100_0000, c / 0x100_0000 - 3;
    assert c % 0x80_0000 == m && (c / 0x80_0000) % 2 == 0;
    assert CompactToBig(c) == ShlBytes(m, k);
    ShiftWithinLimit(m, k);
  }

  lemma {:induction false} ShiftWithinLimit(m: nat, k: nat)
    requires 0 < m < 0x80_0000 && k <= 29
    ensures 0 < ShlBytes(m, k) <= POW_LIMIT
  {
    hide Pow256, ShlBytes;
    LimitPower();
    ShlOfZero(k);
    ShlStrict(0, m, k);
    ShlDouble(m, k);
    SmallPowers();
    ShlOfPow(3, k);
    ShlStrict(2 * m, 0x100_0000, k);
    Pow256Monotone(3 + k, 32);
  }

  lemma {:induction false} Networks()
    ensures Adjusts(MAINNET) && Adjusts(TESTNET) && GoodParams(REGNET)
    ensures BlocksPerRetarget(MAINNET) == 720 && BlocksPerRetarget(TESTNET) == 10 && 2 * POW_LIMIT + 2 == Pow2(256)
  {
    hide CompactToBig, ByteLen, Pow256, Pow2;
    LimitLength();
    LimitPower();
    ByteIsEightBits(32);
    WithinLimit(0x1f00_08ff);
    WithinLimit(0x1e1d_a5ff);
    WithinLimit(0x207f_ffff);
  }

  // ----- Median time past -----

  const MEDIAN_TIME_BLOCKS := 11

  function Insert(x: nat, s: seq<nat>): seq<nat> {
    if s == [] || x <= s[0] then [x] + s else [s[0]] + Insert(x, s[1..])
  }

  function Sort(s: seq<nat>): seq<nat> {
    if s == [] then [] else Insert(s[0], Sort(s[1..]))
  }

  /** The number of elements below `x`. */
  ghost function Below(s: seq<nat>, x: nat): nat {
    if s == [] then 0 else Below(s[1..], x) + if s[0] < x then 1 else 0
  }

  ghost predicate Ascending(s: seq<nat>) {
    forall i, j :: 0 <= i < j < |s| ==> s[i] <= s[j]
  }

  lemma {:induction false} InsertSorted(x: nat, s: seq<nat>)
    requires Ascending(s)
    ensures Ascending(Insert(x, s)) && |Insert(x, s)| == |s| + 1
    ensures forall y :: y in Insert(x, s) <==> y == x || y in s
    ensures forall y :: Below(Insert(x, s), y) == Below(s, y) + if x < y then 1 else 0
  {
    if s == [] || x <= s[0] {
      assert ([x] + s)[1..] == s;
    } else {
      InsertSorted(x, s[1..]);
      var t := Insert(x, s[1..]);
      assert ([s[0]] + t)[1..] == t;
      assert s == [s[0]] + s[1..];
      forall i | 0 <= i < |t| ensures s[0] <= t[i] {
        assert t[i] in t;
      }
    }
  }

  lemma {:induction false} SortSorted(s: seq<nat>)
    ensures Ascending(Sort(s)) && |Sort(s)| == |s|
    ensures forall y :: Below(Sort(s), y) == Below(s, y)
  {
    if s != [] {
      SortSorted(s[1..]);
      InsertSorted(s[0], Sort(s[1..]));
    }
  }

  /** In an ascending list fewer than `k+1` elements are below element `k`, and at least `k+1` are
      below anything larger. */
  lemma {:induction false} BelowInSorted(s: seq<nat>, k: nat, x: nat)
    requires Ascending(s) && k < |s|
    ensures Below(s, s[k]) <= k
    ensures s[k] < x ==> Below(s, x) >= k + 1
  {
    if k == 0 {
      NoneBelow(s, s[0]);
    } else {
      BelowInSorted(s[1..], k - 1, x);
    }
  }

  lemma {:induction false} NoneBelow(s: seq<nat>, x: nat)
    requires forall i :: 0 <= i < |s| ==> x <= s[i]
    ensures Below(s, x) == 0
  {
    if s != [] {
      NoneBelow(s[1..], x);
    }
  }

  lemma {:induction false} BelowPrefix(s: seq<nat>, n: nat, x: nat)
    requires n <= |s|
    ensures Below(s[..n], x) <= Below(s, x)
  {
    if n > 0 {
      BelowPrefix(s[1..], n - 1, x);
      assert s[..n][1..] == s[1..][..n - 1];
    }
  }

  /** The timestamps of the last blocks, newest first. */
  function Window(chain: seq<Header>): seq<nat> {
    var n := if |chain| < MEDIAN_TIME_BLOCKS then |chain| else MEDIAN_TIME_BLOCKS;
    seq(n, i requires 0 <= i < n => chain[|chain| - 1 - i].timestamp)
  }

  function MedianTime(chain: seq<Header>): nat
    requires chain != []
  {
    SortSorted(Window(chain));
    Sort(Window(chain))[|Window(chain)| / 2]
  }

  /** The last `n` blocks whose timestamps are below `x`, by their positions. */
  ghost function Older(chain: seq<Header>, n: nat, x: nat): set<int>
    requires n <= |chain|
  {
    set i | |chain| - n <= i < |chain| && chain[i].timestamp < x
  }

  lemma {:induction false} OlderCounted(chain: seq<Header>, n: nat, w: seq<nat>, x: nat)
    requires n <= |chain| && |w| == n && forall i :: 0 <= i < n ==> w[i] == chain[|chain| - 1 - i].timestamp
    ensures |Older(chain, n, x)| == Below(w, x)
  {
    if n == 0 {
      assert Older(chain, 0, x) == {};
    } else {
      var last := |chain| - 1;
      OlderCounted(chain[..last], n - 1, w[1..], x);
      assert Older(chain, n, x) == Older(chain[..last], n - 1, x) + if chain[last].timestamp < x then {last} else {};
    }
  }

  /** Among the last eleven timestamps, or all if there are fewer, at most half are below the median,
      and more than half are at most the median. */
  lemma {:induction false} MedianIsMiddle(chain: seq<Header>)
    requires chain != []
    ensures var n, m := if |chain| < 11 then |chain| else 11, MedianTime(chain);
      |Older(chain, n, m)| <= n / 2 < |Older(chain, n, m + 1)|
  {
    hide Sort;
    var w, m := Window(chain), MedianTime(chain);
    SortSorted(w);
    BelowInSorted(Sort(w), |w| / 2, m + 1);
    OlderCounted(chain, |w|, w, m);
    OlderCounted(chain, |w|, w, m + 1);
  }

  method CalcPastMedianTime(chain: seq<Header>) returns (median: nat)
    requires chain != []
    ensures median == MedianTime(chain)
  {
    var timestamps: seq<nat> := [];
    var iter := |chain| - 1;
    var i := 0;
    while i < MEDIAN_TIME_BLOCKS && iter >= 0
      invariant 0 <= i <= MEDIAN_TIME_BLOCKS && iter == |chain| - 1 - i && iter >= -1
      invariant |timestamps| == i && forall j :: 0 <= j < i ==> timestamps[j] == chain[|chain| - 1 - j].timestamp
    {
      timestamps := timestamps + [chain[iter].timestamp];
      iter := iter - 1;
      i := i + 1;
    }
    assert timestamps == Window(chain);
    SortSorted(timestamps);
    median := Sort(timestamps)[|timestamps| / 2];
  }

  /** Every block after the first is newer than the median before it. */
  ghost predicate TimesAdvance(chain: seq<Header>) {
    forall i :: 1 <= i < |chain| ==> MedianTime(chain[..i]) < chain[i].timestamp
  }

  lemma {:induction false} WindowSlides(chain: seq<Header>, i: nat)
    requires 1 <= i < |chain|
    ensures var w := Window(chain[..i]);
            Window(chain[..i + 1]) == [chain[i].timestamp as nat] + w[..if |w| < MEDIAN_TIME_BLOCKS then |w| else MEDIAN_TIME_BLOCKS - 1]
  {
  }

  lemma {:induction false} MedianStep(w: seq<nat>, w': seq<nat>, t: nat, keep: nat)
    requires w != [] && keep <= |w| <= keep + 1 && w' == [t] + w[..keep]
    requires |Sort(w)| == |w| && |Sort(w')| == |w'|
    requires Sort(w)[|w| / 2] < t
    ensures Sort(w)[|w| / 2] <= Sort(w')[|w'| / 2]
  {
    var m, m' := Sort(w)[|w| / 2], Sort(w')[|w'| / 2];
    SortSorted(w);
    SortSorted(w');
    BelowInSorted(Sort(w), |w| / 2, m);
    BelowInSorted(Sort(w'), |w'| / 2, m);
    BelowPrefix(w, keep, m);
    assert w'[1..] == w[..keep];
    assert Below(w', m) == Below(w[..keep], m);
  }

  lemma {:induction false} MedianAdvances(chain: seq<Header>, i: nat)
    requires 1 <= i < |chain| && MedianTime(chain[..i]) < chain[i].timestamp
    ensures MedianTime(chain[..i]) <= MedianTime(chain[..i + 1])
  {
    hide Sort;
    var w, w' := Window(chain[..i]), Window(chain[..i + 1]);
    SortSorted(w);
    SortSorted(w');
    WindowSlides(chain, i);
    MedianStep(w, w', chain[i].timestamp, if |w| < MEDIAN_TIME_BLOCKS then |w| else MEDIAN_TIME_BLOCKS - 1);
  }

  /** The median time past never decreases along a chain, whether the window is still growing or
      already sliding. */
  lemma {:induction false} MedianNeverDecreases(chain: seq<Header>, i: nat, j: nat)
    requires TimesAdvance(chain) && 1 <= i <= j <= |chain|
    ensures MedianTime(chain[..i]) <= MedianTime(chain[..j])
  {
    hide MedianTime;
    if i < j {
      MedianNeverDecreases(chain, i, j - 1);
      MedianAdvances(chain, j - 1);
    }
  }
}
