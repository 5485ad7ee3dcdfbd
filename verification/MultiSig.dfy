/** Matching signatures with public keys: each signature takes the first remaining key that verifies it. */
module MultiSig {
  import opened Core
  import opened ListIndex

  /** The signature check for the data of one transaction. */
  type Verify = (Bytes, Bytes) -> bool

  // ----- The greedy match and the matching it looks for -----

  /** The first key that verifies a signature, or the number of keys if there is none. */
  function FirstMatch(verify: Verify, sig: Bytes, keys: seq<Bytes>): (i: nat)
    ensures i <= |keys| && (i < |keys| ==> verify(sig, keys[i]))
    ensures forall j :: 0 <= j < i ==> !verify(sig, keys[j])
  {
    if keys == [] || verify(sig, keys[0]) then 0 else 1 + FirstMatch(verify, sig, keys[1..])
  }

  ghost predicate Greedy(verify: Verify, sigs: seq<Bytes>, keys: seq<Bytes>) {
    sigs == [] ||
    var i := FirstMatch(verify, sigs[0], keys);
    i < |keys| && Greedy(verify, sigs[1..], RemoveAt(keys, i))
  }

  ghost predicate Fits(verify: Verify, sig: Bytes, keys: seq<Bytes>, slot: nat) {
    slot < |keys| && verify(sig, keys[slot])
  }

  /** Every signature has a key slot of its own that verifies it. */
  ghost predicate Assigned(verify: Verify, sigs: seq<Bytes>, keys: seq<Bytes>, slots: seq<nat>) {
    && |slots| == |sigs| && NoDup(slots)
    && forall i :: 0 <= i < |slots| ==> Fits(verify, sigs[i], keys, slots[i])
  }

  /** The slots of the keys that are left when one is taken away, in the list with it. */
  ghost function Outer(slot: nat, removed: nat): nat {
    if slot < removed then slot else slot + 1
  }

  ghost function Inner(slot: nat, removed: nat): nat
    requires slot != removed
  {
    if slot < removed then slot else slot - 1
  }

  lemma {:induction false} KeysLeft(keys: seq<Bytes>, i: nat)
    requires i < |keys|
    ensures |RemoveAt(keys, i)| == |keys| - 1
    ensures forall s: nat :: s < |keys| - 1 ==> RemoveAt(keys, i)[s] == keys[Outer(s, i)]
    ensures forall s: nat :: s < |keys| && s != i ==> RemoveAt(keys, i)[Inner(s, i)] == keys[s]
  {
  }

  /** What the greedy match finds is a matching. */
  lemma {:induction false} GreedySound(verify: Verify, sigs: seq<Bytes>, keys: seq<Bytes>) returns (slots: seq<nat>)
    requires Greedy(verify, sigs, keys)
    ensures Assigned(verify, sigs, keys, slots)
  {
    slots := [];
    if sigs != [] {
      var i := FirstMatch(verify, sigs[0], keys);
      var rest := GreedySound(verify, sigs[1..], RemoveAt(keys, i));
      slots := Prepend(verify, sigs, keys, i, rest);
    }
  }

  lemma {:induction false} FitsOuter(verify: Verify, sig: Bytes, keys: seq<Bytes>, i: nat, slot: nat)
    requires i < |keys| && Fits(verify, sig, RemoveAt(keys, i), slot)
    ensures Fits(verify, sig, keys, Outer(slot, i)) && Outer(slot, i) != i
  {
  }

  lemma {:induction false} FitsInner(verify: Verify, sig: Bytes, keys: seq<Bytes>, i: nat, slot: nat)
    requires i < |keys| && Fits(verify, sig, keys, slot) && slot != i
    ensures Inner(slot, i) >= 0 && Fits(verify, sig, RemoveAt(keys, i), Inner(slot, i))
  {
  }

  /** A matching for the rest of the signatures on the rest of the keys, with the first one added. */
  lemma {:induction false} Prepend(verify: Verify, sigs: seq<Bytes>, keys: seq<Bytes>, i: nat, rest: seq<nat>) returns (slots: seq<nat>)
    requires sigs != [] && i < |keys| && verify(sigs[0], keys[i])
    requires Assigned(verify, sigs[1..], RemoveAt(keys, i), rest)
    ensures Assigned(verify, sigs, keys, slots)
  {
    assert Fits(verify, sigs[0], keys, i);
    hide RemoveAt, Fits;
    var outers := seq(|rest|, j requires 0 <= j < |rest| => Outer(rest[j], i));
    slots := [i] + outers;
    forall j | 0 <= j < |rest| ensures Fits(verify, sigs[j + 1], keys, outers[j]) && outers[j] != i {
      assert sigs[1..][j] == sigs[j + 1];
      assert Fits(verify, sigs[j + 1], RemoveAt(keys, i), rest[j]);
      FitsOuter(verify, sigs[j + 1], keys, i, rest[j]);
    }
    assert NoDup(slots);
    hide Outer, NoDup;
    forall j | 0 <= j < |slots| ensures Fits(verify, sigs[j], keys, slots[j]) {
      if j > 0 {
        assert slots[j] == outers[j - 1];
      } else {
        assert slots[j] == i;
      }
    }
  }

  /** The slots of a matching for the rest of the signatures once the first one took its slot. */
  lemma {:induction false} DropFirst(verify: Verify, sigs: seq<Bytes>, keys: seq<Bytes>, slots: seq<nat>) returns (rest: seq<nat>)
    requires sigs != [] && Assigned(verify, sigs, keys, slots)
    ensures Assigned(verify, sigs[1..], RemoveAt(keys, slots[0]), rest)
  {
    var i := slots[0];
    assert i < |keys| by {
      assert Fits(verify, sigs[0], keys, i);
    }
    hide RemoveAt, Fits;
    assert forall j :: 0 < j < |slots| ==> slots[j] != i;
    rest := seq(|slots| - 1, j requires 0 <= j < |slots| - 1 => Inner(slots[j + 1], i));
    assert NoDup(rest);
    forall j | 0 <= j < |rest| ensures Fits(verify, sigs[1..][j], RemoveAt(keys, i), rest[j]) {
      assert sigs[1..][j] == sigs[j + 1] && Fits(verify, sigs[j + 1], keys, slots[j + 1]);
      FitsInner(verify, sigs[j + 1], keys, i, slots[j + 1]);
    }
  }

  // ----- When the greedy match finds every matching -----

  /** Signatures that share a key share every later key of either of them. */
  ghost predicate Nested(verify: Verify, keys: seq<Bytes>) {
    forall s, s', i, p :: 0 <= i < p < |keys| ==> Conform(verify, keys, s, s', i, p)
  }

  ghost predicate Conform(verify: Verify, keys: seq<Bytes>, s: Bytes, s': Bytes, i: nat, p: nat)
    requires i < |keys| && p < |keys|
  {
    verify(s, keys[i]) && verify(s', keys[i]) && verify(s, keys[p]) ==> verify(s', keys[p])
  }

  lemma {:induction false} NestedInherited(verify: Verify, keys: seq<Bytes>, i: nat)
    requires Nested(verify, keys) && i < |keys|
    ensures Nested(verify, RemoveAt(keys, i))
  {
    KeysLeft(keys, i);
    var rest := RemoveAt(keys, i);
    forall s, s', a, p | 0 <= a < p < |rest| ensures Conform(verify, rest, s, s', a, p) {
      assert Conform(verify, keys, s, s', Outer(a, i), Outer(p, i));
    }
  }

  /** Moves the first signature of a matching to the first key that verifies it; a signature that
      held that key gets the one that becomes free. */
  lemma {:induction false} Exchange(verify: Verify, sigs: seq<Bytes>, keys: seq<Bytes>, slots: seq<nat>) returns (slots': seq<nat>)
    requires Nested(verify, keys) && sigs != [] && Assigned(verify, sigs, keys, slots)
    ensures Assigned(verify, sigs, keys, slots') && slots'[0] == FirstMatch(verify, sigs[0], keys)
  {
    var i, p := FirstMatch(verify, sigs[0], keys), slots[0];
    assert i <= p;
    slots' := slots[0 := i];
    if i != p && i in slots {
      var j :| 0 <= j < |slots| && slots[j] == i;
      assert Conform(verify, keys, sigs[0], sigs[j], i, p);
      slots' := slots'[j := p];
      forall a, b | 0 <= a < b < |slots'| ensures slots'[a] != slots'[b] {
        assert slots[a] != slots[b];
      }
    }
  }

  lemma {:induction false} GreedyComplete(verify: Verify, sigs: seq<Bytes>, keys: seq<Bytes>, slots: seq<nat>)
    requires Nested(verify, keys) && Assigned(verify, sigs, keys, slots)
    ensures Greedy(verify, sigs, keys)
  {
    if sigs != [] {
      var i := FirstMatch(verify, sigs[0], keys);
      var slots' := Exchange(verify, sigs, keys, slots);
      var rest := DropFirst(verify, sigs, keys, slots');
      NestedInherited(verify, keys, i);
      GreedyComplete(verify, sigs[1..], RemoveAt(keys, i), rest);
    }
  }

  /** Each signature verifies under at most one key value. */
  ghost predicate Unambiguous(verify: Verify, keys: seq<Bytes>) {
    forall s, i, p :: 0 <= i < p < |keys| && verify(s, keys[i]) && verify(s, keys[p]) ==> keys[i] == keys[p]
  }

  lemma {:induction false} UnambiguousNested(verify: Verify, keys: seq<Bytes>)
    requires Unambiguous(verify, keys)
    ensures Nested(verify, keys)
  {
  }

  // ----- When it does not -----

  ghost function Repeat(s: Bytes, r: nat): seq<Bytes> {
    seq(r, _ => s)
  }

  /** The slots of the keys that verify a signature. */
  ghost function SlotsOf(verify: Verify, s: Bytes, keys: seq<Bytes>): seq<nat> {
    if keys == [] then []
    else
      var last := |keys| - 1;
      SlotsOf(verify, s, keys[..last]) + if verify(s, keys[last]) then [last] else []
  }

  lemma {:induction false} SlotsOfKeys(verify: Verify, s: Bytes, keys: seq<Bytes>)
    ensures NoDup(SlotsOf(verify, s, keys))
    ensures forall i: nat :: i in SlotsOf(verify, s, keys) <==> Fits(verify, s, keys, i)
  {
    if keys != [] {
      var last := |keys| - 1;
      var init := SlotsOf(verify, s, keys[..last]);
      SlotsOfKeys(verify, s, keys[..last]);
      forall i: nat ensures Fits(verify, s, keys, i) <==> Fits(verify, s, keys[..last], i) || (i == last && verify(s, keys[last])) {
      }
      assert Fits(verify, s, keys, last) <==> verify(s, keys[last]);
      assert SlotsOf(verify, s, keys) == init + if verify(s, keys[last]) then [last] else [];
      assert last !in init;
      hide SlotsOf, Fits;
      OneMoreSlot(init, last);
    }
  }

  lemma {:induction false} OneMoreSlot(init: seq<nat>, last: nat)
    requires NoDup(init) && last !in init
    ensures NoDup(init + [last]) && forall i :: i in init + [last] <==> i in init || i == last
  {
  }

  /** Copies of one signature, more than there are keys for it, are not matched. */
  lemma {:induction false} TooMany(verify: Verify, s: Bytes, r: nat, keys: seq<Bytes>, some: seq<nat>)
    requires r > |some| && forall i: nat :: i < |keys| && verify(s, keys[i]) ==> i in some
    ensures !Greedy(verify, Repeat(s, r), keys)
  {
    if Greedy(verify, Repeat(s, r), keys) {
      var slots := GreedySound(verify, Repeat(s, r), keys);
      forall i | 0 <= i < |slots| ensures slots[i] in some {
        assert Repeat(s, r)[i] == s;
      }
      Pigeons(slots, some);
    }
  }

  lemma {:induction false} Pigeons(a: seq<nat>, b: seq<nat>)
    requires NoDup(a) && forall i :: 0 <= i < |a| ==> a[i] in b
    ensures |a| <= |b|
  {
    if a != [] {
      var last := |a| - 1;
      var j :| 0 <= j < |b| && b[j] == a[last];
      var b' := RemoveAt(b, j);
      forall i | 0 <= i < last ensures a[..last][i] in b' {
        var k :| 0 <= k < |b| && b[k] == a[i];
        assert b'[if k < j then k else k - 1] == a[i];
      }
      Pigeons(a[..last], b');
    }
  }

  /** The first key of `s` is one of `s'`: `s` followed by a copy of `s'` for each of its keys. */
  lemma {:induction false} Blocked(verify: Verify, keys: seq<Bytes>, s: Bytes, s': Bytes, p: nat) returns (sigs: seq<Bytes>, slots: seq<nat>)
    requires p < |keys| && verify(s, keys[p]) && !verify(s', keys[p]) && FirstMatch(verify, s, keys) < |keys|
    requires verify(s', keys[FirstMatch(verify, s, keys)])
    ensures Assigned(verify, sigs, keys, slots) && !Greedy(verify, sigs, keys)
  {
    var own := SlotsOf(verify, s', keys);
    var rest := Repeat(s', |own|);
    sigs, slots := [s] + rest, [p] + own;
    assert sigs[1..] == rest;
    OneTooMany(verify, keys, s', FirstMatch(verify, s, keys));
    assert !Greedy(verify, sigs, keys);
    hide Greedy, SlotsOf, FirstMatch;
    SlotsOfKeys(verify, s', keys);
    assert Fits(verify, s, keys, p) && p !in own;
    forall j | 0 < j < |slots| ensures Fits(verify, sigs[j], keys, slots[j]) && slots[j] != p {
      assert slots[j] == own[j - 1] && own[j - 1] in own && sigs[j] == rest[j - 1];
    }
  }

  lemma {:induction false} OneTooMany(verify: Verify, keys: seq<Bytes>, s': Bytes, i: nat)
    requires i < |keys| && verify(s', keys[i])
    ensures !Greedy(verify, Repeat(s', |SlotsOf(verify, s', keys)|), RemoveAt(keys, i))
  {
    hide RemoveAt, Greedy;
    var own := SlotsOf(verify, s', keys);
    SlotsOfKeys(verify, s', keys);
    var some := Without(own, i);
    KeysLeft(keys, i);
    var left: seq<nat> := seq(|some|, j requires 0 <= j < |some| => if some[j] <= i then some[j] else some[j] - 1);
    forall k: nat | k < |keys| - 1 && verify(s', RemoveAt(keys, i)[k]) ensures k in left {
      assert verify(s', keys[Outer(k, i)]);
      assert Outer(k, i) in some;
      var j :| 0 <= j < |some| && some[j] == Outer(k, i);
      assert left[j] == k;
    }
    TooMany(verify, s', |own|, RemoveAt(keys, i), left);
  }

  lemma {:induction false} Without(s: seq<nat>, x: nat) returns (t: seq<nat>)
    requires x in s && NoDup(s)
    ensures |t| == |s| - 1 && forall y :: y in s && y != x ==> y in t
  {
    var j :| 0 <= j < |s| && s[j] == x;
    RemoveAtElements(s, j);
    t := RemoveAt(s, j);
  }

  /** Two signatures that share a key, but not a later key of the first: some signatures with a
      matching are turned down. */
  lemma {:induction false} Incomplete(verify: Verify, keys: seq<Bytes>, s: Bytes, s': Bytes, i: nat, p: nat) returns (sigs: seq<Bytes>, slots: seq<nat>)
    requires i < p < |keys| && !Conform(verify, keys, s, s', i, p)
    ensures Assigned(verify, sigs, keys, slots) && !Greedy(verify, sigs, keys)
    decreases |keys|
  {
    hide Assigned, RemoveAt;
    var f := FirstMatch(verify, s, keys);
    if verify(s', keys[f]) {
      sigs, slots := Blocked(verify, keys, s, s', p);
    } else {
      KeysLeft(keys, f);
      var rest, others := Incomplete(verify, RemoveAt(keys, f), s, s', Inner(i, f), Inner(p, f));
      sigs := [s] + rest;
      assert sigs[1..] == rest;
      slots := Prepend(verify, sigs, keys, f, others);
    }
  }

  /** The greedy match finds a match whenever there is one, exactly for nested keys. */
  lemma {:induction false} WhenComplete(verify: Verify, keys: seq<Bytes>)
    ensures Nested(verify, keys) <==> forall sigs, slots :: Assigned(verify, sigs, keys, slots) ==> Greedy(verify, sigs, keys)
  {
    if Nested(verify, keys) {
      forall sigs, slots | Assigned(verify, sigs, keys, slots) ensures Greedy(verify, sigs, keys) {
        GreedyComplete(verify, sigs, keys, slots);
      }
    } else {
      var s, s', i, p :| 0 <= i < p < |keys| && !Conform(verify, keys, s, s', i, p);
      var sigs, slots := Incomplete(verify, keys, s, s', i, p);
    }
  }

  /** Two keys, a signature that both verify, and one that only the first verifies: there is a
      matching, and the greedy match misses it. */
  lemma {:induction false} AmbiguousSignature()
    ensures var verify: Verify := (sig, key) => sig == [0] || sig == key;
      Assigned(verify, [[0], [1]], [[1], [2]], [1, 0]) && !Greedy(verify, [[0], [1]], [[1], [2]])
  {
  }

  // ----- The instruction -----

  /** Every stack item can be read as a number and as bytes. */
  datatype StackItem = Boolean(b: bool) | Data(number: int, bytes: Bytes)

  function Number(item: StackItem): int {
    match item
    case Boolean(b) => if b then 1 else 0
    case Data(number, _) => number
  }

  function BytesOf(item: StackItem): Bytes {
    match item
    case Boolean(b) => if b then [1] else [0]
    case Data(_, bytes) => bytes
  }

  datatype VMState = NONE | FAULT

  class ExecutionEngine {
    /** The top is the last item. */
    var evaluationStack: seq<StackItem>
    var opCount: int
    const maxSteps: int

    method Pop() returns (item: StackItem)
      requires evaluationStack != []
      modifies this`evaluationStack
      ensures evaluationStack == old(evaluationStack)[..|old(evaluationStack)| - 1]
      ensures item == old(evaluationStack)[|old(evaluationStack)| - 1]
    {
      item := evaluationStack[|evaluationStack| - 1];
      evaluationStack := evaluationStack[..|evaluationStack| - 1];
    }

    /** Pops a number of items as bytes. */
    method PopAll(n: nat) returns (items: seq<Bytes>)
      requires n <= |evaluationStack|
      modifies this`evaluationStack
      ensures evaluationStack == old(evaluationStack)[..|old(evaluationStack)| - n]
      ensures items == Top(old(evaluationStack), n)
    {
      items := [];
      for i := 0 to n
        invariant |evaluationStack| == |old(evaluationStack)| - i
        invariant evaluationStack == old(evaluationStack)[..|old(evaluationStack)| - i]
        invariant items == Top(old(evaluationStack), i)
      {
        var item := Pop();
        items := items + [BytesOf(item)];
      }
    }

    /** Pops the number of keys, the keys, the number of signatures that are needed and all the
        signatures that are left; pushes whether every signature found a key. */
    method OpCheckMultiSig(verify: Verify) returns (state: VMState)
      modifies this
      ensures state == FAULT <==> Faults(old(evaluationStack), old(opCount), maxSteps)
      ensures state == NONE ==>
                && opCount == old(opCount) + NumKeys(old(evaluationStack))
                && evaluationStack == [Boolean(Greedy(verify, Signatures(old(evaluationStack)), Keys(old(evaluationStack))))]
      ensures forall p :: BuiltFrom(old(evaluationStack), p) ==> Decides(verify, p, old(opCount), maxSteps, state, evaluationStack)
      ensures state == NONE ==> exists p :: BuiltFrom(old(evaluationStack), p)
    {
      hide Greedy, Decides, BuiltFrom;
      DecidedByParts(verify, evaluationStack, opCount, maxSteps);
      if |evaluationStack| < 4 {
        return FAULT;
      }
      ghost var stack := evaluationStack;
      var item := Pop();
      var n := Number(item);
      if n < 1 || |evaluationStack| < n + 2 {
        return FAULT;
      }
      opCount := opCount + n;
      if opCount > maxSteps {
        return FAULT;
      }
      var pubkeys := PopAll(n);
      item := Pop();
      var m := Number(item);
      if m < 1 || m > n || |evaluationStack| < m || |evaluationStack| > n {
        return FAULT;
      }
      assert item == stack[|stack| - 2 - n];
      var signatures := PopAll(|evaluationStack|);
      assert pubkeys == Keys(stack) && signatures == Signatures(stack);
      var fSuccess := MatchAll(verify, signatures, pubkeys, m);
      evaluationStack := evaluationStack + [Boolean(fSuccess)];
      return NONE;
    }
  }

  /** The bytes of the top items, from the top down. */
  ghost function Top(stack: seq<StackItem>, n: nat): seq<Bytes>
    requires n <= |stack|
  {
    seq(n, i requires 0 <= i < n => BytesOf(stack[|stack| - 1 - i]))
  }

  ghost function NumKeys(stack: seq<StackItem>): int {
    if stack == [] then 0 else Number(stack[|stack| - 1])
  }

  /** The number of signatures that are needed is below the keys. */
  ghost function Needed(stack: seq<StackItem>): int {
    var at := |stack| - 2 - NumKeys(stack);
    if 0 <= at < |stack| then Number(stack[at]) else 0
  }

  ghost function Keys(stack: seq<StackItem>): seq<Bytes> {
    if 1 <= NumKeys(stack) < |stack| then Top(stack[..|stack| - 1], NumKeys(stack)) else []
  }

  ghost function Signatures(stack: seq<StackItem>): seq<Bytes> {
    var left := |stack| - 2 - NumKeys(stack);
    if 0 <= left < |stack| then Top(stack[..left], left) else []
  }

  ghost predicate Faults(stack: seq<StackItem>, opCount: int, maxSteps: int) {
    var n, m := NumKeys(stack), Needed(stack);
    || |stack| < 4
    || n < 1 || |stack| < n + 3
    || opCount + n > maxSteps
    || m < 1 || m > n
    || |stack| - 2 - n < m || |stack| - 2 - n > n
  }

  /** True is pushed only if all signatures, at least as many as needed, have keys of their own; and
      always then, if no signature verifies under two different keys. */
  lemma {:induction false} MultiSigMeans(verify: Verify, stack: seq<StackItem>, opCount: int, maxSteps: int)
    requires !Faults(stack, opCount, maxSteps)
    ensures 1 <= Needed(stack) <= |Signatures(stack)| <= |Keys(stack)| == NumKeys(stack)
    ensures Greedy(verify, Signatures(stack), Keys(stack)) ==> exists slots :: Assigned(verify, Signatures(stack), Keys(stack), slots)
    ensures Unambiguous(verify, Keys(stack)) ==>
              (Greedy(verify, Signatures(stack), Keys(stack)) <==> exists slots :: Assigned(verify, Signatures(stack), Keys(stack), slots))
  {
    var sigs, keys := Signatures(stack), Keys(stack);
    if Greedy(verify, sigs, keys) {
      var slots := GreedySound(verify, sigs, keys);
    }
    if slots :| Unambiguous(verify, keys) && Assigned(verify, sigs, keys, slots) {
      UnambiguousNested(verify, keys);
      GreedyComplete(verify, sigs, keys, slots);
    }
  }

  // ----- The instruction on a stack that is built from its parts -----

  /** Signatures, the number of them that is needed, keys, and the number of keys, from the bottom up. */
  datatype Parts = Parts(signatures: seq<StackItem>, needed: StackItem, keys: seq<StackItem>, count: StackItem)

  ghost function Laid(p: Parts): seq<StackItem> {
    p.signatures + [p.needed] + p.keys + [p.count]
  }

  ghost predicate BuiltFrom(stack: seq<StackItem>, p: Parts) {
    stack == Laid(p) && Number(p.count) == |p.keys|
  }

  /** Too few signatures are needed or there, too many are, or the step limit is passed. */
  ghost predicate Unfit(p: Parts, opCount: int, maxSteps: int) {
    || Number(p.needed) < 1 || Number(p.needed) > |p.keys|
    || |p.signatures| < Number(p.needed) || |p.signatures| > |p.keys|
    || opCount + |p.keys| > maxSteps
  }

  /** Every signature verifies under a key of its own. */
  ghost predicate Backed(verify: Verify, p: Parts) {
    exists slots :: BackedBy(verify, p, slots)
  }

  ghost predicate BackedBy(verify: Verify, p: Parts, slots: seq<nat>) {
    && |slots| == |p.signatures| && NoDup(slots)
    && forall i :: 0 <= i < |slots| ==> slots[i] < |p.keys| && verify(BytesOf(p.signatures[i]), BytesOf(p.keys[slots[i]]))
  }

  /** No signature verifies under two different keys. */
  ghost predicate OneKeyEach(verify: Verify, p: Parts) {
    forall sig: Bytes, i, j :: 0 <= i < |p.keys| && 0 <= j < |p.keys| && verify(sig, BytesOf(p.keys[i])) && verify(sig, BytesOf(p.keys[j])) ==>
      BytesOf(p.keys[i]) == BytesOf(p.keys[j])
  }

  /** The instruction faults exactly on parts that are unfit; else it leaves one item, which is true only
      if all signatures have keys of their own, and always then if each verifies under one key at most. */
  ghost predicate Decides(verify: Verify, p: Parts, opCount: int, maxSteps: int, state: VMState, stack: seq<StackItem>) {
    && (state == FAULT <==> Unfit(p, opCount, maxSteps))
    && (state == NONE ==>
          && |stack| == 1 && stack[0].Boolean?
          && (stack[0].b ==> Backed(verify, p))
          && (OneKeyEach(verify, p) && Backed(verify, p) ==> stack[0].b))
  }

  lemma {:induction false} PartsOf(stack: seq<StackItem>, p: Parts, opCount: int, maxSteps: int)
    requires BuiltFrom(stack, p)
    ensures Faults(stack, opCount, maxSteps) <==> Unfit(p, opCount, maxSteps)
    ensures !Unfit(p, opCount, maxSteps) ==>
              Reads(p.signatures, Signatures(stack)) && Reads(p.keys, Keys(stack))
  {
    assert stack[|stack| - 1] == p.count && stack[|p.signatures|] == p.needed;
    assert forall i :: 0 <= i < |p.keys| ==> stack[|p.signatures| + 1 + i] == p.keys[i];
    assert forall i :: 0 <= i < |p.signatures| ==> stack[i] == p.signatures[i];
  }

  /** Slots from the top down, for lists from the bottom up, and the other way round. */
  ghost function Mirrored(slots: seq<nat>, keys: nat): (r: seq<nat>)
    requires forall i :: 0 <= i < |slots| ==> slots[i] < keys
  {
    seq(|slots|, i requires 0 <= i < |slots| => keys - 1 - slots[|slots| - 1 - i])
  }

  /** The bytes of the items, in reverse. */
  ghost predicate Reads(items: seq<StackItem>, list: seq<Bytes>) {
    |list| == |items| && forall i :: 0 <= i < |list| ==> list[i] == BytesOf(items[|list| - 1 - i])
  }

  lemma {:induction false} BackedMeans(verify: Verify, p: Parts, sigs: seq<Bytes>, keys: seq<Bytes>)
    requires Reads(p.signatures, sigs) && Reads(p.keys, keys)
    ensures Backed(verify, p) <==> exists slots :: Assigned(verify, sigs, keys, slots)
  {
    hide Assigned, BackedBy, Reads;
    if slots :| Assigned(verify, sigs, keys, slots) {
      FromTop(verify, p, sigs, keys, slots);
    }
    if slots :| BackedBy(verify, p, slots) {
      FromBottom(verify, p, sigs, keys, slots);
    }
  }

  lemma {:induction false} FromTop(verify: Verify, p: Parts, sigs: seq<Bytes>, keys: seq<Bytes>, slots: seq<nat>)
    requires Reads(p.signatures, sigs) && Reads(p.keys, keys) && Assigned(verify, sigs, keys, slots)
    ensures exists m :: BackedBy(verify, p, m)
  {
    assert forall i :: 0 <= i < |slots| ==> Fits(verify, sigs[i], keys, slots[i]);
    var m := Mirrored(slots, |keys|);
    forall i | 0 <= i < |m| ensures m[i] < |keys| && verify(BytesOf(p.signatures[i]), BytesOf(p.keys[m[i]])) {
      var j := |m| - 1 - i;
      assert sigs[j] == BytesOf(p.signatures[i]) && keys[slots[j]] == BytesOf(p.keys[m[i]]);
    }
    assert BackedBy(verify, p, m);
  }

  lemma {:induction false} FromBottom(verify: Verify, p: Parts, sigs: seq<Bytes>, keys: seq<Bytes>, slots: seq<nat>)
    requires Reads(p.signatures, sigs) && Reads(p.keys, keys) && BackedBy(verify, p, slots)
    ensures exists m :: Assigned(verify, sigs, keys, m)
  {
    var m := Mirrored(slots, |keys|);
    forall i | 0 <= i < |m| ensures Fits(verify, sigs[i], keys, m[i]) {
      var j := |m| - 1 - i;
      assert sigs[i] == BytesOf(p.signatures[j]) && keys[m[i]] == BytesOf(p.keys[slots[j]]);
    }
    assert Assigned(verify, sigs, keys, m);
  }

  lemma {:induction false} ToldByParts(verify: Verify, p: Parts, stack: seq<StackItem>, opCount: int, maxSteps: int)
    requires BuiltFrom(stack, p)
    ensures Faults(stack, opCount, maxSteps) <==> Unfit(p, opCount, maxSteps)
    ensures !Unfit(p, opCount, maxSteps) ==>
              && (Greedy(verify, Signatures(stack), Keys(stack)) ==> Backed(verify, p))
              && (OneKeyEach(verify, p) && Backed(verify, p) ==> Greedy(verify, Signatures(stack), Keys(stack)))
  {
    hide Faults, Signatures, Keys, Greedy, Assigned, Backed;
    PartsOf(stack, p, opCount, maxSteps);
    if !Unfit(p, opCount, maxSteps) {
      var keys := Keys(stack);
      MultiSigMeans(verify, stack, opCount, maxSteps);
      BackedMeans(verify, p, Signatures(stack), keys);
      if OneKeyEach(verify, p) {
        forall sig, i, j | 0 <= i < j < |keys| && verify(sig, keys[i]) && verify(sig, keys[j]) ensures keys[i] == keys[j] {
          assert verify(sig, BytesOf(p.keys[|keys| - 1 - i])) && verify(sig, BytesOf(p.keys[|keys| - 1 - j]));
        }
      }
    }
  }

  /** Whatever parts a stack is built from, they tell what the instruction does; and it does not fault
      only if there are some. */
  lemma {:induction false} DecidedByParts(verify: Verify, stack: seq<StackItem>, opCount: int, maxSteps: int)
    ensures var state := if Faults(stack, opCount, maxSteps) then FAULT else NONE;
      && (forall p, stack' :: BuiltFrom(stack, p) && (state == FAULT || stack' == [Boolean(Greedy(verify, Signatures(stack), Keys(stack)))]) ==>
            Decides(verify, p, opCount, maxSteps, state, stack'))
      && (state == NONE ==> exists p :: BuiltFrom(stack, p))
  {
    hide Faults, Signatures, Keys, Greedy, Backed, BuiltFrom, Unfit, OneKeyEach;
    forall p | BuiltFrom(stack, p)
      ensures Faults(stack, opCount, maxSteps) <==> Unfit(p, opCount, maxSteps)
      ensures !Unfit(p, opCount, maxSteps) ==>
                && (Greedy(verify, Signatures(stack), Keys(stack)) ==> Backed(verify, p))
                && (OneKeyEach(verify, p) && Backed(verify, p) ==> Greedy(verify, Signatures(stack), Keys(stack)))
    {
      ToldByParts(verify, p, stack, opCount, maxSteps);
    }
    if !Faults(stack, opCount, maxSteps) {
      SplitIntoParts(stack, opCount, maxSteps);
    }
  }

  lemma {:induction false} SplitIntoParts(stack: seq<StackItem>, opCount: int, maxSteps: int)
    requires !Faults(stack, opCount, maxSteps)
    ensures exists p :: BuiltFrom(stack, p)
  {
    var n := Number(stack[|stack| - 1]);
    var left := |stack| - 2 - n;
    var p := Parts(stack[..left], stack[left], stack[left + 1..|stack| - 1], stack[|stack| - 1]);
    assert Laid(p) == stack;
    assert BuiltFrom(stack, p);
  }

  /** The two nested loops: keys are taken out as they are used. */
  method MatchAll(verify: Verify, signatures: seq<Bytes>, keys: seq<Bytes>, m: int) returns (fSuccess: bool)
    requires m <= |signatures|
    ensures fSuccess <==> Greedy(verify, signatures, keys)
  {
    fSuccess := true;
    var pubkeys, verified := keys, 0;
    for j := 0 to |signatures|
      invariant verified == j && fSuccess
      invariant Greedy(verify, signatures[j..], pubkeys) <==> Greedy(verify, signatures, keys)
    {
      var sig := signatures[j];
      var index := IndexOfMatch(verify, sig, pubkeys);
      assert signatures[j..][0] == sig && signatures[j..][1..] == signatures[j + 1..];
      if index != -1 {
        verified := verified + 1;
        pubkeys := RemoveAt(pubkeys, index);
      } else {
        fSuccess := false;
        break;
      }
    }
    if verified < m {
      fSuccess := false;
    }
  }

  method IndexOfMatch(verify: Verify, sig: Bytes, pubkeys: seq<Bytes>) returns (index: int)
    ensures index == var i := FirstMatch(verify, sig, pubkeys); if i < |pubkeys| then i else -1
  {
    index := -1;
    for i := 0 to |pubkeys|
      invariant index == -1 && forall j :: 0 <= j < i ==> !verify(sig, pubkeys[j])
    {
      if verify(sig, pubkeys[i]) {
        return i;
      }
    }
  }
}
