/** Blocks whose parent is not known yet, by their own hash and by the hash of their parent. */
module Orphans {
  import opened Core
  import opened ListIndex

  ghost function OrphanItems(orphans: map<Uint256, Block>): set<(Uint256, Block)> {
    set h | h in orphans :: (orphans[h].header.previous, orphans[h])
  }

  class OrphanPool {
    var orphans: map<Uint256, Block>
    var prevOrphans: map<Uint256, seq<Block>>

    /** The two maps agree: the lists hold exactly the orphans, each once and under its parent. */
    ghost predicate Valid()
      reads this
    {
      && (forall h :: h in orphans ==> orphans[h].header.hash == h)
      && Indexes(prevOrphans, OrphanItems(orphans))
    }

    constructor ()
      ensures Valid() && orphans == map[]
    {
      orphans, prevOrphans := map[], map[];
      new;
      assert OrphanItems(orphans) == {};
    }

    lemma {:induction false} ListedUnderParent(b: Block)
      requires Valid()
      ensures b.header.previous in prevOrphans && b in prevOrphans[b.header.previous] <==>
              b.header.hash in orphans && orphans[b.header.hash] == b
      ensures forall p, x :: p in prevOrphans && x in prevOrphans[p] ==>
                x.header.previous == p && x.header.hash in orphans && orphans[x.header.hash] == x
    {
      assert b in Peek(map[], prevOrphans, b.header.previous) <==> (b.header.previous, b) in OrphanItems(orphans);
      forall p, x | p in prevOrphans && x in prevOrphans[p]
        ensures x.header.previous == p && x.header.hash in orphans && orphans[x.header.hash] == x
      {
        assert x in Peek(map[], prevOrphans, p);
        assert (p, x) in OrphanItems(orphans);
      }
    }

    /** Drops every entry with the hash of the orphan from a list. */
    method DropByHash(list: seq<Block>, hash: Uint256) returns (list': seq<Block>)
      ensures NoDup(list) ==> NoDup(list')
      ensures forall x :: x in list' <==> x in list && x.header.hash != hash
    {
      list' := list;
      var i := 0;
      while i < |list'|
        invariant i <= |list'|
        invariant NoDup(list) ==> NoDup(list')
        invariant forall x :: x in list' ==> x in list
        invariant forall x :: x in list && x.header.hash != hash ==> x in list'
        invariant forall j :: 0 <= j < i ==> list'[j].header.hash != hash
        decreases |list'| - i
      {
        if list'[i].header.hash == hash {
          DropOne(list', i);
          list' := RemoveAt(list', i);
        } else {
          i := i + 1;
        }
      }
    }

    lemma {:induction false} DropOne(list: seq<Block>, i: nat)
      requires i < |list|
      ensures NoDup(list) ==> NoDup(RemoveAt(list, i))
      ensures forall x :: x in RemoveAt(list, i) ==> x in list
      ensures forall x :: x in list && x != list[i] ==> x in RemoveAt(list, i)
      ensures forall j :: 0 <= j < i ==> RemoveAt(list, i)[j] == list[j]
    {
    }

    method RemoveOrphanBlock(orphan: Block)
      requires Valid() && orphan.header.hash in orphans && orphans[orphan.header.hash] == orphan
      modifies this
      ensures Valid() && orphans == old(orphans) - {orphan.header.hash}
    {
      var prev := orphan.header.previous;
      ListedUnderParent(orphan);
      RemovedItem(orphan);
      var list := DropByHash(prevOrphans[prev], orphan.header.hash);
      assert Peek(map[], prevOrphans, prev) == prevOrphans[prev];
      Removed(map[], prevOrphans, OrphanItems(orphans), prev, orphan, list);
      var cache := map[prev := list];
      var lists := if list == [] then prevOrphans - {prev} else prevOrphans[prev := list];
      assert map[][prev := list] == cache;
      Flushed(cache, prevOrphans, lists, OrphanItems(orphans) - {(prev, orphan)});
      prevOrphans := lists;
      orphans := orphans - {orphan.header.hash};
    }

    lemma {:induction false} RemovedItem(orphan: Block)
      requires Valid() && orphan.header.hash in orphans && orphans[orphan.header.hash] == orphan
      ensures OrphanItems(orphans - {orphan.header.hash}) == OrphanItems(orphans) - {(orphan.header.previous, orphan)}
    {
      var rest := orphans - {orphan.header.hash};
      forall p, x ensures (p, x) in OrphanItems(rest) <==> (p, x) in OrphanItems(orphans) && x != orphan {
        ItemOf(orphans, p, x);
        ItemOf(rest, p, x);
      }
    }

    method Evict(evicted: set<Uint256>)
      requires Valid()
      modifies this
      ensures Valid() && orphans == old(orphans) - evicted
    {
      hide Indexes, OrphanItems;
      var left := evicted;
      while left != {}
        invariant left <= evicted && Valid() && orphans == old(orphans) - (evicted - left)
        decreases |left|
      {
        var h :| h in left;
        if h in orphans {
          RemoveOrphanBlock(orphans[h]);
        }
        left := left - {h};
      }
    }

    /** Adds an orphan, after dropping those that expired or must make room for it. */
    method AddOrphanBlock(block: Block, evicted: set<Uint256>)
      requires Valid() && block.header.hash !in orphans
      modifies this
      ensures Valid() && orphans == (old(orphans) - evicted)[block.header.hash := block]
    {
      Evict(evicted);
      var prev := block.header.previous;
      AddedItem(block);
      Appended(map[], prevOrphans, OrphanItems(orphans), prev, block);
      var list := (if prev in prevOrphans then prevOrphans[prev] else []) + [block];
      assert list == Peek(map[], prevOrphans, prev) + [block];
      var cache := map[prev := list];
      assert map[][prev := list] == cache;
      Flushed(cache, prevOrphans, prevOrphans[prev := list], OrphanItems(orphans) + {(prev, block)});
      prevOrphans := prevOrphans[prev := list];
      orphans := orphans[block.header.hash := block];
    }

    lemma {:induction false} AddedItem(block: Block)
      requires Valid() && block.header.hash !in orphans
      ensures OrphanItems(orphans[block.header.hash := block]) == OrphanItems(orphans) + {(block.header.previous, block)}
      ensures (block.header.previous, block) !in OrphanItems(orphans)
    {
      var more := orphans[block.header.hash := block];
      ItemOf(orphans, block.header.previous, block);
      forall p, x ensures (p, x) in OrphanItems(more) <==> (p, x) in OrphanItems(orphans) || (p, x) == (block.header.previous, block) {
        ItemOf(orphans, p, x);
        ItemOf(more, p, x);
      }
    }
  }

  lemma {:induction false} ItemOf(orphans: map<Uint256, Block>, p: Uint256, x: Block)
    requires forall h :: h in orphans ==> orphans[h].header.hash == h
    ensures (p, x) in OrphanItems(orphans) <==> x.header.hash in orphans && orphans[x.header.hash] == x && x.header.previous == p
  {
  }
}
