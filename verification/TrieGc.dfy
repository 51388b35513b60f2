/**
 Garbage collection of state tries in hash mode (the end of `writeBlockWithState` and the
 shutdown in `Stop`, core/blockchain.go).

 The queue orders roots by block number, lowest first; which of several roots of one height
 comes first is not fixed.
 */
module TrieGc {
  import opened Sequences

  type Root = nat

  const TRIES_IN_MEMORY: nat := 128

  datatype Item = Item(root: Root, number: nat)

  function Roots(queue: seq<Item>): (r: seq<Root>)
    ensures |r| == |queue| && forall i :: 0 <= i < |queue| ==> r[i] == queue[i].root
  {
    seq(|queue|, i requires 0 <= i < |queue| => queue[i].root)
  }

  /** The queue is exactly the outstanding references. */
  ghost predicate Matched(refs: multiset<Root>, queue: seq<Item>) {
    refs == multiset(Roots(queue))
  }

  lemma RootsWithout(queue: seq<Item>, i: nat)
    requires i < |queue|
    ensures multiset(Roots(DeletedAt(queue, i))) + multiset{queue[i].root} == multiset(Roots(queue))
  {
    MultisetOfDeleted(Roots(queue), i);
    assert Roots(DeletedAt(queue, i)) == DeletedAt(Roots(queue), i);
  }

  lemma RootsWith(queue: seq<Item>, item: Item)
    ensures multiset(Roots(queue + [item])) == multiset(Roots(queue)) + multiset{item.root}
  {
    assert Roots(queue + [item]) == Roots(queue) + [item.root];
  }

  /** Releasing a popped root keeps references and queue matched. */
  lemma ReleaseOne(refs: multiset<Root>, queue: multiset<Root>, rest: multiset<Root>, root: Root)
    requires refs == queue && rest + multiset{root} == queue
    ensures root in refs && refs - multiset{root} == rest
  {
  }

  /** Above height `chosen`, `queue` has the items that `before` has. */
  ghost predicate SameNewer(queue: seq<Item>, before: seq<Item>, chosen: nat) {
    forall x: Item :: x.number > chosen ==> multiset(queue)[x] == multiset(before)[x]
  }

  /** All items are above height `chosen`. */
  ghost predicate AllNewer(queue: seq<Item>, chosen: nat) {
    forall i :: 0 <= i < |queue| ==> queue[i].number > chosen
  }

  lemma SameNewerChains(a: seq<Item>, b: seq<Item>, c: seq<Item>, chosen: nat)
    requires SameNewer(a, b, chosen) && SameNewer(b, c, chosen)
    ensures SameNewer(a, c, chosen)
  {
  }

  lemma OldPopped(queue: seq<Item>, item: Item, rest: seq<Item>, before: seq<Item>, chosen: nat)
    requires multiset(rest) + multiset{item} == multiset(queue) && SameNewer(queue, before, chosen)
    requires item.number <= chosen
    ensures SameNewer(rest, before, chosen)
  {
    forall x: Item | x.number > chosen ensures multiset(rest)[x] == multiset(before)[x] {
      assert multiset(queue)[x] == multiset(rest)[x] + multiset{item}[x];
    }
  }

  lemma NewPushedBack(queue: seq<Item>, item: Item, rest: seq<Item>, before: seq<Item>, chosen: nat)
    requires multiset(rest) + multiset{item} == multiset(queue) && SameNewer(queue, before, chosen)
    ensures SameNewer(rest + [item], before, chosen)
  {
    assert multiset(rest + [item]) == multiset(queue);
  }

  class Collector {
    var queue: seq<Item>
    ghost var refs: multiset<Root>       // references that the trie database holds for the queue
    ghost var taken: multiset<Root>      // every reference ever taken by a block write
    ghost var released: multiset<Root>   // every reference ever released

    /** The queue is exactly the outstanding references, and nothing was released that was not
        taken. */
    ghost predicate Valid()
      reads this
    {
      && Matched(refs, queue)
      && taken == released + refs
    }

    constructor ()
      ensures Valid() && queue == [] && taken == multiset{}
    {
      queue, refs, taken, released := [], multiset{}, multiset{}, multiset{};
    }

    /** Takes an item of the lowest number out of the queue. */
    method Pop() returns (item: Item)
      requires queue != []
      modifies this`queue
      ensures |queue| == |old(queue)| - 1 && multiset(queue) + multiset{item} == multiset(old(queue))
      ensures forall i :: 0 <= i < |queue| ==> item.number <= queue[i].number
      ensures multiset(Roots(queue)) + multiset{item.root} == multiset(Roots(old(queue)))
    {
      var i := 0;
      for j := 0 to |queue|
        invariant 0 <= i < |queue| && forall k :: 0 <= k < j ==> queue[i].number <= queue[k].number
      {
        if queue[j].number < queue[i].number {
          i := j;
        }
      }
      item := queue[i];
      MultisetOfDeleted(queue, i);
      RootsWithout(queue, i);
      queue := DeletedAt(queue, i);
    }

    method Push(item: Item)
      modifies this`queue
      ensures queue == old(queue) + [item]
      ensures multiset(Roots(queue)) == multiset(Roots(old(queue))) + multiset{item.root}
    {
      RootsWith(queue, item);
      queue := queue + [item];
    }

    /** Releases the reference of the root that was popped from `q`. */
    ghost method Release(root: Root, q: seq<Item>)
      requires Matched(refs, q) && taken == released + refs
      requires multiset(Roots(queue)) + multiset{root} == multiset(Roots(q))
      modifies this`refs, this`released
      ensures Valid() && released == old(released) + multiset{root}
    {
      ReleaseOne(refs, multiset(Roots(q)), multiset(Roots(queue)), root);
      refs, released := refs - multiset{root}, released + multiset{root};
    }

    /** Pops one root: releases it, or puts it back when it is above height `chosen`. */
    method CollectOne(chosen: nat) returns (done: bool)
      requires Valid() && queue != []
      modifies this`queue, this`refs, this`released
      ensures Valid() && SameNewer(queue, old(queue), chosen)
      ensures done ==> AllNewer(queue, chosen)
      ensures !done ==> |queue| < |old(queue)|
    {
      ghost var q := queue;
      var item := Pop();
      done := item.number > chosen;
      if done {
        NewPushedBack(q, item, queue, q, chosen);
        Push(item);
      } else {
        OldPopped(q, item, queue, q, chosen);
        Release(item.root, q);
      }
    }

    /** Releases every queued root up to height `chosen`. */
    method Collect(chosen: nat)
      requires Valid()
      modifies this`queue, this`refs, this`released
      ensures Valid() && SameNewer(queue, old(queue), chosen) && AllNewer(queue, chosen)
    {
      ghost var before := queue;
      while queue != []
        invariant Valid() && SameNewer(queue, before, chosen)
        decreases |queue|
      {
        ghost var q := queue;
        var done := CollectOne(chosen);
        SameNewerChains(queue, q, before, chosen);
        if done {
          break;
        }
      }
    }

    /** A block write: its root is referenced and queued, and past the first blocks everything up
        to the retention limit is released. */
    method WriteBlock(root: Root, current: nat)
      requires Valid()
      modifies this
      ensures Valid() && taken == old(taken) + multiset{root}
      ensures current <= 128 ==> queue == old(queue) + [Item(root, current)]
      ensures current > 128 ==>
                && SameNewer(queue, old(queue) + [Item(root, current)], current - 128)
                && AllNewer(queue, current - 128)
    {
      refs, taken := refs + multiset{root}, taken + multiset{root};
      Push(Item(root, current));
      if current <= TRIES_IN_MEMORY {
        return;
      }
      Collect(current - TRIES_IN_MEMORY);
    }

    /** Shutdown: every reference that was ever taken has been released, exactly once. */
    method Stop()
      requires Valid()
      modifies this`queue, this`refs, this`released
      ensures Valid() && queue == [] && refs == multiset{} && released == taken
    {
      while queue != []
        invariant Valid()
        decreases |queue|
      {
        ghost var q := queue;
        var item := Pop();
        Release(item.root, q);
      }
    }
  }
}
