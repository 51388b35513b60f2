/**
 The window of indexed transactions (core/txindexer.go), with the range operations of
 core/rawdb/chain_iterator.go reduced to what they do to the set of indexed blocks.
 */
module TxIndexing {
  import opened Basics

  datatype Progress = Progress(indexed: nat, remaining: nat)

  /** The first block of the configured window: the last `limit` blocks, or all for 0 or a limit
      that the chain has not reached, but never blocks below the cutoff. */
  function WindowStart(limit: nat, cutoff: nat, head: nat): nat {
    Max(cutoff, if limit == 0 || head < limit then 0 else head - limit + 1)
  }

  /** A block is in the window exactly when it is not below the cutoff and one of the last `limit`
      blocks, if there is a limit. */
  lemma WindowMeans(limit: nat, cutoff: nat, head: nat, n: nat)
    ensures WindowStart(limit, cutoff, head) <= n <==> cutoff <= n && (limit == 0 || n + limit > head)
  {
  }

  /** `t` moved towards `goal` by at most `steps`. */
  function Towards(t: nat, goal: nat, steps: nat): nat {
    if goal <= t then Max(goal, if steps < t then t - steps else 0) else Min(goal, t + steps)
  }

  /** Up to the head exactly the blocks from `from` on are indexed. */
  ghost predicate Exactly(indexed: set<nat>, from: nat, head: nat) {
    forall n: nat :: n <= head ==> (n in indexed <==> from <= n)
  }

  /** The progress report, in uint64 arithmetic. */
  function Report(limit: nat, cutoff: nat, head: nat, tail: Option<nat>): Progress {
    if head < cutoff then Progress(0, 0)
    else
      var wanted := if limit == 0 || limit > head then head + 1 else limit;
      var length := head - cutoff + 1;
      var total := if wanted > length then length else wanted;
      var indexed := if tail.None? then 0 else (head as int - tail.value + 1) % U64;
      Progress(indexed, if indexed < total then total - indexed else 0)
  }

  /** A tail at the start of the window leaves nothing to do, for this head and every later one
      until the next run. */
  lemma NothingRemains(limit: nat, cutoff: nat, head: nat, later: nat)
    requires cutoff <= head <= later < U64 - 1
    ensures Report(limit, cutoff, later, Some(WindowStart(limit, cutoff, head))).remaining == 0
  {
    var t := WindowStart(limit, cutoff, head);
    assert 0 <= later - t + 1 < U64;
  }

  /** Without a tail nothing is reported as indexed and the whole window as remaining; and nothing
      at all when the head is below the cutoff. */
  lemma NothingIndexed(limit: nat, cutoff: nat, head: nat, tail: Option<nat>)
    ensures head < cutoff ==> Report(limit, cutoff, head, tail) == Progress(0, 0)
    ensures cutoff <= head ==>
              Report(limit, cutoff, head, None) == Progress(0, head + 1 - WindowStart(limit, cutoff, head))
  {
  }

  /** In between, what is reported as remaining is how many blocks of the window are missing. */
  lemma RemainingIsExact(limit: nat, cutoff: nat, head: nat, tail: nat)
    requires cutoff <= tail <= head < U64 - 1
    ensures Report(limit, cutoff, head, Some(tail)).indexed == head - tail + 1
    ensures Report(limit, cutoff, head, Some(tail)).remaining
            == if tail > WindowStart(limit, cutoff, head) then tail - WindowStart(limit, cutoff, head) else 0
  {
    assert 0 <= head - tail + 1 < U64;
  }

  class TxIndexer {
    const limit: nat
    const cutoff: nat
    var tail: Option<nat>       // in memory, what progress queries see
    var dbTail: Option<nat>     // persisted
    var indexed: set<nat>       // blocks whose transactions have lookup entries

    /** The persisted tail, if there is one, is where the indexed range up to `head` begins. */
    ghost predicate Consistent(head: nat)
      reads this
    {
      dbTail.Some? ==> dbTail.value <= head && Exactly(indexed, dbTail.value, head)
    }

    constructor (limit: nat, cutoff: nat)
      ensures this.limit == limit && this.cutoff == cutoff && dbTail == None && tail == None && indexed == {}
    {
      this.limit, this.cutoff := limit, cutoff;
      tail, dbTail, indexed := None, None, {};
    }

    /** `IndexTransactions`: indexes downwards from `to - 1`; `steps` tells after how many blocks it
        is interrupted. The tail is written even when nothing was indexed, unless the range is
        empty. */
    method IndexTransactions(from: nat, to: nat, steps: nat)
      modifies this`dbTail, this`indexed
      ensures from >= to ==> dbTail == old(dbTail) && indexed == old(indexed)
      ensures from < to ==>
                && dbTail == Some(if steps < to - from then to - steps else from)
                && forall n :: n in indexed <==> n in old(indexed) || dbTail.value <= n < to
    {
      if from >= to {
        return;
      }
      var lastNum := to;
      while from < lastNum && to - lastNum < steps
        invariant from <= lastNum <= to && to - lastNum <= steps && dbTail == old(dbTail)
        invariant forall n :: n in indexed <==> n in old(indexed) || lastNum <= n < to
      {
        lastNum := lastNum - 1;
        indexed := indexed + {lastNum};
      }
      dbTail := Some(lastNum);
    }

    /** `UnindexTransactions`: removes entries upwards from `from`. */
    method UnindexTransactions(from: nat, to: nat, steps: nat)
      modifies this`dbTail, this`indexed
      ensures from >= to ==> dbTail == old(dbTail) && indexed == old(indexed)
      ensures from < to ==>
                && dbTail == Some(if steps < to - from then from + steps else to)
                && forall n :: n in indexed <==> n in old(indexed) && !(from <= n < dbTail.value)
    {
      if from >= to {
        return;
      }
      var nextNum := from;
      while nextNum < to && nextNum - from < steps
        invariant from <= nextNum <= to && nextNum - from <= steps && dbTail == old(dbTail)
        invariant forall n :: n in indexed <==> n in old(indexed) && !(from <= n < nextNum)
      {
        indexed := indexed - {nextNum};
        nextNum := nextNum + 1;
      }
      dbTail := Some(nextNum);
    }

    /** `repair`: afterwards the tail is absent or lies between cutoff and head. */
    method Repair(head: nat)
      requires dbTail.Some? && dbTail.value <= head ==> Exactly(indexed, dbTail.value, head)
      modifies this
      ensures Consistent(head)
      ensures dbTail.Some? ==> cutoff <= dbTail.value <= head
      ensures dbTail.Some? ==> old(dbTail).Some? && dbTail.value == Max(old(dbTail).value, cutoff)
      ensures dbTail.Some? ==>
                forall n :: n in indexed <==> n in old(indexed) && (n >= cutoff || old(dbTail).value >= cutoff)
      ensures tail == if dbTail == old(dbTail) then old(tail) else dbTail
      ensures old(dbTail).None? ==> dbTail.None? && indexed == old(indexed)
      ensures old(dbTail).Some? && dbTail.None? ==> indexed == {}
      ensures dbTail.None? <==> old(dbTail).None? || old(dbTail).value > head || head < cutoff
    {
      if dbTail.None? {
        return;
      }
      var t := dbTail.value;
      if t > head {
        tail, dbTail, indexed := None, None, {};
        return;
      }
      if head < cutoff {
        tail, dbTail, indexed := None, None, {};
        return;
      }
      if t < cutoff {
        tail, dbTail := Some(cutoff), Some(cutoff);
        indexed := set n | n in indexed && n >= cutoff;
      }
    }

    /** `run`: moves the indexed range to the configured window of `head`, or part of the way when
        interrupted after `steps` blocks. Uninterrupted it leaves exactly the window indexed;
        without a tail to start from that needs that nothing below the window was indexed. */
    method Run(head: nat, steps: nat)
      requires Consistent(head) && (dbTail.Some? && cutoff <= head ==> cutoff <= dbTail.value)
      modifies this`dbTail, this`indexed
      ensures head == 0 || head < cutoff ==> dbTail == old(dbTail) && indexed == old(indexed)
      ensures head > 0 && cutoff <= head ==> dbTail.Some? && cutoff <= dbTail.value <= head + 1
      ensures head > 0 && cutoff <= head ==>
                dbTail.value == Towards(if old(dbTail).None? then head + 1 else old(dbTail).value,
                                        WindowStart(limit, cutoff, head), steps)
      ensures head > 0 && cutoff <= head && steps > head ==> dbTail == Some(WindowStart(limit, cutoff, head))
      ensures head > 0 && cutoff <= head && steps > head ==>
                (Exactly(indexed, WindowStart(limit, cutoff, head), head) <==>
                 old(dbTail).Some? ||
                 forall n :: n in old(indexed) && n <= head ==> n >= WindowStart(limit, cutoff, head))
      ensures head > 0 && cutoff <= head && old(dbTail).Some? ==> Consistent(head)
      ensures head > 0 && cutoff <= head && old(dbTail).None? ==>
                forall n :: n in indexed <==> n in old(indexed) || dbTail.value <= n <= head
    {
      if head == 0 || head < cutoff {
        return;
      }
      if dbTail.None? {
        var from := 0;
        if limit != 0 && head >= limit {
          from := head - limit + 1;
        }
        from := Max(from, cutoff);
        IndexTransactions(from, head + 1, steps);
        return;
      }
      var t := dbTail.value;
      if limit == 0 || head < limit {
        if t > 0 {
          var from := Max(0, cutoff);
          IndexTransactions(from, t, steps);
        }
        return;
      }
      var from := Max(head - limit + 1, cutoff);
      if from < t {
        IndexTransactions(from, t, steps);
      } else {
        UnindexTransactions(t, from, steps);
      }
    }

    /** A block import writes the lookup entries of the new head. */
    method ImportBlock(head: nat)
      requires Consistent(head)
      modifies this`indexed
      ensures Consistent(head + 1) && indexed == old(indexed) + {head + 1}
    {
      indexed := indexed + {head + 1};
    }

    /** The start of `loop`: repair, then one uninterrupted run, whose tail is published. From then
        on nothing is reported as remaining, for this head and every later one. */
    method Startup(head: nat)
      requires dbTail.Some? && dbTail.value <= head ==> Exactly(indexed, dbTail.value, head)
      requires 0 < head < U64 - 1 && cutoff <= head
      modifies this
      ensures dbTail == tail == Some(WindowStart(limit, cutoff, head))
      ensures Exactly(indexed, WindowStart(limit, cutoff, head), head) <==>
                old(dbTail).Some? ||
                forall n :: n in old(indexed) && n <= head ==> n >= WindowStart(limit, cutoff, head)
      ensures old(dbTail).None? ==>
                forall n :: n in indexed <==> n in old(indexed) || WindowStart(limit, cutoff, head) <= n <= head
      ensures forall later: nat :: head <= later < U64 - 1 ==> Report(limit, cutoff, later, tail).remaining == 0
    {
      Repair(head);
      Run(head, head + 1);
      tail := dbTail;
      forall later: nat | head <= later < U64 - 1 ensures Report(limit, cutoff, later, tail).remaining == 0 {
        NothingRemains(limit, cutoff, head, later);
      }
    }
  }

  /** Entries that imports wrote before there was a tail are never unindexed: with a limit of one
      block and two blocks imported before the first run, block 1 stays indexed. */
  method LeftoverEntries() returns (indexer: TxIndexer)
    ensures indexer.dbTail == Some(2) == Some(WindowStart(indexer.limit, indexer.cutoff, 2))
    ensures 1 in indexer.indexed && !Exactly(indexer.indexed, 2, 2)
  {
    indexer := new TxIndexer(1, 0);
    indexer.ImportBlock(0);
    indexer.ImportBlock(1);
    assert 1 in indexer.indexed && 1 <= 2;
    indexer.Run(2, 3);
  }
}
