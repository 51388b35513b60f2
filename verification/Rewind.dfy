/**
 Rewinding: the search for a block with state (`rewindHashHead` of core/blockchain.go).
 */
module StateRewind {
  import opened Basics
  import opened BlockTree

  const FULL_IMMUTABILITY_THRESHOLD: nat := 90000

  /** The oldest block that the search considers. */
  function SearchLimit(head: Header, pivot: Option<nat>): nat {
    match pivot
    case Some(p) => p
    case None => if head.number > FULL_IMMUTABILITY_THRESHOLD then head.number - FULL_IMMUTABILITY_THRESHOLD else 0
  }

  /** The block at height `m` of the branch of `h` has state root `root`. */
  ghost predicate RootAt(hs: Headers, h: Hash, root: Hash, m: nat)
    requires WellFormed(hs) && Rooted(hs, h)
  {
    m <= hs[h].number && hs[Ancestor(hs, h, m)].root == root
  }

  /** The requested root was met at height `n` or above. No root asks for nothing. */
  ghost predicate Crossed(hs: Headers, h: Hash, root: Hash, n: nat)
    requires WellFormed(hs) && Rooted(hs, h)
  {
    root == ZERO_HASH || exists m: nat :: n <= m && RootAt(hs, h, root, m)
  }

  /** The block at height `n` may become the new head. */
  ghost predicate Candidate(hs: Headers, h: Hash, root: Hash, states: set<Hash>, limit: nat, n: nat)
    requires WellFormed(hs) && Rooted(hs, h)
  {
    limit <= n <= hs[h].number && hs[Ancestor(hs, h, n)].root in states && Crossed(hs, h, root, n)
  }

  /** `k` is the highest height at or above `low` where the requested root was met, or 0. */
  ghost predicate HighestRootFrom(hs: Headers, h: Hash, root: Hash, low: nat, k: nat)
    requires WellFormed(hs) && Rooted(hs, h)
  {
    if root != ZERO_HASH && exists m: nat :: low <= m && RootAt(hs, h, root, m) then
      && low <= k && RootAt(hs, h, root, k)
      && (forall m: nat :: k < m ==> !RootAt(hs, h, root, m))
    else
      k == 0
  }

  /** The lowest height that the search looks at when it finds nothing. */
  function LowestVisited(head: Header, limit: nat): nat {
    if limit > head.number then head.number else if limit > 0 then limit - 1 else 0
  }

  /** What the search returns. */
  ghost predicate Rewound(hs: Headers, h: Hash, root: Hash, states: set<Hash>, limit: nat, newHead: Header,
                          rootNumber: nat)
    requires WellFormed(hs) && Rooted(hs, h)
  {
    && newHead.hash in hs && hs[newHead.hash] == newHead && IsAncestor(hs, newHead.hash, h)
    && (if exists n: nat :: Candidate(hs, h, root, states, limit, n) then
          && Candidate(hs, h, root, states, limit, newHead.number)
          && NoneAbove(hs, h, root, states, limit, newHead.number)
          && HighestRootFrom(hs, h, root, newHead.number, rootNumber)
        else
          && newHead.number == 0
          && HighestRootFrom(hs, h, root, LowestVisited(hs[h], limit), rootNumber))
  }

  /** No block above height `n` may become the new head. */
  ghost predicate NoneAbove(hs: Headers, h: Hash, root: Hash, states: set<Hash>, limit: nat, n: nat)
    requires WellFormed(hs) && Rooted(hs, h)
  {
    forall m: nat :: n < m ==> !Candidate(hs, h, root, states, limit, m)
  }

  lemma FoundIt(hs: Headers, h: Hash, root: Hash, states: set<Hash>, limit: nat, cur: Header, rootNumber: nat)
    requires WellFormed(hs) && Rooted(hs, h) && cur.hash in hs && hs[cur.hash] == cur && IsAncestor(hs, cur.hash, h)
    requires NoneAbove(hs, h, root, states, limit, cur.number)
    requires limit <= cur.number && cur.root in states && Crossed(hs, h, root, cur.number)
    requires HighestRootFrom(hs, h, root, cur.number, rootNumber)
    ensures Rewound(hs, h, root, states, limit, cur, rootNumber)
  {
    assert Candidate(hs, h, root, states, limit, cur.number);
  }

  lemma FoundNothing(hs: Headers, h: Hash, root: Hash, states: set<Hash>, limit: nat, n: nat, rootNumber: nat)
    requires WellFormed(hs) && Rooted(hs, h) && n <= hs[h].number
    requires NoneAbove(hs, h, root, states, limit, n) && !Candidate(hs, h, root, states, limit, n)
    requires n <= limit || n == 0
    requires n < limit ==> n == LowestVisited(hs[h], limit)
    requires n == limit ==> n == 0
    requires HighestRootFrom(hs, h, root, n, rootNumber)
    ensures Rewound(hs, h, root, states, limit, hs[Ancestor(hs, h, 0)], rootNumber)
  {
    AncestorOfAncestor(hs, h, 0, 0);
  }

  /** A root met only at height 0 leaves the reported number at 0. */
  lemma RootAtGenesis(hs: Headers, h: Hash, root: Hash, k: nat)
    requires WellFormed(hs) && Rooted(hs, h) && HighestRootFrom(hs, h, root, 1, k)
    ensures HighestRootFrom(hs, h, root, 0, k)
  {
    if root != ZERO_HASH && exists m: nat :: 0 <= m && RootAt(hs, h, root, m) {
      if !exists m: nat :: 1 <= m && RootAt(hs, h, root, m) {
        assert RootAt(hs, h, root, 0);
      }
    }
  }

  /** The search that walks into block 0 returns it unseen. */
  lemma WalkedIntoGenesis(hs: Headers, h: Hash, root: Hash, states: set<Hash>, limit: nat, rootNumber: nat)
    requires WellFormed(hs) && Rooted(hs, h) && 0 < hs[h].number && limit <= 1
    requires NoneAbove(hs, h, root, states, limit, 0) && HighestRootFrom(hs, h, root, 1, rootNumber)
    ensures Rewound(hs, h, root, states, limit, hs[Ancestor(hs, h, 0)], rootNumber)
  {
    RootAtGenesis(hs, h, root, rootNumber);
    AncestorOfAncestor(hs, h, 0, 0);
    if exists n: nat :: Candidate(hs, h, root, states, limit, n) {
      var n: nat :| Candidate(hs, h, root, states, limit, n);
      assert n == 0;
    }
  }

  lemma CrossedStep(hs: Headers, h: Hash, root: Hash, n: nat)
    requires WellFormed(hs) && Rooted(hs, h)
    ensures Crossed(hs, h, root, n) <==> Crossed(hs, h, root, n + 1) || RootAt(hs, h, root, n)
  {
  }

  lemma HighestRootStep(hs: Headers, h: Hash, root: Hash, n: nat, k: nat)
    requires WellFormed(hs) && Rooted(hs, h) && HighestRootFrom(hs, h, root, n + 1, k)
    ensures HighestRootFrom(hs, h, root, n,
              if !Crossed(hs, h, root, n + 1) && RootAt(hs, h, root, n) then n else k)
  {
    if Crossed(hs, h, root, n + 1) && root != ZERO_HASH {
      var m: nat :| n + 1 <= m && RootAt(hs, h, root, m);
      assert n <= m;
    }
  }

  /** The search stands at `cur`: above it there is no candidate, and from height `seen` up it
      has looked for the requested root. */
  ghost predicate Searching(hs: Headers, h: Hash, root: Hash, states: set<Hash>, limit: nat,
                            cur: Header, seen: nat, beyondRoot: bool, rootNumber: nat)
    requires WellFormed(hs) && Rooted(hs, h)
  {
    && cur.hash in hs && hs[cur.hash] == cur && IsAncestor(hs, cur.hash, h)
    && (beyondRoot <==> Crossed(hs, h, root, seen))
    && HighestRootFrom(hs, h, root, seen, rootNumber)
    && NoneAbove(hs, h, root, states, limit, cur.number)
    && (cur.number < hs[h].number ==> limit <= cur.number + 1)
  }

  lemma CheckRoot(hs: Headers, h: Hash, root: Hash, states: set<Hash>, limit: nat, cur: Header, beyondRoot: bool,
                  rootNumber: nat)
    requires WellFormed(hs) && Rooted(hs, h)
    requires Searching(hs, h, root, states, limit, cur, cur.number + 1, beyondRoot, rootNumber)
    ensures var met := !beyondRoot && cur.root == root;
            Searching(hs, h, root, states, limit, cur, cur.number, beyondRoot || met,
                      if met then cur.number else rootNumber)
  {
    CrossedStep(hs, h, root, cur.number);
    HighestRootStep(hs, h, root, cur.number, rootNumber);
  }

  /** Every way in which one round of the search can end. */
  lemma EndRound(hs: Headers, h: Hash, root: Hash, states: set<Hash>, limit: nat, cur: Header, beyondRoot: bool,
                 rootNumber: nat)
    requires WellFormed(hs) && Rooted(hs, h)
    requires Searching(hs, h, root, states, limit, cur, cur.number, beyondRoot, rootNumber)
    ensures cur.number < limit ==> Rewound(hs, h, root, states, limit, hs[Ancestor(hs, h, 0)], rootNumber)
    ensures cur.number >= limit && cur.root in states && beyondRoot ==>
              Rewound(hs, h, root, states, limit, cur, rootNumber)
    ensures cur.number >= limit && !(cur.root in states && beyondRoot) && cur.number == 0 ==>
              Rewound(hs, h, root, states, limit, hs[Ancestor(hs, h, 0)], rootNumber)
  {
    if cur.number < limit {
      FoundNothing(hs, h, root, states, limit, cur.number, rootNumber);
    } else if cur.root in states && beyondRoot {
      FoundIt(hs, h, root, states, limit, cur, rootNumber);
    } else if cur.number == 0 {
      FoundNothing(hs, h, root, states, limit, 0, rootNumber);
    }
  }

  lemma NextRound(hs: Headers, h: Hash, root: Hash, states: set<Hash>, limit: nat, cur: Header, beyondRoot: bool,
                  rootNumber: nat)
    requires WellFormed(hs) && Rooted(hs, h) && cur.number > 0
    requires Searching(hs, h, root, states, limit, cur, cur.number, beyondRoot, rootNumber)
    requires cur.number >= limit && !(cur.root in states && beyondRoot)
    ensures cur.parentHash in hs && hs[cur.parentHash].number == cur.number - 1
    ensures Searching(hs, h, root, states, limit, hs[cur.parentHash], cur.number, beyondRoot, rootNumber)
    ensures cur.number == 1 ==> Rewound(hs, h, root, states, limit, hs[cur.parentHash], rootNumber)
  {
    ParentOfAncestor(hs, h, cur.number);
    assert !Candidate(hs, h, root, states, limit, cur.number);
    assert NoneAbove(hs, h, root, states, limit, cur.number - 1);
    if cur.number == 1 {
      WalkedIntoGenesis(hs, h, root, states, limit, rootNumber);
    }
  }

  /** The highest height at or below `n` that may become the new head, or 0. */
  ghost function HighestCandidate(hs: Headers, h: Hash, root: Hash, states: set<Hash>, limit: nat, n: nat): (k: nat)
    requires WellFormed(hs) && Rooted(hs, h) && n <= hs[h].number
    ensures k <= n
  {
    if n == 0 || Candidate(hs, h, root, states, limit, n) then n
    else HighestCandidate(hs, h, root, states, limit, n - 1)
  }

  /** The block that the search from `h` ends at, as a function of what it searches. */
  ghost function NewHead(hs: Headers, h: Hash, root: Hash, states: set<Hash>, limit: nat): Header
    requires WellFormed(hs) && Rooted(hs, h)
  {
    hs[Ancestor(hs, h, HighestCandidate(hs, h, root, states, limit, hs[h].number))]
  }

  lemma {:induction false} HighestIsHighest(hs: Headers, h: Hash, root: Hash, states: set<Hash>, limit: nat, n: nat,
                                            m: nat)
    requires WellFormed(hs) && Rooted(hs, h) && n <= hs[h].number
    requires m <= n && Candidate(hs, h, root, states, limit, m)
    ensures var k := HighestCandidate(hs, h, root, states, limit, n);
            m <= k && Candidate(hs, h, root, states, limit, k)
  {
    if n > m && !Candidate(hs, h, root, states, limit, n) {
      HighestIsHighest(hs, h, root, states, limit, n - 1, m);
    }
  }

  lemma {:induction false} NoCandidateIsZero(hs: Headers, h: Hash, root: Hash, states: set<Hash>, limit: nat, n: nat)
    requires WellFormed(hs) && Rooted(hs, h) && n <= hs[h].number
    requires forall m: nat :: !Candidate(hs, h, root, states, limit, m)
    ensures HighestCandidate(hs, h, root, states, limit, n) == 0
  {
    if n > 0 {
      NoCandidateIsZero(hs, h, root, states, limit, n - 1);
    }
  }

  /** The highest height from `n` down to `low` that has the requested root, or 0. */
  ghost function HighestRoot(hs: Headers, h: Hash, root: Hash, low: nat, n: nat): nat
    requires WellFormed(hs) && Rooted(hs, h) && n <= hs[h].number
  {
    if n < low then 0
    else if n == 0 || RootAt(hs, h, root, n) then n
    else HighestRoot(hs, h, root, low, n - 1)
  }

  /** Where the search from `h` crosses the requested root, as a function of what it searches. */
  ghost function RootNumber(hs: Headers, h: Hash, root: Hash, states: set<Hash>, limit: nat): nat
    requires WellFormed(hs) && Rooted(hs, h)
  {
    var k := HighestCandidate(hs, h, root, states, limit, hs[h].number);
    var low := if Candidate(hs, h, root, states, limit, k) then k else LowestVisited(hs[h], limit);
    if root == ZERO_HASH then 0 else HighestRoot(hs, h, root, low, hs[h].number)
  }

  lemma {:induction false} HighestRootIsIt(hs: Headers, h: Hash, root: Hash, low: nat, n: nat, k: nat)
    requires WellFormed(hs) && Rooted(hs, h) && n <= hs[h].number && root != ZERO_HASH
    requires HighestRootFrom(hs, h, root, low, k) && (forall m: nat :: n < m ==> !RootAt(hs, h, root, m))
    ensures HighestRoot(hs, h, root, low, n) == k
  {
    if n >= low && n > 0 && !RootAt(hs, h, root, n) {
      HighestRootIsIt(hs, h, root, low, n - 1, k);
    }
  }

  lemma {:induction false} HighestRootFound(hs: Headers, h: Hash, root: Hash, low: nat, n: nat)
    requires WellFormed(hs) && Rooted(hs, h) && n <= hs[h].number && root != ZERO_HASH
    requires forall m: nat :: n < m ==> !RootAt(hs, h, root, m)
    ensures HighestRootFrom(hs, h, root, low, HighestRoot(hs, h, root, low, n))
  {
    if n >= low && n > 0 && !RootAt(hs, h, root, n) {
      HighestRootFound(hs, h, root, low, n - 1);
    }
  }

  /** What the search returns is determined by what it searches. */
  lemma RewoundIsNewHead(hs: Headers, h: Hash, root: Hash, states: set<Hash>, limit: nat, newHead: Header,
                         rootNumber: nat)
    requires WellFormed(hs) && Rooted(hs, h) && Rewound(hs, h, root, states, limit, newHead, rootNumber)
    ensures newHead == NewHead(hs, h, root, states, limit)
    ensures rootNumber == RootNumber(hs, h, root, states, limit)
    ensures newHead.number == 0 || newHead.root in states
  {
    var top := hs[h].number;
    if exists n: nat :: Candidate(hs, h, root, states, limit, n) {
      HighestIsHighest(hs, h, root, states, limit, top, newHead.number);
      if root != ZERO_HASH {
        HighestRootIsIt(hs, h, root, newHead.number, top, rootNumber);
      }
    } else {
      NoCandidateIsZero(hs, h, root, states, limit, top);
      if root != ZERO_HASH {
        HighestRootIsIt(hs, h, root, LowestVisited(hs[h], limit), top, rootNumber);
      }
    }
  }

  lemma NewHeadIsRewound(hs: Headers, h: Hash, root: Hash, states: set<Hash>, limit: nat)
    requires WellFormed(hs) && Rooted(hs, h)
    ensures Rewound(hs, h, root, states, limit, NewHead(hs, h, root, states, limit),
                    RootNumber(hs, h, root, states, limit))
  {
    var top := hs[h].number;
    var k := HighestCandidate(hs, h, root, states, limit, top);
    AncestorOfAncestor(hs, h, k, k);
    if root != ZERO_HASH {
      var low := if Candidate(hs, h, root, states, limit, k) then k else LowestVisited(hs[h], limit);
      HighestRootFound(hs, h, root, low, top);
    }
    if exists n: nat :: Candidate(hs, h, root, states, limit, n) {
      forall n: nat | Candidate(hs, h, root, states, limit, n)
        ensures n <= k && Candidate(hs, h, root, states, limit, k)
      {
        HighestIsHighest(hs, h, root, states, limit, top, n);
      }
    } else {
      NoCandidateIsZero(hs, h, root, states, limit, top);
    }
  }

  /** The search may end at height `n`: not below the pivot, or without one at most 90000 blocks
      below the head. */
  ghost predicate InReach(head: Header, pivot: Option<nat>, n: nat) {
    match pivot
    case Some(p) => p <= n
    case None => head.number <= n + 90000
  }

  /** What the search finds is in reach or genesis, and no block in reach that qualifies is higher. */
  lemma SearchReach(hs: Headers, head: Header, root: Hash, states: set<Hash>, pivot: Option<nat>, n: nat)
    requires WellFormed(hs) && Rooted(hs, head.hash) && hs[head.hash] == head
    ensures var found := NewHead(hs, head.hash, root, states, SearchLimit(head, pivot)).number;
            && (found == 0 || InReach(head, pivot, found))
            && ((&& n <= head.number && InReach(head, pivot, n) && Crossed(hs, head.hash, root, n)
                 && hs[Ancestor(hs, head.hash, n)].root in states) ==> n <= found)
  {
    var limit := SearchLimit(head, pivot);
    NewHeadIsRewound(hs, head.hash, root, states, limit);
    assert limit <= n <==> InReach(head, pivot, n);
    if Candidate(hs, head.hash, root, states, limit, n) {
      HighestIsHighest(hs, head.hash, root, states, limit, head.number, n);
    }
  }

  /** `rewindHashHead`: the highest block at or below `head` that has state, is not older than
      the limit and is at or below the requested root; or genesis if there is none. With it
      comes the height at which the requested root was crossed. */
  method RewindHashHead(hs: Headers, head: Header, root: Hash, states: set<Hash>, pivot: Option<nat>, genesis: Header)
    returns (newHead: Header, rootNumber: nat)
    requires WellFormed(hs) && Rooted(hs, head.hash) && hs[head.hash] == head
    requires genesis == hs[Ancestor(hs, head.hash, 0)]
    ensures Rewound(hs, head.hash, root, states, SearchLimit(head, pivot), newHead, rootNumber)
  {
    ghost var h := head.hash;
    var limit := SearchLimit(head, pivot);
    var beyondRoot := root == ZERO_HASH;
    rootNumber := 0;
    var cur := head;
    while true
      invariant Searching(hs, h, root, states, limit, cur, cur.number + 1, beyondRoot, rootNumber)
      decreases cur.number
    {
      CheckRoot(hs, h, root, states, limit, cur, beyondRoot, rootNumber);
      if !beyondRoot && cur.root == root {
        beyondRoot, rootNumber := true, cur.number;
      }
      EndRound(hs, h, root, states, limit, cur, beyondRoot, rootNumber);
      if cur.number < limit {
        return genesis, rootNumber;
      }
      if cur.root !in states {
        var parent := GetHeader(hs, cur.parentHash, Prev(cur.number));
        if parent.None? {
          AtGenesis(hs, h, cur);
          return genesis, rootNumber;
        }
        NextRound(hs, h, root, states, limit, cur, beyondRoot, rootNumber);
        cur := parent.value;
        if cur.number == 0 {
          return cur, rootNumber;
        }
      } else {
        if beyondRoot || cur.number == 0 {
          return cur, rootNumber;
        }
        NextRound(hs, h, root, states, limit, cur, beyondRoot, rootNumber);
        cur := hs[cur.parentHash];
      }
    }
  }

  lemma AtGenesis(hs: Headers, h: Hash, cur: Header)
    requires WellFormed(hs) && Rooted(hs, h) && cur.hash in hs && hs[cur.hash] == cur && IsAncestor(hs, cur.hash, h)
    requires GetHeader(hs, cur.parentHash, Prev(cur.number)).None?
    ensures cur.number == 0 && cur == hs[Ancestor(hs, h, 0)]
  {
    if cur.number > 0 {
      ParentOfAncestor(hs, h, cur.number);
    }
  }

  /** The search, and the functions that say what it finds. */
  method FindNewHead(hs: Headers, head: Header, root: Hash, states: set<Hash>, pivot: Option<nat>, genesis: Header)
    returns (newHead: Header, rootNumber: nat)
    requires WellFormed(hs) && Rooted(hs, head.hash) && hs[head.hash] == head
    requires genesis == hs[Ancestor(hs, head.hash, 0)]
    ensures newHead == NewHead(hs, head.hash, root, states, SearchLimit(head, pivot))
    ensures rootNumber == RootNumber(hs, head.hash, root, states, SearchLimit(head, pivot))
    ensures IsAncestor(hs, newHead.hash, head.hash) && hs[newHead.hash] == newHead
    ensures newHead.number == 0 || newHead.root in states
  {
    newHead, rootNumber := RewindHashHead(hs, head, root, states, pivot, genesis);
    RewoundIsNewHead(hs, head.hash, root, states, SearchLimit(head, pivot), newHead, rootNumber);
  }
}
