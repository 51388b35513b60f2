/**
 Canonical-chain maintenance of core/blockchain.go: `reorg`, `writeHeadBlock` and the
 operations that move the head, with the transaction lookup index and its cache.
 */
module CanonicalChain {
  import opened Basics
  import opened BlockTree
  import opened Rawdb

  datatype Block = Block(header: Header, txs: seq<Hash>)

  datatype Outcome = Accepted | InvalidOldChain | InvalidNewChain | UnknownAncestor

  datatype TxLookup = TxLookup(blockHash: Hash, blockIndex: nat, index: nat)

  // ------------------------------------------------------------------ specification

  type Bodies = map<Hash, seq<Hash>>

  /** Every stored header has its body. */
  ghost predicate Stored(hs: Headers, bs: Bodies) {
    WellFormed(hs) && forall h :: h in hs ==> h in bs
  }

  /** The block at height `n` of the branch of `h` includes transaction `t`. */
  ghost predicate OnBranch(hs: Headers, bs: Bodies, h: Hash, n: nat, t: Hash)
    requires Stored(hs, bs) && Rooted(hs, h)
  {
    n <= hs[h].number && t in bs[Ancestor(hs, h, n)]
  }

  /** No transaction is included at two heights of the branch of `h`. */
  ghost predicate NoTxTwice(hs: Headers, bs: Bodies, h: Hash)
    requires Stored(hs, bs) && Rooted(hs, h)
  {
    forall t, m: nat, n: nat :: OnBranch(hs, bs, h, m, t) && OnBranch(hs, bs, h, n, t) ==> m == n
  }

  /** The lookup entries of one block. */
  function Entries(txs: seq<Hash>, n: nat): map<Hash, nat> {
    map t | t in txs :: n
  }

  /** The lookup index of the branch of `h` up to height `k`, written block by block. */
  ghost function BranchLookup(hs: Headers, bs: Bodies, h: Hash, k: nat): map<Hash, nat>
    requires Stored(hs, bs) && Rooted(hs, h) && k <= hs[h].number
  {
    var entries := Entries(bs[Ancestor(hs, h, k)], k);
    if k == 0 then entries else BranchLookup(hs, bs, h, k - 1) + entries
  }

  /** The lookup index holds exactly the transactions of the branch, each with the number of
      the one block that includes it. */
  lemma {:induction false} LookupIsExact(hs: Headers, bs: Bodies, h: Hash, k: nat, t: Hash)
    requires Stored(hs, bs) && Rooted(hs, h) && k <= hs[h].number && NoTxTwice(hs, bs, h)
    ensures t in BranchLookup(hs, bs, h, k) <==> exists n: nat :: n <= k && OnBranch(hs, bs, h, n, t)
    ensures forall n: nat :: n <= k && OnBranch(hs, bs, h, n, t) ==> BranchLookup(hs, bs, h, k)[t] == n
  {
    if t in bs[Ancestor(hs, h, k)] {
      assert OnBranch(hs, bs, h, k, t);
    }
    if k > 0 {
      LookupIsExact(hs, bs, h, k - 1, t);
    }
  }

  /** The first position of `t` in a block body. */
  function IndexOf(txs: seq<Hash>, t: Hash): (i: nat)
    ensures i <= |txs| && (i < |txs| <==> t in txs) && (i < |txs| ==> txs[i] == t)
    ensures forall j :: 0 <= j < i ==> txs[j] != t
  {
    if txs == [] then 0 else if txs[0] == t then 0 else 1 + IndexOf(txs[1..], t)
  }

  /** What the database answers for a transaction hash. */
  function ReadTransaction(d: Disk, t: Hash): Option<TxLookup> {
    if t !in d.lookup then None else
    var n := d.lookup[t];
    var h := ReadCanonicalHash(d, n);
    if h == ZERO_HASH then None else
    match GetBody(d, h, n)
    case None => None
    case Some(txs) => if t in txs then Some(TxLookup(h, n, IndexOf(txs, t))) else None
  }

  ghost predicate CacheCoherent(d: Disk, cache: map<Hash, TxLookup>) {
    forall t :: t in cache ==> ReadTransaction(d, t) == Some(cache[t])
  }

  /** The index holds the whole branch of `head`. */
  ghost predicate Covers(hs: Headers, canon: map<nat, Hash>, head: Hash)
  {
    && WellFormed(hs)
    && Rooted(hs, head)
    && (forall n: nat | n <= hs[head].number :: n in canon && canon[n] == Ancestor(hs, head, n))
  }

  /** The persisted index covers the whole branch of the persisted head block. */
  ghost predicate CoversHead(d: Disk) {
    Covers(d.headers, d.canon, d.headBlock)
  }

  // ------------------------------------------------------------------ common ancestor

  /** Steps one head back until it stands at height `target`, or at a gap. */
  method StepBackTo(hs: Headers, head: Header, target: nat)
    returns (found: bool, cur: Header, seg: seq<Header>)
    requires WellFormed(hs) && head.hash in hs && hs[head.hash] == head && target <= head.number
    ensures !found ==> !Rooted(hs, head.hash)
    ensures found ==> WalkedTo(hs, head.hash, cur, seg) && cur.number == target
  {
    found, cur, seg := true, head, [];
    while cur.number != target
      invariant target <= cur.number && WalkedTo(hs, head.hash, cur, seg)
      decreases cur.number
    {
      WalkOn(hs, head.hash, cur, seg);
      seg := seg + [cur];
      match GetHeader(hs, cur.parentHash, Prev(cur.number))
      case None =>
        found := false;
        return;
      case Some(parent) =>
        cur := parent;
    }
  }

  /** The branches of `a` and `b` differ at every height above `c` that both have. */
  ghost predicate DifferAbove(hs: Headers, a: Hash, b: Hash, c: nat)
    requires WellFormed(hs) && Rooted(hs, a) && Rooted(hs, b)
  {
    forall m: nat | c < m <= hs[a].number && m <= hs[b].number :: Ancestor(hs, a, m) != Ancestor(hs, b, m)
  }

  lemma MeetingPoint(hs: Headers, a: Hash, b: Hash, c: Hash)
    requires WellFormed(hs) && Rooted(hs, a) && Rooted(hs, b)
    requires IsAncestor(hs, c, a) && IsAncestor(hs, c, b) && DifferAbove(hs, a, b, hs[c].number)
    ensures HighestCommon(hs, a, b, c) && SameRoot(hs, a, b)
  {
    AgreeBelow(hs, a, b, hs[c].number, 0);
    forall x | IsAncestor(hs, x, a) && IsAncestor(hs, x, b)
      ensures hs[x].number <= hs[c].number
    {
      assert Ancestor(hs, a, hs[x].number) == Ancestor(hs, b, hs[x].number);
    }
  }

  /** Steps both heads back together until they meet, or until one is at a gap. */
  method Meet(hs: Headers, oldHead: Header, newHead: Header,
              x0: Header, y0: Header, oldChain0: seq<Header>, newChain0: seq<Header>)
    returns (err: Outcome, oldChain: seq<Header>, newChain: seq<Header>, common: Header)
    requires WellFormed(hs) && Rooted(hs, oldHead.hash) && hs[oldHead.hash] == oldHead
    requires newHead.hash in hs && hs[newHead.hash] == newHead
    requires WalkedTo(hs, oldHead.hash, x0, oldChain0) && WalkedTo(hs, newHead.hash, y0, newChain0)
    requires x0.number == y0.number && (x0.number == oldHead.number || x0.number == newHead.number)
    ensures err == InvalidNewChain <==> !Rooted(hs, newHead.hash)
    ensures err == InvalidOldChain <==> Rooted(hs, newHead.hash) && !SameRoot(hs, oldHead.hash, newHead.hash)
    ensures err != UnknownAncestor
    ensures err == Accepted ==>
              && HighestCommon(hs, oldHead.hash, newHead.hash, common.hash) && hs[common.hash] == common
              && IsSegment(hs, oldHead.hash, common.number, oldChain)
              && IsSegment(hs, newHead.hash, common.number, newChain)
  {
    var x, y := x0, y0;
    oldChain, newChain := oldChain0, newChain0;
    while x.hash != y.hash
      invariant x.number == y.number
      invariant WalkedTo(hs, oldHead.hash, x, oldChain) && WalkedTo(hs, newHead.hash, y, newChain)
      invariant Rooted(hs, newHead.hash) ==> DifferAbove(hs, oldHead.hash, newHead.hash, x.number)
      decreases x.number
    {
      WalkOn(hs, oldHead.hash, x, oldChain);
      WalkOn(hs, newHead.hash, y, newChain);
      oldChain, newChain := oldChain + [x], newChain + [y];
      var xp := GetHeader(hs, x.parentHash, Prev(x.number));
      if xp.None? {
        common := x;
        err := InvalidOldChain;
        return;
      }
      var yp := GetHeader(hs, y.parentHash, Prev(y.number));
      if yp.None? {
        common := x;
        err := InvalidNewChain;
        return;
      }
      x, y := xp.value, yp.value;
    }
    err, common := Accepted, x;
    MeetingPoint(hs, oldHead.hash, newHead.hash, x.hash);
  }

  /** The walk that opens `reorg`: the longer side steps back to the height of the shorter
      one, then both step back until they meet. */
  method FindCommon(hs: Headers, oldHead: Header, newHead: Header)
    returns (err: Outcome, oldChain: seq<Header>, newChain: seq<Header>, common: Header)
    requires WellFormed(hs) && Rooted(hs, oldHead.hash) && hs[oldHead.hash] == oldHead
    requires newHead.hash in hs && hs[newHead.hash] == newHead
    ensures err == InvalidNewChain <==> !Rooted(hs, newHead.hash)
    ensures err == InvalidOldChain <==> Rooted(hs, newHead.hash) && !SameRoot(hs, oldHead.hash, newHead.hash)
    ensures err == Accepted <==> Rooted(hs, newHead.hash) && SameRoot(hs, oldHead.hash, newHead.hash)
    ensures err == Accepted ==>
              && HighestCommon(hs, oldHead.hash, newHead.hash, common.hash) && hs[common.hash] == common
              && IsSegment(hs, oldHead.hash, common.number, oldChain)
              && IsSegment(hs, newHead.hash, common.number, newChain)
  {
    var found, x, y := true, oldHead, newHead;
    oldChain, newChain, common := [], [], oldHead;
    if oldHead.number > newHead.number {
      found, x, oldChain := StepBackTo(hs, oldHead, newHead.number);
    } else {
      found, y, newChain := StepBackTo(hs, newHead, oldHead.number);
      if !found {
        err := InvalidNewChain;
        return;
      }
    }
    err, oldChain, newChain, common := Meet(hs, oldHead, newHead, x, y, oldChain, newChain);
  }

  // ------------------------------------------------------------------ reorganisation, on values

  ghost predicate BlockStored(d: Disk, b: Block) {
    b.header.hash in d.headers && d.headers[b.header.hash] == b.header &&
    b.header.hash in d.bodies && d.bodies[b.header.hash] == b.txs
  }

  /** What `writeHeadBlock` makes of the database. */
  function HeadWritten(d: Disk, b: Block): Disk {
    var h, n := b.header.hash, b.header.number;
    d.(canon := d.canon[n := h],
       lookup := d.lookup + Entries(b.txs, n),
       headHeader := h, headFast := h, headBlock := h)
  }

  function BodyOf(bs: Bodies, h: Hash): seq<Hash> {
    if h in bs then bs[h] else []
  }

  /** The number index after `chain[|chain| - 1]` down to `chain[i]` have been written. */
  function WrittenIndex(canon: map<nat, Hash>, chain: seq<Header>, i: nat): map<nat, Hash>
    decreases |chain| - i
  {
    if i >= |chain| then canon
    else WrittenIndex(canon, chain, i + 1)[chain[i].number := chain[i].hash]
  }

  /** The lookup index after the same blocks have been written. */
  function WrittenLookup(lookup: map<Hash, nat>, bs: Bodies, chain: seq<Header>, i: nat): map<Hash, nat>
    decreases |chain| - i
  {
    if i >= |chain| then lookup
    else WrittenLookup(lookup, bs, chain, i + 1) + Entries(BodyOf(bs, chain[i].hash), chain[i].number)
  }

  /** The database after the same blocks have been written as heads. */
  function HeadsWritten(d: Disk, chain: seq<Header>, i: nat): Disk
    decreases |chain| - i
  {
    if i >= |chain| then d
    else HeadWritten(HeadsWritten(d, chain, i + 1), Block(chain[i], BodyOf(d.bodies, chain[i].hash)))
  }

  /** The databases that a crash could leave behind on the way there: those before each write. */
  function HeadStates(d: Disk, chain: seq<Header>, i: nat): seq<Disk>
    decreases |chain| - i
  {
    if i >= |chain| then [] else HeadStates(d, chain, i + 1) + [HeadsWritten(d, chain, i + 1)]
  }

  lemma {:induction false} HeadsWrittenFields(d: Disk, chain: seq<Header>, i: nat)
    ensures var r := HeadsWritten(d, chain, i);
            && r.headers == d.headers && r.bodies == d.bodies
            && r.canon == WrittenIndex(d.canon, chain, i)
            && r.lookup == WrittenLookup(d.lookup, d.bodies, chain, i)
            && r.headBlock == if i >= |chain| then d.headBlock else chain[i].hash
    decreases |chain| - i
  {
    if i < |chain| {
      HeadsWrittenFields(d, chain, i + 1);
    }
  }

  /** `types.HashDifference`, as a set. */
  function Dropped(deleted: seq<Hash>, reborn: seq<Hash>): set<Hash> {
    set t | t in deleted && t !in reborn
  }

  /** What the batch at the end of `reorg` makes of the database. */
  function Pruned(d: Disk, number: nat, dropped: set<Hash>): Disk {
    d.(canon := UpTo(d.canon, number), lookup := d.lookup - dropped)
  }

  /** Entry `n` of number index `w` is that of the branch of `b` up to height `k`, and above
      it what is left of the branch of `a`. */
  ghost predicate OverlaidAt(hs: Headers, a: Hash, b: Hash, k: nat, w: map<nat, Hash>, n: nat)
    requires WellFormed(hs) && Rooted(hs, a) && Rooted(hs, b) && k <= hs[b].number
  {
    && (n in w <==> n <= k || n <= hs[a].number)
    && (n <= k ==> w[n] == Ancestor(hs, b, n))
    && (k < n <= hs[a].number ==> w[n] == Ancestor(hs, a, n))
  }

  /** The number index while the branch of `b` is written over the branch of `a`. */
  lemma {:induction false} WrittenIndexAt(hs: Headers, a: Hash, b: Hash, c: nat, chain: seq<Header>, i: nat, n: nat)
    requires WellFormed(hs) && Rooted(hs, a) && Rooted(hs, b) && IsSegment(hs, b, c, chain) && i <= |chain|
    requires c <= hs[a].number && Ancestor(hs, a, c) == Ancestor(hs, b, c)
    ensures OverlaidAt(hs, a, b, hs[b].number - i, WrittenIndex(Chain(hs, a), chain, i), n)
    decreases |chain| - i
  {
    if i < |chain| {
      WrittenIndexAt(hs, a, b, c, chain, i + 1, n);
    } else if n <= c {
      AgreeBelow(hs, a, b, c, n);
    }
  }

  lemma OverlaidEverywhere(hs: Headers, a: Hash, b: Hash, c: nat, k: nat, chain: seq<Header>, i: nat, w: map<nat, Hash>)
    requires WellFormed(hs) && Rooted(hs, a) && Rooted(hs, b) && IsSegment(hs, b, c, chain) && i <= |chain|
    requires c <= hs[a].number && Ancestor(hs, a, c) == Ancestor(hs, b, c)
    requires k == hs[b].number - i && w == WrittenIndex(Chain(hs, a), chain, i)
    ensures forall n: nat :: OverlaidAt(hs, a, b, k, w, n)
  {
    forall n: nat
      ensures OverlaidAt(hs, a, b, k, w, n)
    {
      WrittenIndexAt(hs, a, b, c, chain, i, n);
    }
  }

  lemma WrittenCovers(hs: Headers, a: Hash, b: Hash, c: nat, chain: seq<Header>, i: nat)
    requires WellFormed(hs) && Rooted(hs, a) && Rooted(hs, b) && IsSegment(hs, b, c, chain) && i < |chain|
    requires c <= hs[a].number && Ancestor(hs, a, c) == Ancestor(hs, b, c)
    ensures Covers(hs, WrittenIndex(Chain(hs, a), chain, i), Ancestor(hs, b, hs[b].number - i))
  {
    var k := hs[b].number - i;
    forall n: nat | n <= k
      ensures n in WrittenIndex(Chain(hs, a), chain, i)
      ensures WrittenIndex(Chain(hs, a), chain, i)[n] == Ancestor(hs, Ancestor(hs, b, k), n)
    {
      WrittenIndexAt(hs, a, b, c, chain, i, n);
      AncestorOfAncestor(hs, b, k, n);
    }
  }

  /** At every crash point of that writing the index covers the branch of the persisted head. */
  lemma WrittenCoversHead(d: Disk, a: Hash, b: Hash, c: nat, chain: seq<Header>, i: nat)
    requires WellFormed(d.headers) && Rooted(d.headers, a) && Rooted(d.headers, b)
    requires IsSegment(d.headers, b, c, chain) && i < |chain|
    requires c <= d.headers[a].number && Ancestor(d.headers, a, c) == Ancestor(d.headers, b, c)
    requires d.canon == Chain(d.headers, a)
    ensures CoversHead(HeadsWritten(d, chain, i))
  {
    HeadsWrittenFields(d, chain, i);
    WrittenCovers(d.headers, a, b, c, chain, i);
    assert chain[i].hash == Ancestor(d.headers, b, d.headers[b].number - i);
  }

  /** An index that holds the branch of `b` up to height `k`, cut there. */
  lemma CutIsChain(hs: Headers, b: Hash, k: nat, w: map<nat, Hash>)
    requires WellFormed(hs) && Rooted(hs, b) && k <= hs[b].number
    requires forall n: nat | n <= k :: n in w && w[n] == Ancestor(hs, b, n)
    ensures UpTo(w, k) == Chain(hs, Ancestor(hs, b, k))
  {
    ChainOfAncestor(hs, b, k);
  }

  /** `reorg` leaves in the number index exactly the new branch up to height `k`. */
  lemma PrunedIndex(hs: Headers, a: Hash, b: Hash, k: nat, w: map<nat, Hash>)
    requires WellFormed(hs) && Rooted(hs, a) && Rooted(hs, b) && k <= hs[b].number
    requires forall n: nat :: OverlaidAt(hs, a, b, k, w, n)
    ensures forall n: nat :: n in w <==> n <= k || n <= hs[a].number
    ensures forall n :: n in w ==> w[n] != ZERO_HASH
    ensures UpTo(w, k) == Chain(hs, Ancestor(hs, b, k))
  {
    forall n: nat
      ensures n in w <==> n <= k || n <= hs[a].number
      ensures n in w ==> w[n] != ZERO_HASH
      ensures n <= k ==> w[n] == Ancestor(hs, b, n)
    {
      assert OverlaidAt(hs, a, b, k, w, n);
    }
    CutIsChain(hs, b, k, w);
  }

  /** Transaction `t` is in the branch of `h` above height `lo`, up to height `hi`. */
  ghost predicate OnSegment(hs: Headers, bs: Bodies, h: Hash, lo: nat, hi: nat, t: Hash)
    requires Stored(hs, bs) && Rooted(hs, h)
  {
    exists n: nat :: lo < n <= hi && OnBranch(hs, bs, h, n, t)
  }

  /** Entry `t` of lookup index `w` carries its new number if one of the blocks above height
      `c` of the branch of `b`, up to height `k`, includes it, and is as in `lookup` otherwise. */
  ghost predicate RewrittenAt(hs: Headers, bs: Bodies, b: Hash, c: nat, k: nat,
                              lookup: map<Hash, nat>, w: map<Hash, nat>, t: Hash)
    requires Stored(hs, bs) && Rooted(hs, b)
  {
    && (!OnSegment(hs, bs, b, c, k, t) ==> (t in w <==> t in lookup) && (t in lookup ==> w[t] == lookup[t]))
    && (forall n: nat :: c < n <= k && OnBranch(hs, bs, b, n, t) ==> t in w && w[t] == n)
  }

  /** The lookup index while the new branch is written. */
  lemma {:induction false} WrittenLookupAt(hs: Headers, bs: Bodies, lookup: map<Hash, nat>, b: Hash, c: nat,
                                           chain: seq<Header>, i: nat, t: Hash)
    requires Stored(hs, bs) && Rooted(hs, b) && NoTxTwice(hs, bs, b) && IsSegment(hs, b, c, chain) && i <= |chain|
    ensures RewrittenAt(hs, bs, b, c, hs[b].number - i, lookup, WrittenLookup(lookup, bs, chain, i), t)
    decreases |chain| - i
  {
    if i < |chain| {
      WrittenLookupAt(hs, bs, lookup, b, c, chain, i + 1, t);
      if t in bs[chain[i].hash] {
        assert OnBranch(hs, bs, b, hs[b].number - i, t);
      }
    }
  }

  lemma WrittenEverywhere(hs: Headers, bs: Bodies, lookup: map<Hash, nat>, b: Hash, c: nat, k: nat,
                          chain: seq<Header>, i: nat, w: map<Hash, nat>)
    requires Stored(hs, bs) && Rooted(hs, b) && NoTxTwice(hs, bs, b) && IsSegment(hs, b, c, chain) && i <= |chain|
    requires k == hs[b].number - i && w == WrittenLookup(lookup, bs, chain, i)
    ensures forall t :: RewrittenAt(hs, bs, b, c, k, lookup, w, t)
  {
    forall t
      ensures RewrittenAt(hs, bs, b, c, k, lookup, w, t)
    {
      WrittenLookupAt(hs, bs, lookup, b, c, chain, i, t);
    }
  }

  /** Of a lookup index `w` that carries the new numbers for the new blocks and is otherwise
      that of the old branch, one transaction's entry is right for the new branch up to
      height `k` once it is deleted if dropped. */
  lemma PrunedEntry(hs: Headers, bs: Bodies, a: Hash, b: Hash, c: nat, k: nat, w: map<Hash, nat>, t: Hash,
                    dropped: bool)
    requires Stored(hs, bs) && Rooted(hs, a) && Rooted(hs, b) && NoTxTwice(hs, bs, a) && NoTxTwice(hs, bs, b)
    requires c <= k <= hs[b].number && c <= hs[a].number && Ancestor(hs, a, c) == Ancestor(hs, b, c)
    requires RewrittenAt(hs, bs, b, c, k, BranchLookup(hs, bs, a, hs[a].number), w, t)
    requires dropped <==> OnSegment(hs, bs, a, c, hs[a].number, t) && !OnSegment(hs, bs, b, c, k, t)
    ensures var want := BranchLookup(hs, bs, b, k);
            && (t in want <==> t in w && !dropped)
            && (t in want ==> w[t] == want[t])
  {
    LookupIsExact(hs, bs, a, hs[a].number, t);
    LookupIsExact(hs, bs, b, k, t);
    forall n: nat | n <= c
      ensures OnBranch(hs, bs, a, n, t) <==> OnBranch(hs, bs, b, n, t)
    {
      AgreeBelow(hs, a, b, c, n);
    }
    if OnSegment(hs, bs, b, c, k, t) {
      var n: nat :| c < n <= k && OnBranch(hs, bs, b, n, t);
    } else if OnSegment(hs, bs, a, c, hs[a].number, t) {
      var n: nat :| c < n <= hs[a].number && OnBranch(hs, bs, a, n, t);
      assert forall m: nat | m <= c :: !OnBranch(hs, bs, a, m, t);
    } else if t in BranchLookup(hs, bs, a, hs[a].number) {
      var n: nat :| n <= hs[a].number && OnBranch(hs, bs, a, n, t);
      assert n <= c;
    }
  }

  lemma MapsAgree<K, V>(w: map<K, V>, dropped: set<K>, want: map<K, V>)
    requires forall t :: t in want <==> t in w && t !in dropped
    requires forall t :: t in want ==> w[t] == want[t]
    ensures w - dropped == want
  {
  }

  /** `reorg` leaves in the lookup index exactly the new branch up to height `k`. */
  lemma PrunedRewritten(hs: Headers, bs: Bodies, a: Hash, b: Hash, c: nat, k: nat, w: map<Hash, nat>,
                        dropped: set<Hash>)
    requires Stored(hs, bs) && Rooted(hs, a) && Rooted(hs, b) && NoTxTwice(hs, bs, a) && NoTxTwice(hs, bs, b)
    requires c <= k <= hs[b].number && c <= hs[a].number && Ancestor(hs, a, c) == Ancestor(hs, b, c)
    requires forall t :: RewrittenAt(hs, bs, b, c, k, BranchLookup(hs, bs, a, hs[a].number), w, t)
    requires forall t :: t in dropped <==>
               OnSegment(hs, bs, a, c, hs[a].number, t) && !OnSegment(hs, bs, b, c, k, t)
    ensures w - dropped == BranchLookup(hs, bs, b, k)
  {
    var want := BranchLookup(hs, bs, b, k);
    forall t
      ensures t in want <==> t in w && t !in dropped
      ensures t in want ==> w[t] == want[t]
    {
      PrunedEntry(hs, bs, a, b, c, k, w, t, t in dropped);
    }
    MapsAgree(w, dropped, want);
  }

  /** One of the blocks `seg[lo..]` includes transaction `t`. */
  ghost predicate InBlocks(bs: Bodies, seg: seq<Header>, lo: nat, t: Hash) {
    exists i :: lo <= i < |seg| && seg[i].hash in bs && t in bs[seg[i].hash]
  }

  lemma SegmentTransactions(hs: Headers, bs: Bodies, h: Hash, c: nat, seg: seq<Header>, lo: nat, t: Hash)
    requires Stored(hs, bs) && Rooted(hs, h) && IsSegment(hs, h, c, seg) && lo <= |seg|
    ensures InBlocks(bs, seg, lo, t) <==> OnSegment(hs, bs, h, c, hs[h].number - lo, t)
  {
    if InBlocks(bs, seg, lo, t) {
      var i :| lo <= i < |seg| && seg[i].hash in bs && t in bs[seg[i].hash];
      assert OnBranch(hs, bs, h, hs[h].number - i, t);
    }
    if OnSegment(hs, bs, h, c, hs[h].number - lo, t) {
      var n: nat :| c < n <= hs[h].number - lo && OnBranch(hs, bs, h, n, t);
      assert seg[hs[h].number - n] == hs[Ancestor(hs, h, n)];
    }
  }

  /** The transactions whose lookup entries `reorg` deletes are those of the dropped blocks
      that the new chain below its head does not include again. */
  lemma DroppedAreOffBranch(hs: Headers, bs: Bodies, a: Hash, b: Hash, c: nat,
                            oldChain: seq<Header>, newChain: seq<Header>,
                            deletedTxs: seq<Hash>, rebirthTxs: seq<Hash>)
    requires Stored(hs, bs) && Rooted(hs, a) && Rooted(hs, b)
    requires IsSegment(hs, a, c, oldChain) && IsSegment(hs, b, c, newChain)
    requires forall t :: t in deletedTxs <==> InBlocks(bs, oldChain, 0, t)
    requires forall t :: t in rebirthTxs <==> InBlocks(bs, newChain, 1, t)
    ensures forall t :: t in Dropped(deletedTxs, rebirthTxs) <==>
              OnSegment(hs, bs, a, c, hs[a].number, t) && !OnSegment(hs, bs, b, c, Below(hs, b, c), t)
  {
    forall t
      ensures t in deletedTxs <==> OnSegment(hs, bs, a, c, hs[a].number, t)
      ensures t in rebirthTxs <==> OnSegment(hs, bs, b, c, Below(hs, b, c), t)
    {
      SegmentTransactions(hs, bs, a, c, oldChain, 0, t);
      if newChain != [] {
        SegmentTransactions(hs, bs, b, c, newChain, 1, t);
      }
    }
  }

  /** The height up to which `reorg` itself makes the branch of `b` canonical. */
  ghost function Below(hs: Headers, b: Hash, c: nat): nat
    requires b in hs
  {
    if hs[b].number > c then hs[b].number - 1 else c
  }

  /** The crash point between `reorg` and the write of the new head: the persisted index
      covers the persisted head unless blocks were dropped and none was written as head. */
  lemma CoverageAfterReorg(hs: Headers, a: Hash, b: Hash, c: nat, k: nat)
    requires WellFormed(hs) && Rooted(hs, a) && Rooted(hs, b) && c <= hs[a].number && c <= k <= hs[b].number
    requires Ancestor(hs, a, c) == Ancestor(hs, b, c)
    ensures var m := Ancestor(hs, b, k);
            Covers(hs, Chain(hs, m), if k > c then m else a) <==> k > c || c == hs[a].number
  {
    var m := Ancestor(hs, b, k);
    CoversOwnBranch(hs, m);
    if k == c && c < hs[a].number {
      assert hs[a].number !in Chain(hs, m);
    } else {
      assert m == if k > c then m else a;
    }
  }

  lemma CoversOwnBranch(hs: Headers, h: Hash)
    requires WellFormed(hs) && Rooted(hs, h)
    ensures Covers(hs, Chain(hs, h), h)
  {
  }

  /** At every crash point while `reorg` writes the new branch, the persisted index covers the
      branch of the persisted head block. */
  lemma {:induction false} ReorgCrashPoints(d: Disk, a: Hash, b: Hash, c: nat, chain: seq<Header>, i: nat)
    requires WellFormed(d.headers) && Rooted(d.headers, a) && Rooted(d.headers, b)
    requires IsSegment(d.headers, b, c, chain) && i <= |chain|
    requires c <= d.headers[a].number && Ancestor(d.headers, a, c) == Ancestor(d.headers, b, c)
    requires d.canon == Chain(d.headers, a) && d.headBlock == a
    ensures forall x :: x in HeadStates(d, chain, i) ==> CoversHead(x)
    ensures CoversHead(HeadsWritten(d, chain, i))
    decreases |chain| - i
  {
    if i < |chain| {
      ReorgCrashPoints(d, a, b, c, chain, i + 1);
      WrittenCoversHead(d, a, b, c, chain, i);
    } else {
      CoversOwnBranch(d.headers, a);
    }
  }

  ghost predicate AllCover(commits: seq<Disk>, from: nat) {
    forall i :: from <= i < |commits| ==> CoversHead(commits[i])
  }

  /** All crash points of a head change that runs `reorg`: while the new branch is written, the
      persisted index covers the persisted head; between `reorg` and the write of the new head it
      does unless blocks are dropped and the new head is at most one block above the common
      ancestor. */
  lemma AllCrashPoints(d: Disk, after: Disk, a: Hash, b: Hash, c: nat, newChain: seq<Header>, earlier: seq<Disk>)
    requires WellFormed(d.headers) && Rooted(d.headers, a) && Rooted(d.headers, b)
    requires IsSegment(d.headers, b, c, newChain) && c <= d.headers[a].number
    requires Ancestor(d.headers, a, c) == Ancestor(d.headers, b, c)
    requires d.canon == Chain(d.headers, a) && d.headBlock == a
    requires after.headers == d.headers
    requires after.canon == Chain(d.headers, Ancestor(d.headers, b, Below(d.headers, b, c)))
    requires after.headBlock == if Below(d.headers, b, c) > c then Ancestor(d.headers, b, Below(d.headers, b, c)) else a
    ensures AllCover(earlier + HeadStates(d, newChain, 1) + [HeadsWritten(d, newChain, 1)], |earlier|)
    ensures CoversHead(after) <==> d.headers[b].number >= c + 2 || c == d.headers[a].number
  {
    var i := if newChain == [] then 0 else 1;
    ReorgCrashPoints(d, a, b, c, newChain, i);
    CoverageAfterReorg(d.headers, a, b, c, Below(d.headers, b, c));
    var states, written := HeadStates(d, newChain, 1), HeadsWritten(d, newChain, 1);
    assert states == HeadStates(d, newChain, i) && written == HeadsWritten(d, newChain, i);
    forall j | |earlier| <= j < |earlier + states + [written]|
      ensures CoversHead((earlier + states + [written])[j])
    {
      if j < |earlier + states| {
        assert (earlier + states + [written])[j] == states[j - |earlier|];
      }
    }
  }

  lemma OneMoreCover(commits: seq<Disk>, d: Disk, from: nat)
    requires from <= |commits| && AllCover(commits, from)
    ensures AllCover(commits + [d], from) <==> CoversHead(d)
  {
    assert (commits + [d])[|commits|] == d;
  }

  /** The database that the mutating part of `reorg` leaves behind. */
  function Reorged(d: Disk, newChain: seq<Header>, number: nat, dropped: set<Hash>): Disk {
    Pruned(HeadsWritten(d, newChain, 1), number, dropped)
  }

  /** Its number index holds exactly the branch of the new head up to the height below which
      `reorg` works, and its head marker names the last block written as head. */
  lemma ReorgedIndex(d: Disk, a: Hash, b: Hash, c: nat, newChain: seq<Header>, dropped: set<Hash>)
    requires WellFormed(d.headers) && Rooted(d.headers, a) && Rooted(d.headers, b)
    requires c <= d.headers[a].number && IsSegment(d.headers, b, c, newChain)
    requires Ancestor(d.headers, a, c) == Ancestor(d.headers, b, c)
    requires d.canon == Chain(d.headers, a) && d.headBlock == a
    ensures var k := Below(d.headers, b, c);
            var w, r := HeadsWritten(d, newChain, 1), Reorged(d, newChain, k, dropped);
            && (forall n: nat :: n in w.canon <==> n <= k || n <= d.headers[a].number)
            && (forall n :: n in w.canon ==> w.canon[n] != ZERO_HASH)
            && r.headers == d.headers && r.bodies == d.bodies
            && r.canon == Chain(d.headers, Ancestor(d.headers, b, k))
            && r.headBlock == if k > c then Ancestor(d.headers, b, k) else a
  {
    HeadsWrittenFields(d, newChain, 1);
    var i, k, w := if newChain == [] then 0 else 1, Below(d.headers, b, c), HeadsWritten(d, newChain, 1).canon;
    OverlaidEverywhere(d.headers, a, b, c, k, newChain, i, w);
    PrunedIndex(d.headers, a, b, k, w);
  }

  /** Its lookup index holds exactly the transactions of that branch. */
  lemma ReorgedLookup(d: Disk, a: Hash, b: Hash, c: nat, newChain: seq<Header>, dropped: set<Hash>)
    requires Stored(d.headers, d.bodies) && Rooted(d.headers, a) && Rooted(d.headers, b)
    requires NoTxTwice(d.headers, d.bodies, a) && NoTxTwice(d.headers, d.bodies, b)
    requires c <= d.headers[a].number && IsSegment(d.headers, b, c, newChain)
    requires Ancestor(d.headers, a, c) == Ancestor(d.headers, b, c)
    requires d.lookup == BranchLookup(d.headers, d.bodies, a, d.headers[a].number)
    requires forall t :: t in dropped <==>
               OnSegment(d.headers, d.bodies, a, c, d.headers[a].number, t) &&
               !OnSegment(d.headers, d.bodies, b, c, Below(d.headers, b, c), t)
    ensures var k := Below(d.headers, b, c);
            Reorged(d, newChain, k, dropped).lookup == BranchLookup(d.headers, d.bodies, b, k)
  {
    HeadsWrittenFields(d, newChain, 1);
    var i, k := if newChain == [] then 0 else 1, Below(d.headers, b, c);
    var w := WrittenLookup(d.lookup, d.bodies, newChain, i);
    WrittenEverywhere(d.headers, d.bodies, d.lookup, b, c, k, newChain, i, w);
    PrunedRewritten(d.headers, d.bodies, a, b, c, k, w, dropped);
  }

  /** The lookup index of a branch depends on the branch alone. */
  lemma {:induction false} LookupOfAncestor(hs: Headers, bs: Bodies, h: Hash, m: nat, n: nat)
    requires Stored(hs, bs) && Rooted(hs, h) && n <= m <= hs[h].number
    ensures BranchLookup(hs, bs, Ancestor(hs, h, m), n) == BranchLookup(hs, bs, h, n)
  {
    AncestorOfAncestor(hs, h, m, n);
    if n > 0 {
      LookupOfAncestor(hs, bs, h, m, n - 1);
    }
  }

  /** Writing `b` as head on top of its branch up to its parent, or to itself, completes both
      indexes. */
  lemma CompleteWithHead(hs: Headers, bs: Bodies, b: Hash, k: nat)
    requires Stored(hs, bs) && Rooted(hs, b) && k <= hs[b].number <= k + 1
    ensures Chain(hs, Ancestor(hs, b, k))[hs[b].number := b] == Chain(hs, b)
    ensures BranchLookup(hs, bs, b, k) + Entries(bs[b], hs[b].number) == BranchLookup(hs, bs, b, hs[b].number)
  {
    if k < hs[b].number {
      ChainOfChild(hs, b);
      assert Ancestor(hs, b, k) == hs[b].parentHash;
    }
  }

  lemma ReadKept(d: Disk, b: Block, t: Hash)
    requires t in d.lookup && t !in b.txs && d.lookup[t] != b.header.number
    ensures ReadTransaction(HeadWritten(d, b), t) == ReadTransaction(d, t)
  {
  }

  /** An indexed transaction of the branch below `h` is not in the block `h` itself. */
  lemma IndexedBelow(hs: Headers, bs: Bodies, h: Hash, t: Hash)
    requires Stored(hs, bs) && Rooted(hs, h) && hs[h].number > 0 && NoTxTwice(hs, bs, h)
    requires t in BranchLookup(hs, bs, h, hs[h].number - 1)
    ensures t !in bs[h] && BranchLookup(hs, bs, h, hs[h].number - 1)[t] < hs[h].number
  {
    assert t in bs[h] <==> OnBranch(hs, bs, h, hs[h].number, t);
    LookupIsExact(hs, bs, h, hs[h].number - 1, t);
    var m: nat :| m <= hs[h].number - 1 && OnBranch(hs, bs, h, m, t);
  }

  lemma AllIndexedBelow(hs: Headers, bs: Bodies, h: Hash, lookup: map<Hash, nat>)
    requires Stored(hs, bs) && Rooted(hs, h) && hs[h].number > 0 && NoTxTwice(hs, bs, h)
    requires lookup == BranchLookup(hs, bs, h, hs[h].number - 1)
    ensures forall t :: t in lookup ==> t !in bs[h] && lookup[t] != hs[h].number
  {
    forall t | t in lookup
      ensures t !in bs[h] && lookup[t] != hs[h].number
    {
      IndexedBelow(hs, bs, h, t);
    }
  }

  /** A cached answer stays right when a block without indexed transactions is put on top. */
  lemma CacheKept(d: Disk, b: Block, cache: map<Hash, TxLookup>)
    requires forall t :: t in d.lookup ==> t !in b.txs && d.lookup[t] != b.header.number
    requires CacheCoherent(d, cache)
    ensures CacheCoherent(HeadWritten(d, b), cache)
  {
    forall t | t in cache
      ensures ReadTransaction(HeadWritten(d, b), t) == Some(cache[t])
    {
      assert ReadTransaction(d, t).Some?;
      ReadKept(d, b, t);
    }
  }

  /** Reading a transaction through both indexes finds its place on the canonical branch. */
  lemma ReadBack(d: Disk, h: Hash, t: Hash)
    requires Stored(d.headers, d.bodies) && Rooted(d.headers, h) && NoTxTwice(d.headers, d.bodies, h)
    requires d.canon == Chain(d.headers, h)
    requires d.lookup == BranchLookup(d.headers, d.bodies, h, d.headers[h].number)
    ensures ReadTransaction(d, t).Some? <==> exists n: nat :: OnBranch(d.headers, d.bodies, h, n, t)
    ensures ReadTransaction(d, t).Some? ==>
              var r := ReadTransaction(d, t).value;
              && OnBranch(d.headers, d.bodies, h, r.blockIndex, t)
              && r.blockHash == Ancestor(d.headers, h, r.blockIndex)
              && r.index < |d.bodies[r.blockHash]| && d.bodies[r.blockHash][r.index] == t
  {
    LookupIsExact(d.headers, d.bodies, h, d.headers[h].number, t);
    if t in d.lookup {
      var n: nat :| n <= d.headers[h].number && OnBranch(d.headers, d.bodies, h, n, t);
      assert d.lookup[t] == n && d.canon[n] == Ancestor(d.headers, h, n);
    }
  }

  // ------------------------------------------------------------------ batches

  lemma CommitThree(d: Disk, u: Write, v: Write, w: Write)
    ensures Commit(d, [u, v, w]) == Put(Put(Put(d, u), v), w)
  {
    CommitOne(d, [u, v], w);
    CommitOne(d, [u], v);
    CommitOne(d, [], u);
    assert [] + [u] == [u] && [u] + [v] == [u, v] && [u, v] + [w] == [u, v, w];
  }

  lemma EntriesStep(lookup: map<Hash, nat>, txs: seq<Hash>, i: nat, n: nat)
    requires i < |txs|
    ensures (lookup + Entries(txs[..i], n))[txs[i] := n] == lookup + Entries(txs[..i + 1], n)
  {
    assert txs[..i + 1] == txs[..i] + [txs[i]];
  }

  /** The batch that `writeHeadBlock` fills. */
  method HeadBatch(ghost d: Disk, block: Block) returns (batch: seq<Write>)
    ensures Commit(d, batch) == HeadWritten(d, block)
  {
    var h, n := block.header.hash, block.header.number;
    batch := [WriteHeadHeaderHash(h), WriteHeadFastBlockHash(h), WriteCanonicalHash(h, n)];
    CommitThree(d, batch[0], batch[1], batch[2]);
    ghost var base := Commit(d, batch);
    for i := 0 to |block.txs|
      invariant Commit(d, batch) == base.(lookup := d.lookup + Entries(block.txs[..i], n))
    {
      CommitOne(d, batch, WriteTxLookup(block.txs[i], n));
      EntriesStep(d.lookup, block.txs, i, n);
      batch := batch + [WriteTxLookup(block.txs[i], n)];
    }
    assert block.txs[..|block.txs|] == block.txs;
    CommitOne(d, batch, WriteHeadBlockHash(h));
    batch := batch + [WriteHeadBlockHash(h)];
  }

  lemma DroppedStep(deleted: seq<Hash>, reborn: seq<Hash>, i: nat)
    requires i < |deleted|
    ensures Dropped(deleted[..i + 1], reborn) ==
            Dropped(deleted[..i], reborn) + (if deleted[i] in reborn then {} else {deleted[i]})
  {
    assert deleted[..i + 1] == deleted[..i] + [deleted[i]];
  }

  /** The batch that ends `reorg`: it deletes the dropped lookup entries and every index entry
      above `number`, reading the index until the first gap. */
  method PruneBatch(d: Disk, deletedTxs: seq<Hash>, rebirthTxs: seq<Hash>, number: nat, ghost top: nat)
    returns (batch: seq<Write>)
    requires number <= top && forall n: nat :: n in d.canon <==> n <= top
    requires forall n :: n in d.canon ==> d.canon[n] != ZERO_HASH
    ensures Commit(d, batch) == Pruned(d, number, Dropped(deletedTxs, rebirthTxs))
  {
    batch := [];
    for i := 0 to |deletedTxs|
      invariant Commit(d, batch) == d.(lookup := d.lookup - Dropped(deletedTxs[..i], rebirthTxs))
    {
      DroppedStep(deletedTxs, rebirthTxs, i);
      if deletedTxs[i] !in rebirthTxs {
        CommitOne(d, batch, DeleteTxLookup(deletedTxs[i]));
        batch := batch + [DeleteTxLookup(deletedTxs[i])];
      }
    }
    assert deletedTxs[..|deletedTxs|] == deletedTxs;
    batch := DeleteCanonicalAbove(d, batch, number, top);
  }

  // ------------------------------------------------------------------ runs

  /** All blocks that will ever be offered, by hash. */
  datatype Universe = Universe(headers: Headers, bodies: Bodies)

  datatype Op =
    | Import(block: Block, setHead: bool)
    | MakeHead(hash: Hash)           // of a block that is stored already
    | Lookup(tx: Hash)
    | Forget(tx: Hash)

  /** What consensus validation guarantees: linked headers, and account nonces that keep a
      transaction from being included twice on one branch. */
  ghost predicate Consensus(u: Universe) {
    && Stored(u.headers, u.bodies)
    && (forall h :: Rooted(u.headers, h) ==> NoTxTwice(u.headers, u.bodies, h))
  }

  ghost predicate InUniverse(u: Universe, op: Op) {
    op.Import? ==>
      var h := op.block.header.hash;
      h in u.headers && u.headers[h] == op.block.header && h in u.bodies && u.bodies[h] == op.block.txs
  }

  /** A part of the universe inherits what consensus guarantees. */
  lemma SubUniverse(u: Universe, hs: Headers, bs: Bodies)
    requires Consensus(u)
    requires forall h :: h in hs ==>
               h in u.headers && u.headers[h] == hs[h] && h in bs && h in u.bodies && u.bodies[h] == bs[h]
    ensures Stored(hs, bs)
    ensures forall h :: Rooted(hs, h) ==> NoTxTwice(hs, bs, h)
  {
    forall h | Rooted(hs, h)
      ensures NoTxTwice(hs, bs, h)
    {
      AncestorInLargerStore(hs, u.headers, h, 0);
      forall t, n: nat
        ensures OnBranch(hs, bs, h, n, t) ==> OnBranch(u.headers, u.bodies, h, n, t)
      {
        if n <= hs[h].number {
          AncestorInLargerStore(hs, u.headers, h, n);
        }
      }
    }
  }

  // ------------------------------------------------------------------ the chain object

  class BlockChain {
    var disk: Disk
    var currentHeader: Header
    var currentHeaderHash: Hash
    var currentSnapBlock: Header
    var currentBlock: Header
    var txLookupCache: map<Hash, TxLookup>
    // The database states before `disk`, oldest first: what a crash could have left behind.
    ghost var commits: seq<Disk>

    /** The four in-memory head markers name one block. */
    ghost predicate MemoryMarkers(h: Header)
      reads this
    {
      currentHeader == currentSnapBlock == currentBlock == h && currentHeaderHash == h.hash
    }

    ghost predicate Valid()
      reads this
    {
      && Stored(disk.headers, disk.bodies)
      && Rooted(disk.headers, currentBlock.hash) && disk.headers[currentBlock.hash] == currentBlock
      && MemoryMarkers(currentBlock)
      && disk.headHeader == disk.headFast == disk.headBlock == currentBlock.hash
      && disk.canon == Chain(disk.headers, currentBlock.hash)
      && NoTxTwice(disk.headers, disk.bodies, currentBlock.hash)
      && disk.lookup == BranchLookup(disk.headers, disk.bodies, currentBlock.hash, currentBlock.number)
      && CacheCoherent(disk, txLookupCache)
    }

    /** A chain that holds nothing but its genesis block. */
    constructor (genesis: Block)
      requires genesis.header.number == 0 && genesis.header.hash != ZERO_HASH
      requires genesis.header.parentHash == ZERO_HASH && genesis.txs == []
      ensures Valid() && currentBlock == genesis.header
      ensures disk.headers == map[genesis.header.hash := genesis.header]
      ensures disk.bodies == map[genesis.header.hash := []]
    {
      var h := genesis.header.hash;
      disk := Disk(map[h := genesis.header], map[h := []], map[0 := h], map[], h, h, h);
      currentHeader, currentSnapBlock, currentBlock := genesis.header, genesis.header, genesis.header;
      currentHeaderHash := h;
      txLookupCache := map[];
      commits := [];
    }

    method WriteHeadBlock(block: Block)
      modifies this
      ensures disk == HeadWritten(old(disk), block)
      ensures MemoryMarkers(block.header)
      ensures txLookupCache == old(txLookupCache) && commits == old(commits) + [old(disk)]
    {
      var batch := HeadBatch(disk, block);
      commits := commits + [disk];
      disk := Commit(disk, batch);
      currentHeader, currentHeaderHash := block.header, block.header.hash;
      currentSnapBlock := block.header;
      currentBlock := block.header;
    }

    /** The transactions of the blocks `chain[lo..]`. */
    method CollectTransactions(chain: seq<Header>, lo: nat) returns (txs: seq<Hash>)
      requires forall i :: 0 <= i < |chain| ==> chain[i].hash in disk.bodies
      ensures forall t :: t in txs <==> InBlocks(disk.bodies, chain, lo, t)
    {
      txs := [];
      if lo >= |chain| {
        return;
      }
      for i := lo to |chain|
        invariant forall t :: t in txs <==> exists j :: lo <= j < i && t in disk.bodies[chain[j].hash]
      {
        txs := txs + disk.bodies[chain[i].hash];
      }
    }

    /** Writes the blocks of the new chain as heads, lowest first, except the new head itself. */
    method ApplyNewChain(newChain: seq<Header>)
      requires forall i :: 0 <= i < |newChain| ==> newChain[i].hash in disk.bodies
      modifies this
      ensures disk == HeadsWritten(old(disk), newChain, 1)
      ensures commits == old(commits) + HeadStates(old(disk), newChain, 1)
    {
      var i := |newChain| - 1;
      while i >= 1
        invariant i < |newChain| && (i < 0 ==> newChain == [])
        invariant disk == HeadsWritten(old(disk), newChain, if i < 0 then 0 else i + 1)
        invariant commits == old(commits) + HeadStates(old(disk), newChain, if i < 0 then 0 else i + 1)
      {
        HeadsWrittenFields(old(disk), newChain, i + 1);
        WriteHeadBlock(Block(newChain[i], disk.bodies[newChain[i].hash]));
        i := i - 1;
      }
    }

    /** The part of `Valid` that `reorg` relies on. */
    ghost predicate IndexesMatch()
      reads this
    {
      && Stored(disk.headers, disk.bodies)
      && Rooted(disk.headers, currentBlock.hash) && disk.headers[currentBlock.hash] == currentBlock
      && disk.headBlock == currentBlock.hash
      && disk.canon == Chain(disk.headers, currentBlock.hash)
      && NoTxTwice(disk.headers, disk.bodies, currentBlock.hash)
      && disk.lookup == BranchLookup(disk.headers, disk.bodies, currentBlock.hash, currentBlock.number)
    }

    /** The mutating part of `reorg`, for a head that shares the block `commonBlock`. */
    method SwitchBranch(newHead: Header, commonBlock: Header, oldChain: seq<Header>, newChain: seq<Header>)
      requires IndexesMatch()
      requires Rooted(disk.headers, newHead.hash) && disk.headers[newHead.hash] == newHead
      requires NoTxTwice(disk.headers, disk.bodies, newHead.hash)
      requires IsAncestor(disk.headers, commonBlock.hash, currentBlock.hash)
      requires IsAncestor(disk.headers, commonBlock.hash, newHead.hash)
      requires disk.headers[commonBlock.hash] == commonBlock
      requires IsSegment(disk.headers, currentBlock.hash, commonBlock.number, oldChain)
      requires IsSegment(disk.headers, newHead.hash, commonBlock.number, newChain)
      modifies this
      ensures disk.headers == old(disk).headers && disk.bodies == old(disk).bodies
      ensures var k := Below(disk.headers, newHead.hash, commonBlock.number);
              && disk.canon == Chain(disk.headers, Ancestor(disk.headers, newHead.hash, k))
              && disk.lookup == BranchLookup(disk.headers, disk.bodies, newHead.hash, k)
              && disk.headBlock == (if k > commonBlock.number then Ancestor(disk.headers, newHead.hash, k)
                                    else old(currentBlock).hash)
      ensures commits == old(commits) + HeadStates(old(disk), newChain, 1) + [HeadsWritten(old(disk), newChain, 1)]
      ensures txLookupCache == map[]
    {
      var deletedTxs := CollectTransactions(oldChain, 0);
      var rebirthTxs := CollectTransactions(newChain, 1);
      ghost var hs, c := disk.headers, commonBlock.number;
      DroppedAreOffBranch(hs, disk.bodies, currentBlock.hash, newHead.hash, c, oldChain, newChain, deletedTxs,
                          rebirthTxs);
      ReorgedIndex(disk, currentBlock.hash, newHead.hash, c, newChain, Dropped(deletedTxs, rebirthTxs));
      ReorgedLookup(disk, currentBlock.hash, newHead.hash, c, newChain, Dropped(deletedTxs, rebirthTxs));
      var number := commonBlock.number;
      if |newChain| > 1 {
        number := newChain[1].number;
      }
      ghost var top := if number > currentBlock.number then number else currentBlock.number;
      ApplyNewChain(newChain);
      var batch := PruneBatch(disk, deletedTxs, rebirthTxs, number, top);
      commits := commits + [disk];
      disk := Commit(disk, batch);
      txLookupCache := map[];
    }

    /** `reorg`: makes the branch below the new head canonical, but not the new head itself.
        It fails, changing nothing, exactly when the new head is not connected to the current
        branch. */
    method Reorg(newHead: Header) returns (r: Outcome, ghost common: Hash)
      requires IndexesMatch()
      requires newHead.hash in disk.headers && disk.headers[newHead.hash] == newHead
      requires Rooted(disk.headers, newHead.hash) ==> NoTxTwice(disk.headers, disk.bodies, newHead.hash)
      modifies this
      ensures disk.headers == old(disk).headers && disk.bodies == old(disk).bodies
      ensures r == InvalidNewChain <==> !Rooted(disk.headers, newHead.hash)
      ensures r == InvalidOldChain <==>
                Rooted(disk.headers, newHead.hash) && !SameRoot(disk.headers, old(currentBlock).hash, newHead.hash)
      ensures r != UnknownAncestor && (r != Accepted ==> unchanged(this))
      ensures r == Accepted ==>
                && HighestCommon(disk.headers, old(currentBlock).hash, newHead.hash, common)
                && var k := Below(disk.headers, newHead.hash, disk.headers[common].number);
                   && disk.canon == Chain(disk.headers, Ancestor(disk.headers, newHead.hash, k))
                   && disk.lookup == BranchLookup(disk.headers, disk.bodies, newHead.hash, k)
                   && disk.headBlock == (if k > disk.headers[common].number then Ancestor(disk.headers, newHead.hash, k)
                                         else old(currentBlock).hash)
      ensures r == Accepted ==> txLookupCache == map[] && old(commits) <= commits && AllCover(commits, |old(commits)|)
      ensures r == Accepted ==>
                (CoversHead(disk) <==>
                   newHead.number >= disk.headers[common].number + 2 || common == old(currentBlock).hash)
    {
      var oldChain, newChain, commonBlock;
      r, oldChain, newChain, commonBlock := FindCommon(disk.headers, currentBlock, newHead);
      common := commonBlock.hash;
      if r == Accepted {
        ghost var d, a, earlier := disk, currentBlock.hash, commits;
        SwitchBranch(newHead, commonBlock, oldChain, newChain);
        AllCrashPoints(d, disk, a, newHead.hash, commonBlock.number, newChain, earlier);
      }
    }

    /** The head-moving step that `SetCanonical`, `writeKnownBlock` and `writeBlockAndSetHead`
        share, for a stored block. It succeeds exactly when the block is connected to the
        branch of the current head, and then both indexes, the lookup cache and all seven head
        markers are those of the new branch. Otherwise nothing changes. On the way there, at every
        crash point, the persisted index covers the persisted head block, unless blocks are
        dropped and the new head is at most one block above the common ancestor. */
    method SetCanonical(head: Block) returns (r: Outcome, ghost common: Hash)
      requires Valid() && BlockStored(disk, head)
      requires Rooted(disk.headers, head.header.hash) ==> NoTxTwice(disk.headers, disk.bodies, head.header.hash)
      modifies this
      ensures disk.headers == old(disk).headers && disk.bodies == old(disk).bodies
      ensures r == Accepted <==>
                && Rooted(disk.headers, head.header.hash)
                && SameRoot(disk.headers, old(currentBlock).hash, head.header.hash)
      ensures r == Accepted ==> Valid() && currentBlock == head.header
      ensures r != UnknownAncestor && (r != Accepted ==> unchanged(this))
      ensures r == Accepted ==> HighestCommon(disk.headers, old(currentBlock).hash, head.header.hash, common)
      ensures r == Accepted ==>
                (AllCover(commits, |old(commits)|) <==>
                 head.header.number >= disk.headers[common].number + 2 || common == old(currentBlock).hash)
    {
      ghost var hs, bs, b := disk.headers, disk.bodies, head.header.hash;
      ghost var k := head.header.number;
      common := currentBlock.hash;
      if head.header.parentHash != currentBlock.hash {
        r, common := Reorg(head.header);
        if r != Accepted {
          return;
        }
        MeetAtRoot(hs, old(currentBlock).hash, b, common);
        k := Below(hs, b, hs[common].number);
      } else {
        r := Accepted;
        CoversOwnBranch(hs, common);
        k := k - 1;
        LookupOfAncestor(hs, bs, b, k, k);
        AncestorOfAncestor(hs, b, k, 0);
        AllIndexedBelow(hs, bs, b, disk.lookup);
        CacheKept(disk, head, txLookupCache);
      }
      CompleteWithHead(hs, bs, b, k);
      OneMoreCover(commits, disk, |old(commits)|);
      WriteHeadBlock(head);
    }

    /** Stores a block without touching the head (`writeBlockWithoutState`, and the block batch of
        `writeBlockWithState`). A block already stored is the same block. */
    method WriteBlock(block: Block)
      requires Valid()
      requires WellFormed(disk.headers[block.header.hash := block.header])
      requires block.header.hash in disk.headers ==> BlockStored(disk, block)
      modifies this`disk, this`commits
      ensures Valid() && BlockStored(disk, block)
      ensures disk == old(disk).(headers := old(disk).headers[block.header.hash := block.header],
                                 bodies := old(disk).bodies[block.header.hash := block.txs])
    {
      var h := block.header.hash;
      ghost var d := disk;
      commits := commits + [disk];
      disk := Commit(disk, [WriteHeader(block.header), WriteBody(h, block.txs)]);
      CommitTwo(d, WriteHeader(block.header), WriteBody(h, block.txs));
      StoredMore(d, disk, currentBlock.hash);
      CacheKeptByStoring(d, disk, txLookupCache, currentBlock.hash);
    }

    /** `writeBlockAndSetHead`: stores a block whose parent is known and makes it the head. */
    method WriteBlockAndSetHead(block: Block) returns (r: Outcome)
      requires Valid()
      requires WellFormed(disk.headers[block.header.hash := block.header])
      requires block.header.hash in disk.headers ==> BlockStored(disk, block)
      requires var hs := disk.headers[block.header.hash := block.header];
               var bs := disk.bodies[block.header.hash := block.txs];
               Rooted(hs, block.header.hash) ==> NoTxTwice(hs, bs, block.header.hash)
      modifies this
      ensures r == UnknownAncestor <==>
                GetHeader(old(disk).headers, block.header.parentHash, Prev(block.header.number)).None?
      ensures r == UnknownAncestor ==> unchanged(this)
      ensures r != UnknownAncestor ==>
                Valid() && BlockStored(disk, block) && Rooted(disk.headers, old(currentBlock).hash)
      ensures r != UnknownAncestor ==>
                && disk.headers == old(disk).headers[block.header.hash := block.header]
                && disk.bodies == old(disk).bodies[block.header.hash := block.txs]
      ensures currentBlock == if r == Accepted then block.header else old(currentBlock)
      ensures r != UnknownAncestor ==>
                (r == Accepted <==> Rooted(disk.headers, block.header.hash) &&
                                    SameRoot(disk.headers, old(currentBlock).hash, block.header.hash))
    {
      if GetHeader(disk.headers, block.header.parentHash, Prev(block.header.number)).None? {
        r := UnknownAncestor;
        return;
      }
      WriteBlock(block);
      ghost var common;
      r, common := SetCanonical(block);
    }

    /** `GetTransactionLookup`: answers from the cache, or from the database, which fills it.
        Either way the answer is the transaction's place on the canonical branch. */
    method GetTransactionLookup(t: Hash) returns (r: Option<TxLookup>)
      requires Valid()
      modifies this`txLookupCache
      ensures Valid()
      ensures r == ReadTransaction(disk, t)
      ensures r.Some? <==> exists n: nat :: OnBranch(disk.headers, disk.bodies, currentBlock.hash, n, t)
      ensures r.Some? ==> OnBranch(disk.headers, disk.bodies, currentBlock.hash, r.value.blockIndex, t)
                          && r.value.blockHash == Ancestor(disk.headers, currentBlock.hash, r.value.blockIndex)
                          && r.value.index < |disk.bodies[r.value.blockHash]|
                          && disk.bodies[r.value.blockHash][r.value.index] == t
    {
      ReadBack(disk, currentBlock.hash, t);
      if t in txLookupCache {
        return Some(txLookupCache[t]);
      }
      r := ReadTransaction(disk, t);
      if r.Some? {
        txLookupCache := txLookupCache[t := r.value];
      }
    }

    /** Everything stored comes from the universe of valid blocks. */
    ghost predicate Within(u: Universe)
      reads this
    {
      forall h :: h in disk.headers ==> h in u.headers && u.headers[h] == disk.headers[h]
                                        && h in disk.bodies && h in u.bodies && u.bodies[h] == disk.bodies[h]
    }

    /** The head is block `h` if that is connected to the branch of `before`, else it is `before`. */
    ghost predicate HeadFollows(hs: Headers, before: Header, h: Hash)
      requires WellFormed(hs)
      reads this
    {
      && Rooted(hs, before.hash)
      && if Rooted(hs, h) && SameRoot(hs, before.hash, h) then currentBlock.hash == h else currentBlock == before
    }

    /** One operation of a run. */
    method Apply(op: Op, ghost u: Universe)
      requires Valid() && Within(u) && Consensus(u) && InUniverse(u, op)
      modifies this
      ensures Valid() && Within(u)
      ensures op.Lookup? || op.Forget? ==> disk == old(disk) && currentBlock == old(currentBlock)
      ensures op.Import? && !op.setHead ==> currentBlock == old(currentBlock) && BlockStored(disk, op.block)
      ensures op.Import? && op.setHead ==>
                if GetHeader(old(disk).headers, op.block.header.parentHash, Prev(op.block.header.number)).None?
                then unchanged(this)
                else BlockStored(disk, op.block) && HeadFollows(disk.headers, old(currentBlock), op.block.header.hash)
      ensures op.MakeHead? ==> disk.headers == old(disk.headers) && disk.bodies == old(disk.bodies)
      ensures op.MakeHead? ==>
                if op.hash !in old(disk).headers then unchanged(this)
                else HeadFollows(disk.headers, old(currentBlock), op.hash)
    {
      match op
      case Import(block, setHead) =>
        SubUniverse(u, disk.headers[block.header.hash := block.header], disk.bodies[block.header.hash := block.txs]);
        if setHead {
          var r := WriteBlockAndSetHead(block);
        } else {
          WriteBlock(block);
        }
      case MakeHead(hash) =>
        if hash in disk.headers {
          SubUniverse(u, disk.headers, disk.bodies);
          var r, _ := SetCanonical(Block(disk.headers[hash], disk.bodies[hash]));
        }
      case Lookup(t) =>
        var r := GetTransactionLookup(t);
      case Forget(t) =>
        Evict(t);
    }

    /** Over every run of imports, with or without a change of head, of head changes to stored blocks,
        of lookups and of cache evictions, the chain stays valid. */
    method Run(ops: seq<Op>, ghost u: Universe)
      requires Valid() && Within(u) && Consensus(u)
      requires forall i :: 0 <= i < |ops| ==> InUniverse(u, ops[i])
      modifies this
      ensures Valid() && Within(u)
      ensures disk.canon == Chain(disk.headers, currentBlock.hash)
      ensures forall t ::
                t in disk.lookup <==> exists n: nat :: OnBranch(disk.headers, disk.bodies, currentBlock.hash, n, t)
      ensures forall t, n: nat :: OnBranch(disk.headers, disk.bodies, currentBlock.hash, n, t) ==> disk.lookup[t] == n
      ensures forall t :: t in txLookupCache ==> ReadTransaction(disk, t) == Some(txLookupCache[t])
    {
      for i := 0 to |ops|
        invariant Valid() && Within(u)
      {
        Apply(ops[i], u);
      }
      forall t
        ensures t in disk.lookup <==> exists n: nat :: OnBranch(disk.headers, disk.bodies, currentBlock.hash, n, t)
        ensures forall n: nat :: OnBranch(disk.headers, disk.bodies, currentBlock.hash, n, t) ==> disk.lookup[t] == n
      {
        LookupIsExact(disk.headers, disk.bodies, currentBlock.hash, currentBlock.number, t);
      }
    }

    /** The lookup cache is bounded: any entry may be dropped at any time. */
    method Evict(t: Hash)
      requires Valid()
      modifies this`txLookupCache
      ensures Valid() && txLookupCache == old(txLookupCache) - {t}
    {
      txLookupCache := txLookupCache - {t};
    }
  }

  lemma CommitTwo(d: Disk, u: Write, v: Write)
    ensures Commit(d, [u, v]) == Put(Put(d, u), v)
  {
    CommitOne(d, [u], v);
    CommitOne(d, [], u);
    assert [] + [u] == [u] && [u] + [v] == [u, v];
  }

  /** Storing more blocks changes neither index of a complete branch. */
  lemma {:induction false} LookupInLargerStore(hs: Headers, bs: Bodies, hs': Headers, bs': Bodies, h: Hash, k: nat)
    requires Stored(hs, bs) && Stored(hs', bs')
    requires forall x :: x in hs ==> x in hs' && hs'[x] == hs[x] && bs'[x] == bs[x]
    requires Rooted(hs, h) && Rooted(hs', h) && k <= hs[h].number
    ensures BranchLookup(hs', bs', h, k) == BranchLookup(hs, bs, h, k)
  {
    AncestorInLargerStore(hs, hs', h, k);
    if k > 0 {
      LookupInLargerStore(hs, bs, hs', bs', h, k - 1);
    }
  }

  lemma StoredMore(d: Disk, d': Disk, h: Hash)
    requires Stored(d.headers, d.bodies) && Stored(d'.headers, d'.bodies) && Rooted(d.headers, h)
    requires forall x :: x in d.headers ==>
               x in d'.headers && d'.headers[x] == d.headers[x] && d'.bodies[x] == d.bodies[x]
    ensures Rooted(d'.headers, h) && Chain(d'.headers, h) == Chain(d.headers, h)
    ensures BranchLookup(d'.headers, d'.bodies, h, d.headers[h].number)
            == BranchLookup(d.headers, d.bodies, h, d.headers[h].number)
    ensures NoTxTwice(d.headers, d.bodies, h) ==> NoTxTwice(d'.headers, d'.bodies, h)
  {
    ChainInLargerStore(d.headers, d'.headers, h);
    LookupInLargerStore(d.headers, d.bodies, d'.headers, d'.bodies, h, d.headers[h].number);
    forall t, n: nat
      ensures OnBranch(d'.headers, d'.bodies, h, n, t) <==> OnBranch(d.headers, d.bodies, h, n, t)
    {
      if n <= d.headers[h].number {
        AncestorInLargerStore(d.headers, d'.headers, h, n);
      }
    }
  }

  lemma CacheKeptByStoring(d: Disk, d': Disk, cache: map<Hash, TxLookup>, h: Hash)
    requires Stored(d.headers, d.bodies)
    requires forall x :: x in d.headers ==>
               x in d'.headers && d'.headers[x] == d.headers[x] && x in d'.bodies && d'.bodies[x] == d.bodies[x]
    requires d'.canon == d.canon && d'.lookup == d.lookup
    requires CacheCoherent(d, cache)
    ensures CacheCoherent(d', cache)
  {
    forall t | t in cache
      ensures ReadTransaction(d', t) == Some(cache[t])
    {
      assert ReadTransaction(d, t).Some?;
    }
  }

  lemma MeetAtRoot(hs: Headers, a: Hash, b: Hash, c: Hash)
    requires WellFormed(hs) && Rooted(hs, a) && Rooted(hs, b) && IsAncestor(hs, c, a) && IsAncestor(hs, c, b)
    ensures SameRoot(hs, a, b)
  {
    AgreeBelow(hs, a, b, hs[c].number, 0);
  }

  /** A store of empty blocks includes no transaction at all. */
  lemma NoTransactions(hs: Headers, bs: Bodies, h: Hash)
    requires Stored(hs, bs) && Rooted(hs, h) && forall x :: x in hs ==> bs[x] == []
    ensures NoTxTwice(hs, bs, h)
  {
  }

  /** Genesis and one child, without transactions. */
  lemma OneChild(g: Header, a: Header)
    requires g == Header(1, ZERO_HASH, 0, 0, 0) && a == Header(2, 1, 1, 0, 1)
    ensures var hs, bs := map[1 := g, 2 := a], map[1 := [], 2 := []];
            && Stored(hs, bs) && Rooted(hs, 2) && NoTxTwice(hs, bs, 2)
            && Ancestor(hs, 2, 0) == 1 && Ancestor(hs, 1, 0) == 1
  {
    NoTransactions(map[1 := g, 2 := a], map[1 := [], 2 := []], 2);
  }

  /** Genesis and two children, without transactions. */
  lemma TwoChildren(g: Header, a: Header, b: Header)
    requires g == Header(1, ZERO_HASH, 0, 0, 0) && a == Header(2, 1, 1, 0, 1) && b == Header(3, 1, 1, 0, 1)
    ensures var hs, bs := map[1 := g, 2 := a, 3 := b], map[1 := [], 2 := [], 3 := []];
            && Stored(hs, bs) && Rooted(hs, 2) && Rooted(hs, 3) && NoTxTwice(hs, bs, 3)
            && SameRoot(hs, 2, 3) && !IsAncestor(hs, 2, 3)
  {
    NoTransactions(map[1 := g, 2 := a, 3 := b], map[1 := [], 2 := [], 3 := []], 3);
  }

  /** A chain with two children of genesis, one of which is the head. */
  method Fork(g: Header, a: Header, b: Header) returns (bc: BlockChain)
    requires g == Header(1, ZERO_HASH, 0, 0, 0) && a == Header(2, 1, 1, 0, 1) && b == Header(3, 1, 1, 0, 1)
    ensures fresh(bc) && bc.Valid() && bc.currentBlock == a
    ensures bc.disk.headers == map[1 := g, 2 := a, 3 := b] && bc.disk.bodies == map[1 := [], 2 := [], 3 := []]
  {
    bc := new BlockChain(Block(g, []));
    OneChild(g, a);
    TwoChildren(g, a, b);
    assert bc.disk.headers[2 := a] == map[1 := g, 2 := a] && bc.disk.bodies[2 := []] == map[1 := [], 2 := []];
    var r := bc.WriteBlockAndSetHead(Block(a, []));
    assert bc.disk.headers[3 := b] == map[1 := g, 2 := a, 3 := b];
    assert bc.disk.bodies[3 := []] == map[1 := [], 2 := [], 3 := []];
    bc.WriteBlock(Block(b, []));
  }

  /** A head change with an uncovered crash point: from one child of genesis to the other. Between
      `reorg` and the write of the new head the persisted head block is the old child, which the
      persisted index no longer holds. */
  method UncoveredHead() returns (bc: BlockChain, ghost before: nat)
    ensures bc.Valid() && !AllCover(bc.commits, before)
  {
    var g, a, b := Header(1, ZERO_HASH, 0, 0, 0), Header(2, 1, 1, 0, 1), Header(3, 1, 1, 0, 1);
    bc := Fork(g, a, b);
    before := |bc.commits|;
    TwoChildren(g, a, b);
    ghost var common;
    var r;
    r, common := bc.SetCanonical(Block(b, []));
  }
}
