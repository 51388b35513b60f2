/**
 The block tree: headers stored by hash, linked by parent hash.

 A hash is an opaque identifier and a header carries its own; `ZERO_HASH` is the empty
 hash that the database answers for "nothing stored". Everything the canonical index is
 compared with is defined here from parent links alone: `Ancestor` and `Chain` know
 nothing of the number-to-hash index.
 */
module BlockTree {
  import opened Basics

  type Hash = nat

  const ZERO_HASH: Hash := 0

  datatype Header = Header(hash: Hash, parentHash: Hash, number: nat, root: Hash, time: nat)

  type Headers = map<Hash, Header>

  /** What header verification and hashing guarantee of every stored header: it is filed
      under its own hash, its number fits below the largest uint64, it names a parent unless
      it is number 0, and it is one higher than its parent when that is stored too. */
  ghost predicate WellFormed(hs: Headers) {
    && ZERO_HASH !in hs
    && (forall h :: h in hs ==> hs[h].hash == h && hs[h].number < MAX_UINT64)
    && (forall h :: h in hs && hs[h].number > 0 ==> hs[h].parentHash != ZERO_HASH)
    && (forall h {:trigger hs[hs[h].parentHash]} :: h in hs && hs[h].parentHash in hs ==>
          hs[h].number == hs[hs[h].parentHash].number + 1)
  }

  /** `number - 1` on uint64. */
  function Prev(n: nat): nat {
    if n == 0 then MAX_UINT64 else n - 1
  }

  /** The header with this hash and number, if stored. */
  function GetHeader(hs: Headers, h: Hash, n: nat): Option<Header> {
    if h in hs && hs[h].number == n then Some(hs[h]) else None
  }

  /** Following parent links from `h` reaches block 0 without meeting a gap. */
  ghost predicate Rooted(hs: Headers, h: Hash)
    requires WellFormed(hs)
    decreases if h in hs then hs[h].number else 0
  {
    && h in hs
    && (hs[h].number > 0 ==> hs[h].parentHash in hs && Rooted(hs, hs[h].parentHash))
  }

  /** The ancestor of `h` at height `n`, by parent links. */
  ghost function Ancestor(hs: Headers, h: Hash, n: nat): (r: Hash)
    requires WellFormed(hs) && Rooted(hs, h) && n <= hs[h].number
    ensures r in hs && hs[r].number == n && Rooted(hs, r)
    decreases hs[h].number
  {
    if n == hs[h].number then h else Ancestor(hs, hs[h].parentHash, n)
  }

  /** The branch that ends in `h`, as a number-to-hash index. */
  ghost function Chain(hs: Headers, h: Hash): map<nat, Hash>
    requires WellFormed(hs) && Rooted(hs, h)
  {
    map n: nat | n <= hs[h].number :: Ancestor(hs, h, n)
  }

  /** `a` lies on the branch of `h` (possibly `h` itself). */
  ghost predicate IsAncestor(hs: Headers, a: Hash, h: Hash)
    requires WellFormed(hs) && Rooted(hs, h)
  {
    a in hs && hs[a].number <= hs[h].number && Ancestor(hs, h, hs[a].number) == a
  }

  lemma {:induction false} AncestorOfAncestor(hs: Headers, h: Hash, m: nat, n: nat)
    requires WellFormed(hs) && Rooted(hs, h) && n <= m <= hs[h].number
    ensures Ancestor(hs, Ancestor(hs, h, m), n) == Ancestor(hs, h, n)
    decreases hs[h].number
  {
    if m < hs[h].number {
      AncestorOfAncestor(hs, hs[h].parentHash, m, n);
    }
  }

  /** The parent of an ancestor is the ancestor one below. */
  lemma ParentOfAncestor(hs: Headers, h: Hash, m: nat)
    requires WellFormed(hs) && Rooted(hs, h) && 0 < m <= hs[h].number
    ensures hs[Ancestor(hs, h, m)].parentHash == Ancestor(hs, h, m - 1)
  {
    AncestorOfAncestor(hs, h, m, m - 1);
    var a := Ancestor(hs, h, m);
    assert Ancestor(hs, a, m - 1) == Ancestor(hs, hs[a].parentHash, m - 1) == hs[a].parentHash;
  }

  /** The branch of an ancestor is the lower part of the branch. */
  lemma ChainOfAncestor(hs: Headers, h: Hash, m: nat)
    requires WellFormed(hs) && Rooted(hs, h) && m <= hs[h].number
    ensures Chain(hs, Ancestor(hs, h, m)) == map n: nat | n <= m :: Ancestor(hs, h, n)
  {
    forall n: nat | n <= m
      ensures Ancestor(hs, Ancestor(hs, h, m), n) == Ancestor(hs, h, n)
    {
      AncestorOfAncestor(hs, h, m, n);
    }
  }

  /** A block's branch is its parent's branch with the block on top. */
  lemma ChainOfChild(hs: Headers, h: Hash)
    requires WellFormed(hs) && Rooted(hs, h) && hs[h].number > 0
    ensures Chain(hs, h) == Chain(hs, hs[h].parentHash)[hs[h].number := h]
  {
    var p := hs[h].parentHash;
    assert forall n: nat | n <= hs[p].number :: Ancestor(hs, h, n) == Ancestor(hs, p, n);
  }

  /** Storing more headers changes no branch that is already complete. */
  lemma {:induction false} AncestorInLargerStore(hs: Headers, hs': Headers, h: Hash, n: nat)
    requires WellFormed(hs) && WellFormed(hs')
    requires forall x :: x in hs ==> x in hs' && hs'[x] == hs[x]
    requires Rooted(hs, h) && n <= hs[h].number
    ensures Rooted(hs', h) && Ancestor(hs', h, n) == Ancestor(hs, h, n)
    decreases hs[h].number
  {
    if hs[h].number > 0 {
      AncestorInLargerStore(hs, hs', hs[h].parentHash, if n < hs[h].number then n else 0);
    }
  }

  lemma ChainInLargerStore(hs: Headers, hs': Headers, h: Hash)
    requires WellFormed(hs) && WellFormed(hs')
    requires forall x :: x in hs ==> x in hs' && hs'[x] == hs[x]
    requires Rooted(hs, h)
    ensures Rooted(hs', h) && Chain(hs', h) == Chain(hs, h)
  {
    AncestorInLargerStore(hs, hs', h, 0);
    forall n: nat | n <= hs[h].number
      ensures Ancestor(hs', h, n) == Ancestor(hs, h, n)
    {
      AncestorInLargerStore(hs, hs', h, n);
    }
  }

  /** Two branches that agree at one height agree everywhere below it. */
  lemma AgreeBelow(hs: Headers, a: Hash, b: Hash, m: nat, n: nat)
    requires WellFormed(hs) && Rooted(hs, a) && Rooted(hs, b)
    requires n <= m <= hs[a].number && m <= hs[b].number
    requires Ancestor(hs, a, m) == Ancestor(hs, b, m)
    ensures Ancestor(hs, a, n) == Ancestor(hs, b, n)
  {
    AncestorOfAncestor(hs, a, m, n);
    AncestorOfAncestor(hs, b, m, n);
  }

  /** `c` is the highest block on both branches. */
  ghost predicate HighestCommon(hs: Headers, a: Hash, b: Hash, c: Hash)
    requires WellFormed(hs) && Rooted(hs, a) && Rooted(hs, b)
  {
    && IsAncestor(hs, c, a)
    && IsAncestor(hs, c, b)
    && (forall x :: IsAncestor(hs, x, a) && IsAncestor(hs, x, b) ==> hs[x].number <= hs[c].number)
  }

  /** The two branches grow from the same block 0. */
  ghost predicate SameRoot(hs: Headers, a: Hash, b: Hash)
    requires WellFormed(hs) && Rooted(hs, a) && Rooted(hs, b)
  {
    Ancestor(hs, a, 0) == Ancestor(hs, b, 0)
  }

  /** `seg` lists the blocks of the branch of `h` above height `c`, highest first. */
  ghost predicate IsSegment(hs: Headers, h: Hash, c: nat, seg: seq<Header>)
    requires WellFormed(hs) && Rooted(hs, h)
  {
    && c <= hs[h].number
    && |seg| == hs[h].number - c
    && (forall i :: 0 <= i < |seg| ==> seg[i] == hs[Ancestor(hs, h, hs[h].number - i)])
  }

  /** A walk that started at `h` has listed `seg` and stands at `cur`. The walk does not
      know whether the branch is complete below. */
  ghost predicate WalkedTo(hs: Headers, h: Hash, cur: Header, seg: seq<Header>)
    requires WellFormed(hs)
  {
    && h in hs && cur.hash in hs && hs[cur.hash] == cur
    && cur.number <= hs[h].number
    && (Rooted(hs, h) <==> Rooted(hs, cur.hash))
    && (Rooted(hs, h) ==> IsAncestor(hs, cur.hash, h) && IsSegment(hs, h, cur.number, seg))
  }

  lemma WalkOn(hs: Headers, h: Hash, cur: Header, seg: seq<Header>)
    requires WellFormed(hs) && WalkedTo(hs, h, cur, seg)
    ensures cur.number > 0 && cur.parentHash !in hs ==> !Rooted(hs, h)
    ensures cur.number == 0 ==> Rooted(hs, h) && GetHeader(hs, cur.parentHash, Prev(cur.number)).None?
    ensures cur.number > 0 && cur.parentHash in hs ==> WalkedTo(hs, h, hs[cur.parentHash], seg + [cur])
  {
    if cur.number > 0 && cur.parentHash in hs && Rooted(hs, h) {
      ParentOfAncestor(hs, h, cur.number);
    }
  }
}
