/**
 The BLOCKHASH lookup of a block (`GetHashFn` of core/evm.go): a closure over a reference
 header that remembers the ancestor hashes it has walked over.
 */
module BlockHash {
  import opened Basics
  import opened BlockTree

  /** The hash of the ancestor of `header` with number `n`, by following parent links from the
      header afresh; the zero hash when a header on the way is not stored. */
  function Walk(hs: Headers, header: Header, n: nat): Hash
    requires n < header.number
    decreases header.number
  {
    if n == header.number - 1 then header.parentHash
    else
      match GetHeader(hs, header.parentHash, header.number - 1)
      case None => ZERO_HASH
      case Some(parent) => Walk(hs, parent, n)
  }

  /** For a block whose ancestors are stored that is its ancestor. */
  lemma {:induction false} WalkIsAncestor(hs: Headers, header: Header, n: nat)
    requires WellFormed(hs) && Rooted(hs, header.hash) && hs[header.hash] == header && n < header.number
    ensures Walk(hs, header, n) == Ancestor(hs, header.hash, n)
    decreases header.number
  {
    if n < header.number - 1 {
      WalkIsAncestor(hs, hs[header.parentHash], n);
    }
  }

  /** Position `i` of the cache holds the parent hash of the stored header that position `i - 1`
      names; position 0 the parent hash of the reference header. */
  ghost predicate Linked(hs: Headers, ref: Header, cache: seq<Hash>, i: nat)
    requires i < |cache| <= ref.number
  {
    if i == 0 then cache[0] == ref.parentHash
    else
      var h := GetHeader(hs, cache[i - 1], ref.number - i);
      h.Some? && h.value.parentHash == cache[i]
  }

  /** The cache holds consecutive ancestor hashes. */
  ghost predicate Consecutive(hs: Headers, ref: Header, cache: seq<Hash>) {
    |cache| <= ref.number && forall i :: 0 <= i < |cache| ==> Linked(hs, ref, cache, i)
  }

  /** From any cached position the walk goes on as a fresh one would. */
  lemma {:induction false} WalkFromCache(hs: Headers, ref: Header, cache: seq<Hash>, i: nat, n: nat)
    requires Consecutive(hs, ref, cache) && i < |cache| && n < ref.number - 1 - i
    ensures Walk(hs, ref, n) == match GetHeader(hs, cache[i], ref.number - 1 - i)
                                case None => ZERO_HASH
                                case Some(header) => Walk(hs, header, n)
    decreases i
  {
    assert Linked(hs, ref, cache, i);
    if i > 0 {
      WalkFromCache(hs, ref, cache, i - 1, n);
    }
  }

  /** So every cached hash is the one a fresh walk finds. */
  lemma CachedIsFresh(hs: Headers, ref: Header, cache: seq<Hash>, i: nat)
    requires Consecutive(hs, ref, cache) && i < |cache|
    ensures cache[i] == Walk(hs, ref, ref.number - 1 - i)
  {
    assert Linked(hs, ref, cache, i);
    if i > 0 {
      WalkFromCache(hs, ref, cache, i - 1, ref.number - 1 - i);
    }
  }

  lemma OneMoreLink(hs: Headers, ref: Header, cache: seq<Hash>, header: Header)
    requires Consecutive(hs, ref, cache) && 0 < |cache| < ref.number
    requires GetHeader(hs, cache[|cache| - 1], ref.number - |cache|) == Some(header)
    ensures Consecutive(hs, ref, cache + [header.parentHash])
  {
    var longer := cache + [header.parentHash];
    forall i | 0 <= i < |longer| ensures Linked(hs, ref, longer, i) {
      if i < |cache| {
        assert Linked(hs, ref, cache, i);
      }
    }
  }

  class HashGetter {
    const ref: Header
    const hs: Headers
    var cache: seq<Hash>

    constructor (ref: Header, hs: Headers)
      ensures this.ref == ref && this.hs == hs && Valid()
    {
      this.ref, this.hs := ref, hs;
      cache := [];
    }

    ghost predicate Valid()
      reads this
    {
      Consecutive(hs, ref, cache)
    }

    /** The closure: whatever was asked before, the answer is that of a fresh walk. */
    method Query(n: nat) returns (hash: Hash)
      requires Valid()
      modifies this
      ensures Valid() && old(cache) <= cache
      ensures hash == if ref.number <= n then ZERO_HASH else Walk(hs, ref, n)
    {
      if ref.number <= n {
        return ZERO_HASH;
      }
      if |cache| == 0 {
        cache := cache + [ref.parentHash];
      }
      var idx := ref.number - n - 1;
      if idx < |cache| {
        CachedIsFresh(hs, ref, cache, idx);
        return cache[idx];
      }
      var lastKnownHash := cache[|cache| - 1];
      var lastKnownNumber := ref.number - |cache|;
      while true
        invariant Valid() && 0 < |cache| && old(cache) <= cache
        invariant lastKnownHash == cache[|cache| - 1] && n < lastKnownNumber == ref.number - |cache|
        decreases lastKnownNumber
      {
        WalkFromCache(hs, ref, cache, |cache| - 1, n);
        var header := GetHeader(hs, lastKnownHash, lastKnownNumber);
        if header.None? {
          break;
        }
        OneMoreLink(hs, ref, cache, header.value);
        cache := cache + [header.value.parentHash];
        lastKnownHash := header.value.parentHash;
        lastKnownNumber := header.value.number - 1;
        if n == lastKnownNumber {
          CachedIsFresh(hs, ref, cache, |cache| - 1);
          return lastKnownHash;
        }
      }
      return ZERO_HASH;
    }
  }
}
