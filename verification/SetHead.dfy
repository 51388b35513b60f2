/**
 `setHead` of core/headerchain.go with the callbacks of `setHeadBeyondRoot` in
 core/blockchain.go: rewinding the chain while every intermediate database state stays usable.
 */
module HeadRewind {
  import opened Basics
  import opened BlockTree
  import opened Rawdb
  import opened StateRewind

  /** The key-value store and the freezer, which holds the canonical headers below its length. */
  datatype ChainDb = ChainDb(kv: Disk, ancient: seq<Header>)

  function FrozenHeaders(ancient: seq<Header>): Headers {
    if ancient == [] then map[]
    else var last := ancient[|ancient| - 1];
         FrozenHeaders(ancient[..|ancient| - 1])[last.hash := last]
  }

  /** All headers that a read by hash can find. */
  function View(db: ChainDb): Headers {
    FrozenHeaders(db.ancient) + db.kv.headers
  }

  function ReadCanonical(db: ChainDb, n: nat): Hash {
    if n < |db.ancient| then db.ancient[n].hash else ReadCanonicalHash(db.kv, n)
  }

  /** All hashes that the key-value store holds at height `n`. */
  function ReadAllHashes(stored: Headers, n: nat): set<Hash> {
    set h | h in stored && stored[h].number == n
  }

  // ------------------------------------------------------------------ what must hold

  /** `x` names a stored header on the complete branch of the persisted header head. */
  ghost predicate Usable(db: ChainDb, x: Hash) {
    var hs := View(db);
    WellFormed(hs) && Rooted(hs, db.kv.headHeader) && IsAncestor(hs, x, db.kv.headHeader)
  }

  /** The three persisted head markers name stored headers on one complete branch, with the
      block and snap heads no higher than the header head. */
  ghost predicate MarkersOk(db: ChainDb) {
    Usable(db, db.kv.headBlock) && Usable(db, db.kv.headFast)
  }

  /** The index, read through the freezer, is exactly the branch of `h`. */
  ghost predicate CanonExact(db: ChainDb, h: Hash)
    requires WellFormed(View(db)) && Rooted(View(db), h)
  {
    forall n: nat {:trigger ReadCanonical(db, n)} ::
      ReadCanonical(db, n) == if n <= View(db)[h].number then Ancestor(View(db), h, n) else ZERO_HASH
  }

  /** Frozen headers are filed by number, and are what a read by hash finds. */
  ghost predicate WellFrozen(db: ChainDb) {
    && WellFormed(View(db))
    && (forall i {:trigger db.ancient[i]} :: 0 <= i < |db.ancient| ==>
          var x := db.ancient[i]; x.number == i && x.hash in View(db) && View(db)[x.hash] == x)
  }

  /** Every hash that the freezer knows has a position. */
  lemma {:induction false} FrozenIndex(ancient: seq<Header>, h: Hash) returns (i: nat)
    requires h in FrozenHeaders(ancient)
    ensures i < |ancient| && ancient[i].hash == h && FrozenHeaders(ancient)[h] == ancient[i]
  {
    i := |ancient| - 1;
    if ancient[i].hash != h {
      i := FrozenIndex(ancient[..|ancient| - 1], h);
    }
  }

  /** Every position of the freezer is known by its hash. */
  lemma {:induction false} FrozenHas(ancient: seq<Header>, i: nat)
    requires forall i, j :: 0 <= i < j < |ancient| ==> ancient[i].hash != ancient[j].hash
    requires i < |ancient|
    ensures ancient[i].hash in FrozenHeaders(ancient) && FrozenHeaders(ancient)[ancient[i].hash] == ancient[i]
  {
    if i < |ancient| - 1 {
      FrozenHas(ancient[..|ancient| - 1], i);
    }
  }

  /** Frozen headers have distinct hashes. */
  lemma FrozenDistinct(db: ChainDb)
    requires WellFrozen(db)
    ensures forall i, j :: 0 <= i < j < |db.ancient| ==> db.ancient[i].hash != db.ancient[j].hash
  {
  }

  /** `x` is a stored block of the branch of `h`. */
  ghost predicate OnBranch(hs: Headers, x: Header, h: Header)
    requires WellFormed(hs) && Rooted(hs, h.hash)
  {
    IsAncestor(hs, x.hash, h.hash) && hs[x.hash] == x
  }

  /** Verified headers have later timestamps than their parents. */
  ghost predicate TimesGrow(hs: Headers) {
    forall h {:trigger hs[hs[h].parentHash]} :: h in hs && hs[h].parentHash in hs ==>
      hs[hs[h].parentHash].time < hs[h].time
  }

  lemma {:induction false} OlderIsEarlier(hs: Headers, h: Hash, n: nat)
    requires WellFormed(hs) && TimesGrow(hs) && Rooted(hs, h) && n <= hs[h].number
    ensures hs[Ancestor(hs, h, n)].time <= hs[h].time
    decreases hs[h].number
  {
    if n < hs[h].number {
      OlderIsEarlier(hs, hs[h].parentHash, n);
    }
  }

  // ------------------------------------------------------------------ deletions

  /** `small` keeps every header of `hs` up to height `lo` and adds nothing. */
  ghost predicate KeepsBelow(hs: Headers, small: Headers, lo: nat) {
    && (forall h :: h in small ==> h in hs && small[h] == hs[h])
    && (forall h :: h in hs && hs[h].number <= lo ==> h in small)
  }

  lemma {:induction false} AncestorKept(hs: Headers, small: Headers, lo: nat, h: Hash, n: nat)
    requires WellFormed(hs) && WellFormed(small) && KeepsBelow(hs, small, lo)
    requires Rooted(hs, h) && n <= hs[h].number <= lo
    ensures Rooted(small, h) && Ancestor(small, h, n) == Ancestor(hs, h, n)
    decreases hs[h].number
  {
    if hs[h].number > 0 {
      AncestorKept(hs, small, lo, hs[h].parentHash, if n < hs[h].number then n else 0);
    }
  }

  /** What a deletion batch stands for: the heights up to `hi`, and the headers, bodies and index
      entries that it deletes. */
  datatype Queue = Queue(hi: nat, hashes: set<Hash>, bodies: set<Hash>, numbers: set<nat>)

  /** A batch that only deletes: these headers, these bodies and these index entries. */
  ghost predicate Deletes(batch: seq<Write>, q: Queue) {
    && (forall i :: 0 <= i < |batch| ==>
          match batch[i]
          case DeleteHeader(h) => h in q.hashes
          case DeleteBody(h) => h in q.bodies
          case DeleteCanonicalHash(n) => n in q.numbers
          case _ => false)
    && (forall h :: h in q.hashes ==> DeleteHeader(h) in batch)
    && (forall h :: h in q.bodies ==> DeleteBody(h) in batch)
    && (forall n :: n in q.numbers ==> DeleteCanonicalHash(n) in batch)
  }

  /** What a batch of deletions does, entry by entry. */
  lemma {:induction false} CommitDeletes(d: Disk, batch: seq<Write>)
    requires forall i :: 0 <= i < |batch| ==>
               batch[i].DeleteHeader? || batch[i].DeleteBody? || batch[i].DeleteCanonicalHash?
    ensures var r := Commit(d, batch);
            && r.lookup == d.lookup && r.headHeader == d.headHeader
            && r.headFast == d.headFast && r.headBlock == d.headBlock
            && (forall h :: h in r.headers <==> h in d.headers && DeleteHeader(h) !in batch)
            && (forall h :: h in r.headers ==> r.headers[h] == d.headers[h])
            && (forall n :: n in r.canon <==> n in d.canon && DeleteCanonicalHash(n) !in batch)
            && (forall n :: n in r.canon ==> r.canon[n] == d.canon[n])
            && (forall h :: h in r.bodies <==> h in d.bodies && DeleteBody(h) !in batch)
            && (forall h :: h in r.bodies ==> r.bodies[h] == d.bodies[h])
  {
    if batch != [] {
      var prefix, w := batch[..|batch| - 1], batch[|batch| - 1];
      CommitDeletes(d, prefix);
      assert batch == prefix + [w];
      CommitOne(d, prefix, w);
    }
  }

  /** `kv` is what is left of the key-value store when `hashes` are deleted, which are stored at
      heights above `lo` up to `hi`. */
  ghost predicate Thinned(db: ChainDb, kv: Disk, lo: nat, hi: nat, hashes: set<Hash>) {
    && (forall x :: x in kv.headers <==> x in db.kv.headers && x !in hashes)
    && (forall x :: x in kv.headers ==> kv.headers[x] == db.kv.headers[x])
    && (forall x :: x in hashes && x in View(db) ==> lo < View(db)[x].number <= hi)
    && (forall x :: x in db.kv.headers && lo < db.kv.headers[x].number <= hi ==> x in hashes)
  }

  /** Deleting headers and truncating the freezer adds and changes nothing. */
  lemma ThinnedAddsNothing(db: ChainDb, kv: Disk, keep: nat, lo: nat, hi: nat, hashes: set<Hash>, h: Hash)
    requires WellFrozen(db) && keep <= |db.ancient| && Thinned(db, kv, lo, hi, hashes)
    requires h in View(ChainDb(kv, db.ancient[..keep]))
    ensures h in View(db) && View(ChainDb(kv, db.ancient[..keep]))[h] == View(db)[h]
  {
    if h !in kv.headers {
      var i := FrozenIndex(db.ancient[..keep], h);
      assert db.ancient[i].hash == h;
    }
  }

  /** It keeps everything up to height `lo`. */
  lemma ThinnedKeeps(db: ChainDb, kv: Disk, keep: nat, lo: nat, hi: nat, hashes: set<Hash>, h: Hash)
    requires WellFrozen(db) && keep <= |db.ancient| && Thinned(db, kv, lo, hi, hashes)
    requires keep == |db.ancient| || keep == lo + 1
    requires h in View(db) && View(db)[h].number <= lo
    ensures h in View(ChainDb(kv, db.ancient[..keep]))
  {
    if h !in db.kv.headers {
      var i := FrozenIndex(db.ancient, h);
      FrozenDistinct(db);
      FrozenHas(db.ancient[..keep], i);
    }
  }

  /** With the freezer cut at `lo` it drops everything above, up to height `hi`. */
  lemma ThinnedDrops(db: ChainDb, kv: Disk, keep: nat, lo: nat, hi: nat, hashes: set<Hash>, h: Hash)
    requires WellFrozen(db) && keep <= |db.ancient| && Thinned(db, kv, lo, hi, hashes) && keep <= lo + 1
    requires h in View(ChainDb(kv, db.ancient[..keep]))
    ensures !(lo < View(ChainDb(kv, db.ancient[..keep]))[h].number <= hi)
  {
    if h !in kv.headers {
      var i := FrozenIndex(db.ancient[..keep], h);
    }
  }

  /** Removing headers from a well-formed store leaves a well-formed one. */
  lemma SubStore(hs: Headers, small: Headers)
    requires WellFormed(hs) && TimesGrow(hs)
    requires forall h :: h in small ==> h in hs && small[h] == hs[h]
    ensures WellFormed(small) && TimesGrow(small)
  {
  }

  /** The batch deletes every index entry above height `lo` up to `q.hi`, every header that the
      key-value store holds at these heights, the bodies of those that are not frozen, and nothing
      at or below `lo`. */
  ghost predicate Queued(db: ChainDb, batch: seq<Write>, lo: nat, q: Queue) {
    && Deletes(batch, q)
    && (forall n :: n in q.numbers <==> lo < n <= q.hi)
    && (forall h :: h in q.hashes && h in View(db) ==> lo < View(db)[h].number <= q.hi)
    && (forall h :: h in db.kv.headers && lo < db.kv.headers[h].number <= q.hi ==> h in q.hashes)
    && q.bodies == Unfrozen(db, lo, q.hi)
  }

  /** The blocks of the key-value store above height `lo` up to `hi` that the freezer does not reach. */
  ghost function Unfrozen(db: ChainDb, lo: nat, hi: nat): set<Hash> {
    set h | h in db.kv.headers && lo < db.kv.headers[h].number <= hi && |db.ancient| <= db.kv.headers[h].number
  }

  /** What is left of the database after the deletions, with `keep` frozen headers left. */
  function Flushed(db: ChainDb, batch: seq<Write>, keep: nat): ChainDb
    requires keep <= |db.ancient|
  {
    ChainDb(Commit(db.kv, batch), db.ancient[..keep])
  }

  lemma FlushedView(db: ChainDb, batch: seq<Write>, keep: nat, lo: nat, q: Queue)
    requires WellFrozen(db) && TimesGrow(View(db)) && Queued(db, batch, lo, q)
    requires keep <= |db.ancient| && (keep == |db.ancient| || keep == lo + 1)
    ensures var small := View(Flushed(db, batch, keep));
            && WellFormed(small) && TimesGrow(small) && KeepsBelow(View(db), small, lo)
            && (keep <= lo + 1 ==> forall h :: h in small ==> !(lo < small[h].number <= q.hi))
  {
    var kv := Commit(db.kv, batch);
    CommitDeletes(db.kv, batch);
    forall x ensures x in kv.headers <==> x in db.kv.headers && x !in q.hashes {
      assert DeleteHeader(x) in batch <==> x in q.hashes;
    }
    assert Thinned(db, kv, lo, q.hi, q.hashes);
    var small := View(Flushed(db, batch, keep));
    forall h | h in small ensures h in View(db) && small[h] == View(db)[h] {
      ThinnedAddsNothing(db, kv, keep, lo, q.hi, q.hashes, h);
    }
    forall h | h in View(db) && View(db)[h].number <= lo ensures h in small {
      ThinnedKeeps(db, kv, keep, lo, q.hi, q.hashes, h);
    }
    forall h | keep <= lo + 1 && h in small ensures !(lo < small[h].number <= q.hi) {
      ThinnedDrops(db, kv, keep, lo, q.hi, q.hashes, h);
    }
    SubStore(View(db), small);
  }

  /** The index read through the freezer is exactly the branch of `head`, and nothing is filed
      above it. */
  ghost predicate ExactUpTo(db: ChainDb, head: Header) {
    && WellFrozen(db) && TimesGrow(View(db))
    && Rooted(View(db), head.hash) && View(db)[head.hash] == head
    && CanonExact(db, head.hash)
    && (forall n :: n in db.kv.canon ==> n <= head.number) && |db.ancient| <= head.number + 1
  }

  /** One index entry after deletions and truncation. */
  lemma FlushedEntry(db: ChainDb, batch: seq<Write>, keep: nat, lo: nat, q: Queue, n: nat)
    requires Queued(db, batch, lo, q)
    requires keep <= |db.ancient| && keep == (if lo + 1 < |db.ancient| then lo + 1 else |db.ancient|)
    requires forall k :: k in db.kv.canon ==> k <= q.hi
    ensures ReadCanonical(Flushed(db, batch, keep), n) == if n <= lo then ReadCanonical(db, n) else ZERO_HASH
    ensures n in Flushed(db, batch, keep).kv.canon ==> n <= lo
  {
    CommitDeletes(db.kv, batch);
    assert DeleteCanonicalHash(n) in batch <==> n in q.numbers;
  }

  /** After deletions and truncation the index is the branch of the new head, with nothing
      above it. */
  lemma FlushedIndex(db: ChainDb, batch: seq<Write>, keep: nat, head: Header, h: Header, q: Queue)
    requires WellFrozen(db) && TimesGrow(View(db)) && Queued(db, batch, h.number, q)
    requires keep <= |db.ancient| && keep == (if h.number + 1 < |db.ancient| then h.number + 1 else |db.ancient|)
    requires Rooted(View(db), head.hash) && OnBranch(View(db), head, head) && CanonExact(db, head.hash)
    requires OnBranch(View(db), h, head) && head.number <= q.hi
    requires forall n :: n in db.kv.canon ==> n <= head.number
    ensures var small := Flushed(db, batch, keep);
            && WellFormed(View(small)) && Rooted(View(small), h.hash) && View(small)[h.hash] == h
            && CanonExact(small, h.hash) && (forall n :: n in small.kv.canon ==> n <= h.number)
  {
    var hs, small := View(db), Flushed(db, batch, keep);
    FlushedView(db, batch, keep, h.number, q);
    AncestorOfAncestor(hs, head.hash, h.number, 0);
    AncestorKept(hs, View(small), h.number, h.hash, 0);
    forall n: nat
      ensures ReadCanonical(small, n) == if n <= h.number then Ancestor(View(small), h.hash, n) else ZERO_HASH
      ensures n in small.kv.canon ==> n <= h.number
    {
      FlushedEntry(db, batch, keep, h.number, q, n);
      if n <= h.number {
        AncestorKept(hs, View(small), h.number, h.hash, n);
        AncestorOfAncestor(hs, head.hash, h.number, n);
      }
    }
  }

  lemma FlushedFreezer(db: ChainDb, batch: seq<Write>, keep: nat)
    requires WellFrozen(db) && keep <= |db.ancient| && WellFormed(View(Flushed(db, batch, keep)))
    requires forall i :: 0 <= i < |batch| ==>
               batch[i].DeleteHeader? || batch[i].DeleteBody? || batch[i].DeleteCanonicalHash?
    ensures WellFrozen(Flushed(db, batch, keep))
  {
    CommitDeletes(db.kv, batch);
    FrozenDistinct(db);
    var small := Flushed(db, batch, keep);
    forall i | 0 <= i < |small.ancient|
      ensures var x := small.ancient[i]; x.number == i && x.hash in View(small) && View(small)[x.hash] == x
    {
      var x := db.ancient[i];
      FrozenHas(small.ancient, i);
      assert x.hash in small.kv.headers ==>
          x.hash in db.kv.headers && small.kv.headers[x.hash] == db.kv.headers[x.hash];
    }
  }

  /** How many frozen headers a rewind to height `lo` leaves. */
  function Keep(db: ChainDb, lo: nat): nat {
    if lo + 1 < |db.ancient| then lo + 1 else |db.ancient|
  }

  lemma FlushedExact(db: ChainDb, batch: seq<Write>, head: Header, h: Header, q: Queue)
    requires ExactUpTo(db, head) && OnBranch(View(db), h, head) && head.number <= q.hi
    requires Queued(db, batch, h.number, q)
    ensures ExactUpTo(Flushed(db, batch, Keep(db, h.number)), h)
  {
    var keep := Keep(db, h.number);
    FlushedView(db, batch, keep, h.number, q);
    FlushedIndex(db, batch, keep, head, h, q);
    FlushedFreezer(db, batch, keep);
  }

  /** A block of the branch at or below the new head is still there, on the branch. */
  lemma FlushedBranch(db: ChainDb, batch: seq<Write>, keep: nat, h: Header, x: Header, q: Queue)
    requires WellFrozen(db) && TimesGrow(View(db)) && Rooted(View(db), h.hash) && OnBranch(View(db), h, h)
    requires OnBranch(View(db), x, h)
    requires keep <= |db.ancient| && (keep == |db.ancient| || keep == h.number + 1)
    requires Queued(db, batch, h.number, q)
    ensures var small := View(Flushed(db, batch, keep));
            WellFormed(small) && Rooted(small, h.hash) && OnBranch(small, x, h)
  {
    FlushedView(db, batch, keep, h.number, q);
    AncestorKept(View(db), View(Flushed(db, batch, keep)), h.number, h.hash, x.number);
  }

  /** Queues the deletion of one block: its header, and its body unless that is frozen. */
  method QueueBlock(pending: seq<Write>, frozen: bool, h: Hash, ghost q0: Queue)
    returns (batch: seq<Write>, ghost q: Queue)
    requires Deletes(pending, q0)
    ensures Deletes(batch, q)
    ensures q == q0.(hashes := q0.hashes + {h}, bodies := q0.bodies + if frozen then {} else {h})
  {
    batch, q := pending, q0;
    if !frozen {
      batch, q := batch + [DeleteBody(h)], q.(bodies := q.bodies + {h});
    }
    batch, q := batch + [DeleteHeader(h)], q.(hashes := q.hashes + {h});
  }

  /** Queues the deletion of everything stored at height `num`. */
  method QueueHeight(stored: Headers, frozen: nat, pending: seq<Write>, num: nat, hdr: Hash, ghost q0: Queue)
    returns (batch: seq<Write>, ghost q: Queue)
    requires Deletes(pending, q0)
    ensures Deletes(batch, q) && q.hi == q0.hi && q.numbers == q0.numbers + {num}
    ensures q.hashes == q0.hashes + (if ReadAllHashes(stored, num) == {} then {hdr} else ReadAllHashes(stored, num))
    ensures ReadAllHashes(stored, num) != {} || num < frozen ==>
              q.bodies == q0.bodies + (if num < frozen then {} else ReadAllHashes(stored, num))
  {
    batch, q := pending, q0;
    var all := ReadAllHashes(stored, num);
    if all == {} {
      all := {hdr};
    }
    var rest := all;
    while rest != {}
      invariant rest <= all && Deletes(batch, q) && q.hi == q0.hi && q.numbers == q0.numbers
      invariant q.hashes == q0.hashes + (all - rest)
      invariant q.bodies == q0.bodies + (if num < frozen then {} else all - rest)
      decreases rest
    {
      var h :| h in rest;
      batch, q := QueueBlock(batch, num + 1 <= frozen, h, q);
      rest := rest - {h};
    }
    batch, q := batch + [DeleteCanonicalHash(num)], q.(numbers := q.numbers + {num});
  }

  /** Something is stored at every height above `num` up to `top`, and nothing at the next. */
  ghost predicate LeftoversUpTo(stored: Headers, num: nat, top: nat) {
    && num <= top && ReadAllHashes(stored, top + 1) == {}
    && (forall n :: num < n <= top ==> ReadAllHashes(stored, n) != {})
  }

  /** The last of the consecutive heights above `num` at which something is stored. */
  method HighestLeftover(stored: Headers, num: nat) returns (top: nat)
    ensures LeftoversUpTo(stored, num, top)
  {
    top := num;
    while ReadAllHashes(stored, top + 1) != {}
      invariant num <= top && forall n :: num < n <= top ==> ReadAllHashes(stored, n) != {}
      decreases set x | x in stored && stored[x].number > top
    {
      var h :| h in ReadAllHashes(stored, top + 1);
      ghost var above := set x | x in stored && stored[x].number > top;
      assert h in above;
      top := top + 1;
      assert (set x | x in stored && stored[x].number > top) <= above - {h};
    }
  }

  /** Queues the deletion of everything stored at heights `num` to `hi`, highest first. */
  method QueueRange(stored: Headers, frozen: nat, pending: seq<Write>, num: nat, hi: nat, hdr: Hash, ghost q0: Queue)
    returns (batch: seq<Write>, ghost q: Queue)
    requires num <= hi && Deletes(pending, q0)
    requires forall n :: num < n <= hi ==> ReadAllHashes(stored, n) != {}
    requires ReadAllHashes(stored, num) != {} || num < frozen
    ensures Deletes(batch, q) && q.hi == q0.hi && q0.hashes <= q.hashes
    ensures forall h :: h in q.bodies <==>
              h in q0.bodies || (h in stored && num <= stored[h].number <= hi && frozen <= stored[h].number)
    ensures forall n :: n in q.numbers <==> n in q0.numbers || num <= n <= hi
    ensures forall h :: h in stored && num <= stored[h].number <= hi ==> h in q.hashes
    ensures forall h :: h in q.hashes && h !in q0.hashes ==> h == hdr || (h in stored && num <= stored[h].number <= hi)
  {
    batch, q := pending, q0;
    var n := hi + 1;
    while n > num
      invariant num <= n <= hi + 1 && Deletes(batch, q) && q.hi == q0.hi && q0.hashes <= q.hashes
      invariant forall k :: k in q.numbers <==> k in q0.numbers || n <= k <= hi
      invariant forall h :: h in q.bodies <==>
                  h in q0.bodies || (h in stored && n <= stored[h].number <= hi && frozen <= stored[h].number)
      invariant forall h :: h in stored && n <= stored[h].number <= hi ==> h in q.hashes
      invariant forall h :: h in q.hashes && h !in q0.hashes ==>
                  h == hdr || (h in stored && n <= stored[h].number <= hi)
    {
      n := n - 1;
      batch, q := QueueHeight(stored, frozen, batch, n, hdr, q);
    }
  }

  /** A header that can be read is stored in the key-value store or frozen. */
  lemma StoredOrFrozen(db: ChainDb, hdr: Header)
    requires WellFrozen(db) && hdr.hash in View(db) && View(db)[hdr.hash] == hdr
    ensures hdr.hash in ReadAllHashes(db.kv.headers, hdr.number) || hdr.number < |db.ancient|
  {
    if hdr.hash !in db.kv.headers {
      var i := FrozenIndex(db.ancient, hdr.hash);
    }
  }

  /** The deletions of one round of the rewind, which removes height `hdr.number` and, in the
      first round, whatever lies above it. */
  method QueueRound(stored: Headers, frozen: nat, pending: seq<Write>, origin: bool, hdr: Header, ghost db: ChainDb,
                    ghost q0: Queue)
    returns (batch: seq<Write>, ghost q: Queue)
    requires WellFrozen(db) && stored == db.kv.headers && hdr.hash in View(db) && View(db)[hdr.hash] == hdr
    requires 0 < hdr.number <= q0.hi
    requires Queued(db, pending, hdr.number, q0) && (origin ==> q0.hi == hdr.number) && frozen == |db.ancient|
    ensures q0.hi <= q.hi && Queued(db, batch, hdr.number - 1, q)
    ensures if origin then LeftoversUpTo(stored, hdr.number, q.hi) else q.hi == q0.hi
  {
    StoredOrFrozen(db, hdr);
    var top := hdr.number;
    if origin {
      top := HighestLeftover(stored, hdr.number);
    }
    batch, q := QueueRange(stored, frozen, pending, hdr.number, top, hdr.hash, q0);
    q := if origin then q.(hi := top) else q;
  }

  // ------------------------------------------------------------------ the head markers

  /** Of two blocks on one branch, the lower is an ancestor of the higher. */
  lemma BranchesAgree(hs: Headers, x: Hash, y: Hash, h: Hash)
    requires WellFormed(hs) && Rooted(hs, h) && IsAncestor(hs, x, h) && IsAncestor(hs, y, h)
    ensures Rooted(hs, y) && (hs[x].number <= hs[y].number ==> IsAncestor(hs, x, y))
  {
    if hs[x].number <= hs[y].number {
      AncestorOfAncestor(hs, h, hs[y].number, hs[x].number);
    }
  }

  /** `block` is what the search from `p` ends at, and has state or is genesis. */
  ghost predicate FoundFrom(hs: Headers, p: Header, root: Hash, states: set<Hash>, pivot: Option<nat>,
                            block: Header, rootNumber: nat)
    requires WellFormed(hs) && Rooted(hs, p.hash)
  {
    && block == NewHead(hs, p.hash, root, states, SearchLimit(p, pivot))
    && rootNumber == RootNumber(hs, p.hash, root, states, SearchLimit(p, pivot))
    && (block.number == 0 || block.root in states)
  }

  /** That is what `rewindHashHead` promises, and nothing else is. */
  lemma FoundIsRewound(hs: Headers, p: Header, root: Hash, states: set<Hash>, pivot: Option<nat>,
                       block: Header, rootNumber: nat)
    requires WellFormed(hs) && Rooted(hs, p.hash)
    ensures FoundFrom(hs, p, root, states, pivot, block, rootNumber) <==>
              Rewound(hs, p.hash, root, states, SearchLimit(p, pivot), block, rootNumber)
  {
    var limit := SearchLimit(p, pivot);
    NewHeadIsRewound(hs, p.hash, root, states, limit);
    if Rewound(hs, p.hash, root, states, limit, block, rootNumber) {
      RewoundIsNewHead(hs, p.hash, root, states, limit, block, rootNumber);
    }
  }

  /** The block head moved down to `header` or below. */
  ghost predicate BlockHeadMoved(hs: Headers, header: Header, root: Hash, states: set<Hash>, pivot: Option<nat>,
                                 before: Header, after: Header, rootNumber0: nat, rootNumber: nat)
    requires WellFormed(hs) && Rooted(hs, header.hash)
  {
    && OnBranch(hs, after, header)
    && (header.number > before.number ==> after == before && rootNumber == rootNumber0)
    && (header.number <= before.number ==> FoundFrom(hs, header, root, states, pivot, after, rootNumber))
  }

  /** A block head at this height is below the `frozen` headers of the freezer, and full sync is
      to resume. */
  predicate Undercut(number: nat, pivot: Option<nat>, frozen: nat) {
    number + 1 < frozen && (pivot.None? || number >= pivot.value)
  }

  /** Where the second half of the callback, applied to `header`, puts the snap head. */
  function NewSnapHead(header: Header, bodyStored: bool, genesis: Header, snap: Header): Header {
    if header.number >= snap.number then snap else if bodyStored then header else genesis
  }

  /** The first half of the `updateFn` callback: the block head. */
  method MoveBlockHead(hs: Headers, ghost head: Header, header: Header, root: Hash, states: set<Hash>,
                       pivot: Option<nat>, genesis: Header, before: Header, rootNumber0: nat)
    returns (after: Header, rootNumber: nat)
    requires WellFormed(hs) && Rooted(hs, head.hash) && OnBranch(hs, header, head) && OnBranch(hs, before, head)
    requires genesis == hs[Ancestor(hs, head.hash, 0)]
    ensures Rooted(hs, header.hash)
    ensures BlockHeadMoved(hs, header, root, states, pivot, before, after, rootNumber0, rootNumber)
  {
    BranchesAgree(hs, before.hash, header.hash, head.hash);
    after, rootNumber := before, rootNumber0;
    if header.number <= before.number {
      AncestorOfAncestor(hs, head.hash, header.number, 0);
      after, rootNumber := FindNewHead(hs, header, root, states, pivot, genesis);
    }
  }

  /** The second half: the snap head goes to `header` if its body is there, else to genesis. */
  method MoveSnapHead(hs: Headers, ghost head: Header, header: Header, block: Option<Header>, genesis: Header,
                      before: Header)
    returns (after: Header)
    requires WellFormed(hs) && Rooted(hs, head.hash) && OnBranch(hs, header, head) && OnBranch(hs, before, head)
    requires genesis == hs[Ancestor(hs, head.hash, 0)]
    requires block.Some? ==> block.value == header
    ensures Rooted(hs, header.hash) && OnBranch(hs, after, header)
    ensures after == NewSnapHead(header, block.Some?, genesis, before)
  {
    BranchesAgree(hs, before.hash, header.hash, head.hash);
    AncestorOfAncestor(hs, head.hash, header.number, 0);
    AncestorOfAncestor(hs, head.hash, 0, 0);
    after := before;
    if header.number < before.number {
      after := if block.Some? then block.value else genesis;
    }
  }

  /** The marker writes of the callback, applied at height `number`. */
  function MarkerWrites(number: nat, block: Header, newBlock: Header, snap: Header, newSnap: Header): seq<Write> {
    (if number <= block.number then [WriteHeadBlockHash(newBlock.hash)] else [])
    + (if number < snap.number then [WriteHeadFastBlockHash(newSnap.hash)] else [])
  }

  /** What these writes do to the two markers. */
  lemma MarkersMoved(kv: Disk, number: nat, block: Header, newBlock: Header, snap: Header, newSnap: Header)
    requires kv.headBlock == block.hash && kv.headFast == snap.hash
    requires (number > block.number ==> newBlock == block) && (number >= snap.number ==> newSnap == snap)
    ensures Commit(kv, MarkerWrites(number, block, newBlock, snap, newSnap))
            == kv.(headBlock := newBlock.hash, headFast := newSnap.hash)
  {
    var w := WriteHeadBlockHash(newBlock.hash);
    var first := if number <= block.number then [w] else [];
    CommitOne(kv, [], w);
    assert [] + [w] == [w];
    CommitOne(kv, first, WriteHeadFastBlockHash(newSnap.hash));
    assert first + [] == first;
  }

  /** The marker writes that go with the two moves. */
  method MarkerBatch(number: nat, block: Header, newBlock: Header, snap: Header, newSnap: Header)
    returns (batch: seq<Write>)
    ensures batch == MarkerWrites(number, block, newBlock, snap, newSnap)
  {
    batch := [];
    if number <= block.number {
      batch := batch + [WriteHeadBlockHash(newBlock.hash)];
    }
    if number < snap.number {
      batch := batch + [WriteHeadFastBlockHash(newSnap.hash)];
    }
  }

  /** Both halves, with the marker writes. */
  method MoveHeads(hs: Headers, ghost kv: Disk, ghost head: Header, header: Header, root: Hash, states: set<Hash>,
                   pivot: Option<nat>, body: Option<Header>, genesis: Header, block0: Header, snap0: Header,
                   rootNumber0: nat)
    returns (block: Header, snap: Header, batch: seq<Write>, rootNumber: nat)
    requires WellFormed(hs) && Rooted(hs, head.hash) && OnBranch(hs, header, head)
    requires OnBranch(hs, block0, head) && OnBranch(hs, snap0, head) && genesis == hs[Ancestor(hs, head.hash, 0)]
    requires body.Some? ==> body.value == header
    requires kv.headBlock == block0.hash && kv.headFast == snap0.hash
    ensures Rooted(hs, header.hash) && OnBranch(hs, snap, header)
    ensures BlockHeadMoved(hs, header, root, states, pivot, block0, block, rootNumber0, rootNumber)
    ensures snap == NewSnapHead(header, body.Some?, genesis, snap0)
    ensures Commit(kv, batch) == kv.(headBlock := block.hash, headFast := snap.hash)
    ensures batch == MarkerWrites(header.number, block0, block, snap0, snap)
  {
    block, rootNumber := MoveBlockHead(hs, head, header, root, states, pivot, genesis, block0, rootNumber0);
    snap := MoveSnapHead(hs, head, header, body, genesis, snap0);
    MarkersMoved(kv, header.number, block0, block, snap0, snap);
    batch := MarkerBatch(header.number, block0, block, snap0, snap);
  }

  /** Every database state from position `from` on has usable markers. */
  ghost predicate AllMarkersOk(crashes: seq<ChainDb>, from: nat) {
    forall i :: from <= i < |crashes| ==> MarkersOk(crashes[i])
  }

  /** The persisted block head marker, or the snap head marker. */
  function Marker(db: ChainDb, snap: bool): Hash {
    if snap then db.kv.headFast else db.kv.headBlock
  }

  /** In every database state from position `from` on that one marker is usable. */
  ghost predicate AllUsable(crashes: seq<ChainDb>, from: nat, snap: bool) {
    forall i :: from <= i < |crashes| ==> Usable(crashes[i], Marker(crashes[i], snap))
  }

  lemma MoreCrashes(crashes: seq<ChainDb>, more: seq<ChainDb>, from: nat)
    requires AllMarkersOk(crashes, from) && AllMarkersOk(more, 0)
    ensures AllMarkersOk(crashes + more, from)
  {
    forall i | from <= i < |crashes + more| ensures MarkersOk((crashes + more)[i]) {
      if i >= |crashes| {
        assert (crashes + more)[i] == more[i - |crashes|];
      }
    }
  }

  lemma OneMoreCrash(crashes: seq<ChainDb>, db: ChainDb, from: nat)
    requires AllMarkersOk(crashes, from) && MarkersOk(db)
    ensures AllMarkersOk(crashes + [db], from)
  {
  }

  // ------------------------------------------------------------------ the target

  /** The rewind may stop at this header. */
  predicate Done(header: Header, headBlock: nat, headTime: nat) {
    if headTime > 0 then header.time <= headTime else header.number <= headBlock
  }

  /** Every block of the branch that meets the target `(b, t)` also meets `(b0, t0)`. */
  ghost predicate Implies(hs: Headers, head: Header, b: nat, t: nat, b0: nat, t0: nat)
    requires WellFormed(hs) && Rooted(hs, head.hash)
  {
    forall x {:trigger IsAncestor(hs, x, head.hash)} ::
      IsAncestor(hs, x, head.hash) && Done(hs[x], b, t) ==> Done(hs[x], b0, t0)
  }

  /** No block of the branch above height `lo` meets the target. */
  ghost predicate NoneDoneAbove(hs: Headers, head: Header, lo: nat, b: nat, t: nat)
    requires WellFormed(hs) && Rooted(hs, head.hash)
  {
    forall x {:trigger IsAncestor(hs, x, head.hash)} ::
      IsAncestor(hs, x, head.hash) && hs[x].number > lo ==> !Done(hs[x], b, t)
  }

  /** Forcing the target down to block `x` of the branch only sharpens it. */
  lemma ForcedTarget(hs: Headers, head: Header, x: Header, b: nat, t: nat, b0: nat, t0: nat)
    requires WellFormed(hs) && TimesGrow(hs) && Rooted(hs, head.hash) && OnBranch(hs, x, head)
    requires (t > 0 && x.time < t) || (t == 0 && x.number < b)
    requires Implies(hs, head, b, t, b0, t0)
    ensures Implies(hs, head, x.number, 0, b0, t0)
  {
    forall y | IsAncestor(hs, y, head.hash) && Done(hs[y], x.number, 0)
      ensures Done(hs[y], b, t)
    {
      BranchesAgree(hs, y, x.hash, head.hash);
      OlderIsEarlier(hs, x.hash, hs[y].number);
    }
  }

  /** A round that removes `h` and stays with its target. */
  lemma OneMoreRemoved(hs: Headers, head: Header, h: Header, b: nat, t: nat)
    requires WellFormed(hs) && Rooted(hs, head.hash) && OnBranch(hs, h, head) && h.number > 0
    requires NoneDoneAbove(hs, head, h.number, b, t) && !Done(h, b, t)
    ensures NoneDoneAbove(hs, head, h.number - 1, b, t)
  {
  }

  /** The parent of a block of the branch is a block of the branch. */
  lemma ParentOnBranch(hs: Headers, head: Header, h: Header)
    requires WellFormed(hs) && Rooted(hs, head.hash) && OnBranch(hs, h, head) && h.number > 0
    ensures Rooted(hs, h.hash) && GetHeader(hs, h.parentHash, Prev(h.number)).Some?
    ensures OnBranch(hs, hs[h.parentHash], head) && OnBranch(hs, hs[h.parentHash], h)
    ensures hs[h.parentHash].number == h.number - 1
  {
    ParentOfAncestor(hs, head.hash, h.number);
    AncestorOfAncestor(hs, head.hash, h.number, h.number - 1);
  }

  /** A header that does not meet a target that genesis meets is not genesis. */
  lemma NotGenesis(hs: Headers, head: Header, h: Header, b: nat, t: nat)
    requires WellFormed(hs) && Rooted(hs, head.hash) && OnBranch(hs, h, head) && !Done(h, b, t)
    requires t > 0 ==> hs[Ancestor(hs, head.hash, 0)].time <= t
    ensures h.number > 0
  {
  }

  /** In the middle of a rewind from `head` that has reached `cur`: the database still holds the
      whole branch of `head`, and the deletions above `cur` are queued. */
  ghost predicate Progress(db: ChainDb, head: Header, cur: Header, batch: seq<Write>, q: Queue)
    requires WellFormed(View(db)) && Rooted(View(db), head.hash)
  {
    && OnBranch(View(db), cur, head) && Rooted(View(db), cur.hash)
    && head.number <= q.hi && Queued(db, batch, cur.number, q)
    && (if cur.number < head.number then LeftoversUpTo(db.kv.headers, head.number, q.hi) else q.hi == head.number)
  }

  /** One round of deletions, from `cur` to its parent, is progress. */
  method QueueNext(stored: Headers, frozen: nat, pending: seq<Write>, origin: bool, cur: Header, ghost parent: Header,
                   ghost head: Header, ghost db: ChainDb, ghost q0: Queue)
    returns (batch: seq<Write>, ghost q: Queue)
    requires WellFrozen(db) && Rooted(View(db), head.hash) && Progress(db, head, cur, pending, q0)
    requires View(db)[head.hash] == head && stored == db.kv.headers && frozen == |db.ancient|
    requires OnBranch(View(db), parent, head) && Rooted(View(db), parent.hash) && parent.number + 1 == cur.number
    requires origin <==> cur.number == head.number
    ensures Progress(db, head, parent, batch, q)
  {
    batch, q := QueueRound(stored, frozen, pending, origin, cur, db, q0);
  }

  ghost predicate MarkersAre(db: ChainDb, header: Header, block: Header, snap: Header) {
    db.kv.headHeader == header.hash && db.kv.headBlock == block.hash && db.kv.headFast == snap.hash
  }

  /** Block and snap head lie on the branch of the header head. */
  ghost predicate HeadsAgree(hs: Headers, header: Header, block: Header, snap: Header)
    requires WellFormed(hs) && Rooted(hs, header.hash)
  {
    hs[header.hash] == header && OnBranch(hs, block, header) && OnBranch(hs, snap, header)
  }

  lemma AgreeingMarkers(db: ChainDb, header: Header, block: Header, snap: Header)
    requires WellFormed(View(db)) && Rooted(View(db), header.hash)
    requires HeadsAgree(View(db), header, block, snap) && MarkersAre(db, header, block, snap)
    ensures MarkersOk(db)
  {
  }

  /** The target in force sharpens the requested one, and nothing removed so far met it. */
  ghost predicate Aim(hs: Headers, head: Header, cur: Header, b: nat, t: nat, b0: nat, t0: nat)
    requires WellFormed(hs) && Rooted(hs, head.hash)
  {
    Implies(hs, head, b, t, b0, t0) && NoneDoneAbove(hs, head, cur.number, b, t)
  }

  /** `genesis` is the block 0 of the branch of `h`. */
  ghost predicate GenesisOf(hs: Headers, h: Header, genesis: Header)
    requires WellFormed(hs) && Rooted(hs, h.hash)
  {
    hs[Ancestor(hs, h.hash, 0)] == genesis
  }

  /** The database after a marker batch. */
  function Marked(db: ChainDb, header: Hash, block: Hash, snap: Hash): ChainDb {
    ChainDb(db.kv.(headHeader := header, headBlock := block, headFast := snap), db.ancient)
  }

  /** A marker batch changes nothing that the rewind relies on. */
  lemma MarkersWritten(db: ChainDb, header: Hash, block: Hash, snap: Hash, head: Header, cur: Header, batch: seq<Write>,
                       q: Queue)
    requires ExactUpTo(db, head) && Progress(db, head, cur, batch, q)
    ensures ExactUpTo(Marked(db, header, block, snap), head)
    ensures Progress(Marked(db, header, block, snap), head, cur, batch, q)
    ensures View(Marked(db, header, block, snap)) == View(db)
  {
    forall n: nat ensures ReadCanonical(Marked(db, header, block, snap), n) == ReadCanonical(db, n) {}
  }

  lemma StillExact(db: ChainDb, header: Header, block: Header, snap: Header, genesis: Header)
    requires ExactUpTo(db, header) && GenesisOf(View(db), header, genesis) && HeadsAgree(View(db), header, block, snap)
    ensures var db' := Marked(db, header.hash, block.hash, snap.hash);
            && ExactUpTo(db', header) && GenesisOf(View(db'), header, genesis)
            && HeadsAgree(View(db'), header, block, snap) && MarkersAre(db', header, block, snap)
            && View(db') == View(db)
  {
    AtTheStart(db, header, 0, 0);
    MarkersWritten(db, header.hash, block.hash, snap.hash, header, header, [], Queue(header.number, {}, {}, {}));
  }

  /** What one round may rely on: the header has a stored parent on the same branch. */
  lemma RoundStart(hs: Headers, head: Header, cur: Header, genesis: Header, b: nat, t: nat)
    requires WellFormed(hs) && Rooted(hs, head.hash) && OnBranch(hs, cur, head) && GenesisOf(hs, head, genesis)
    requires !Done(cur, b, t) && (t > 0 ==> genesis.time <= t)
    ensures cur.number > 0 && GetHeader(hs, cur.parentHash, Prev(cur.number)).Some?
    ensures var parent := hs[cur.parentHash];
            && parent.number == cur.number - 1 && Rooted(hs, parent.hash) && Rooted(hs, cur.hash)
            && OnBranch(hs, parent, cur) && OnBranch(hs, parent, head)
    ensures GenesisOf(hs, cur, genesis)
  {
    NotGenesis(hs, head, cur, b, t);
    ParentOnBranch(hs, head, cur);
    AncestorOfAncestor(hs, head.hash, cur.number, 0);
  }

  /** A forced round aims at the block head that undercut the freezer. */
  lemma ForcedAim(hs: Headers, head: Header, parent: Header, block: Header, b: nat, t: nat, b0: nat, t0: nat)
    requires WellFormed(hs) && Rooted(hs, head.hash)
    requires Aim(hs, head, parent, b, t, b0, t0) && TimesGrow(hs) && OnBranch(hs, parent, head)
    requires Rooted(hs, parent.hash) && OnBranch(hs, block, parent)
    requires (t > 0 && block.time < t) || (t == 0 && block.number < b)
    ensures Aim(hs, head, parent, block.number, 0, b0, t0)
  {
    AncestorOfAncestor(hs, head.hash, parent.number, block.number);
    ForcedTarget(hs, head, block, b, t, b0, t0);
  }

  /** A rewind that has not begun. */
  lemma AtTheStart(db: ChainDb, head: Header, b: nat, t: nat)
    requires ExactUpTo(db, head)
    ensures Progress(db, head, head, [], Queue(head.number, {}, {}, {}))
    ensures Aim(View(db), head, head, b, t, b, t)
  {
  }

  lemma FlushedHeader(db: ChainDb, batch: seq<Write>, head: Header, cur: Header, genesis: Header, q: Queue)
    requires ExactUpTo(db, head) && Progress(db, head, cur, batch, q) && GenesisOf(View(db), head, genesis)
    ensures var end := Flushed(db, batch, Keep(db, cur.number));
            ExactUpTo(end, cur) && GenesisOf(View(end), cur, genesis)
  {
    FlushedExact(db, batch, head, cur, q);
    FlushedView(db, batch, Keep(db, cur.number), cur.number, q);
    AncestorOfAncestor(View(db), head.hash, cur.number, 0);
    AncestorKept(View(db), View(Flushed(db, batch, Keep(db, cur.number))), cur.number, cur.hash, 0);
  }

  /** Neither the deletions nor the truncation touch what the markers name. */
  lemma FlushedHeads(db: ChainDb, batch: seq<Write>, keep: nat, head: Header, cur: Header, block: Header, snap: Header,
                     q: Queue)
    requires ExactUpTo(db, head) && Progress(db, head, cur, batch, q)
    requires keep == |db.ancient| || keep == Keep(db, cur.number)
    requires HeadsAgree(View(db), cur, block, snap)
    ensures var hs := View(Flushed(db, batch, keep));
            WellFormed(hs) && Rooted(hs, cur.hash) && HeadsAgree(hs, cur, block, snap)
  {
    FlushedBranch(db, batch, keep, cur, cur, q);
    FlushedBranch(db, batch, keep, cur, block, q);
    FlushedBranch(db, batch, keep, cur, snap, q);
  }

  lemma FlushedMarkers(db: ChainDb, batch: seq<Write>, keep: nat, header: Header, block: Header, snap: Header)
    requires MarkersAre(db, header, block, snap) && keep <= |db.ancient|
    requires forall i :: 0 <= i < |batch| ==>
               batch[i].DeleteHeader? || batch[i].DeleteBody? || batch[i].DeleteCanonicalHash?
    ensures MarkersAre(Flushed(db, batch, keep), header, block, snap)
  {
    CommitDeletes(db.kv, batch);
  }

  /** Both states that a crash can leave behind while the rewind ends have usable markers. */
  lemma FlushedCrashes(db: ChainDb, batch: seq<Write>, head: Header, cur: Header, block: Header, snap: Header, q: Queue)
    requires ExactUpTo(db, head) && Progress(db, head, cur, batch, q) && MarkersAre(db, cur, block, snap)
    requires HeadsAgree(View(db), cur, block, snap)
    ensures MarkersOk(db) && MarkersOk(Flushed(db, batch, |db.ancient|))
    ensures var hs := View(Flushed(db, batch, Keep(db, cur.number)));
            WellFormed(hs) && Rooted(hs, cur.hash) && HeadsAgree(hs, cur, block, snap)
  {
    FlushedHeads(db, batch, |db.ancient|, head, cur, block, snap, q);
    FlushedHeads(db, batch, Keep(db, cur.number), head, cur, block, snap, q);
    FlushedMarkers(db, batch, |db.ancient|, cur, block, snap);
    AgreeingMarkers(db, cur, block, snap);
    AgreeingMarkers(Flushed(db, batch, |db.ancient|), cur, block, snap);
  }

  /** Of the old branch exactly the blocks up to the new head survive. */
  lemma FlushedSurvivors(db: ChainDb, batch: seq<Write>, head: Header, cur: Header, x: Header, q: Queue)
    requires ExactUpTo(db, head) && Progress(db, head, cur, batch, q) && OnBranch(View(db), x, head)
    ensures x.hash in View(Flushed(db, batch, Keep(db, cur.number))) <==> x.number <= cur.number
  {
    FlushedView(db, batch, Keep(db, cur.number), cur.number, q);
  }

  /** What a rewind from height `head` to height `lo` leaves of the database. The headers of the
      key-value store above `lo` are gone, up to the last of the consecutive heights above the old
      head at which anything was stored; so are the bodies of those that were not frozen, and the
      index entries above `lo`. All other headers, bodies and index entries are as they were, and so
      are the transaction lookup entries. The freezer is cut back to `lo`. */
  ghost predicate Pruned(db0: ChainDb, db: ChainDb, head: nat, lo: nat, top: nat) {
    && (if lo < head then LeftoversUpTo(db0.kv.headers, head, top) else top == head)
    && (forall h :: h in db.kv.headers <==> h in db0.kv.headers && !(lo < db0.kv.headers[h].number <= top))
    && (forall h :: h in db.kv.headers ==> db.kv.headers[h] == db0.kv.headers[h])
    && (forall h :: h in db.kv.bodies <==> h in db0.kv.bodies && h !in Unfrozen(db0, lo, top))
    && (forall h :: h in db.kv.bodies ==> db.kv.bodies[h] == db0.kv.bodies[h])
    && (forall n :: n in db.kv.canon <==> n in db0.kv.canon && n <= lo)
    && (forall n :: n in db.kv.canon ==> db.kv.canon[n] == db0.kv.canon[n])
    && db.kv.lookup == db0.kv.lookup
    && db.ancient == if lo + 1 < |db0.ancient| then db0.ancient[..lo + 1] else db0.ancient
  }

  lemma FlushedIsPruned(db: ChainDb, batch: seq<Write>, head: Header, cur: Header, q: Queue)
    requires ExactUpTo(db, head) && Progress(db, head, cur, batch, q)
    ensures Pruned(db, Flushed(db, batch, Keep(db, cur.number)), head.number, cur.number, q.hi)
  {
    CommitDeletes(db.kv, batch);
    forall h ensures DeleteHeader(h) in batch <==> h in q.hashes {}
    forall h ensures DeleteBody(h) in batch <==> h in q.bodies {}
    forall n ensures DeleteCanonicalHash(n) in batch <==> n in q.numbers {}
    assert db.ancient[..|db.ancient|] == db.ancient;
  }

  /** Moving the markers first makes no difference to that. */
  lemma MarkedIsPruned(db0: ChainDb, header: Hash, block: Hash, snap: Hash, db: ChainDb, head: nat, lo: nat, top: nat)
    requires Pruned(Marked(db0, header, block, snap), db, head, lo, top)
    ensures Pruned(db0, db, head, lo, top)
  {
    assert Unfrozen(Marked(db0, header, block, snap), lo, top) == Unfrozen(db0, lo, top);
  }

  lemma RewindPrunes(db0: ChainDb, batch: seq<Write>, head: Header, cur: Header, block: Hash, snap: Hash, q: Queue)
    requires ExactUpTo(db0, head) && Progress(db0, head, cur, batch, q)
    ensures var db := Marked(db0, cur.hash, block, snap);
            Pruned(db0, Flushed(db, batch, Keep(db, cur.number)), head.number, cur.number, q.hi)
  {
    var db := Marked(db0, cur.hash, block, snap);
    MarkersWritten(db0, cur.hash, block, snap, head, cur, batch, q);
    FlushedIsPruned(db, batch, head, cur, q);
    MarkedIsPruned(db0, cur.hash, block, snap, Flushed(db, batch, Keep(db, cur.number)), head.number, cur.number, q.hi);
  }

  /** The end of a rewind: the database is exact for the header it reached, its markers are as they
      were, and of the old branch exactly the blocks up to that header survive. */
  lemma RewindEnds(db0: ChainDb, batch: seq<Write>, head: Header, cur: Header, block: Header, snap: Header,
                   genesis: Header, q: Queue)
    requires ExactUpTo(db0, head) && Progress(db0, head, cur, batch, q) && GenesisOf(View(db0), head, genesis)
    ensures var db := Marked(db0, cur.hash, block.hash, snap.hash);
            var end := Flushed(db, batch, Keep(db, cur.number));
            && ExactUpTo(end, cur) && GenesisOf(View(end), cur, genesis) && MarkersAre(end, cur, block, snap)
            && (forall x :: OnBranch(View(db0), x, head) ==> (x.hash in View(end) <==> x.number <= cur.number))
  {
    var db := Marked(db0, cur.hash, block.hash, snap.hash);
    MarkersWritten(db0, cur.hash, block.hash, snap.hash, head, cur, batch, q);
    FlushedHeader(db, batch, head, cur, genesis, q);
    FlushedMarkers(db, batch, Keep(db, cur.number), cur, block, snap);
    forall x | OnBranch(View(db0), x, head) {
      FlushedSurvivors(db, batch, head, cur, x, q);
    }
  }

  /** And if the heads agreed before, they agree at every crash point and at the end. */
  lemma RewindEndsSafely(db0: ChainDb, batch: seq<Write>, head: Header, cur: Header, block: Header, snap: Header,
                         q: Queue)
    requires ExactUpTo(db0, head) && Progress(db0, head, cur, batch, q) && HeadsAgree(View(db0), cur, block, snap)
    ensures var db := Marked(db0, cur.hash, block.hash, snap.hash);
            var hs := View(Flushed(db, batch, Keep(db, cur.number)));
            && MarkersOk(db) && MarkersOk(Flushed(db, batch, |db.ancient|))
            && WellFormed(hs) && Rooted(hs, cur.hash) && HeadsAgree(hs, cur, block, snap)
  {
    MarkersWritten(db0, cur.hash, block.hash, snap.hash, head, cur, batch, q);
    FlushedCrashes(Marked(db0, cur.hash, block.hash, snap.hash), batch, head, cur, block, snap, q);
  }

  /** Blocks on the branch of a block of the branch are on the branch. */
  lemma BranchOfBranch(hs: Headers, head: Header, header: Header, block: Header, snap: Header)
    requires WellFormed(hs) && Rooted(hs, head.hash) && OnBranch(hs, header, head) && hs[head.hash] == head
    requires Rooted(hs, header.hash) && OnBranch(hs, block, header) && OnBranch(hs, snap, header)
    ensures HeadsAgree(hs, head, block, snap)
  {
    AncestorOfAncestor(hs, head.hash, header.number, block.number);
    AncestorOfAncestor(hs, head.hash, header.number, snap.number);
  }

  /** Blocks of the branch that are not above another are on its branch. */
  lemma HeadsUnder(hs: Headers, head: Header, cur: Header, block: Header, snap: Header)
    requires WellFormed(hs) && Rooted(hs, head.hash) && OnBranch(hs, cur, head) && Rooted(hs, cur.hash)
    requires OnBranch(hs, block, head) && OnBranch(hs, snap, head)
    requires block.number <= cur.number && snap.number <= cur.number
    ensures HeadsAgree(hs, cur, block, snap)
  {
    BranchesAgree(hs, block.hash, cur.hash, head.hash);
    BranchesAgree(hs, snap.hash, cur.hash, head.hash);
  }

  /** A rewind to the height of a block of the branch ends at that block. */
  lemma CutExactly(hs: Headers, head: Header, cur: Header, block: Header)
    requires WellFormed(hs) && Rooted(hs, head.hash) && OnBranch(hs, cur, head) && OnBranch(hs, block, head)
    requires Done(cur, block.number, 0) && NoneDoneAbove(hs, head, cur.number, block.number, 0)
    ensures cur == block
  {
  }

  lemma TwoFrozen(g: Header, h: Header, db: ChainDb)
    requires g == Header(1, ZERO_HASH, 0, 10, 0) && h == Header(2, 1, 1, 20, 1)
    requires db == ChainDb(Disk(map[], map[], map[], map[], 2, 2, 2), [g, h])
    ensures View(db) == map[1 := g, 2 := h]
    ensures ExactUpTo(db, h) && GenesisOf(View(db), h, g) && HeadsAgree(View(db), h, h, h)
  {
    assert [g, h][..1] == [g] && [g][..0] == [];
    assert FrozenHeaders([g]) == map[1 := g];
  }

  // ------------------------------------------------------------------ crash points without the callback

  /** The database states from position `from` on are `db0` with the header marker on the way from
      `head` down to height `low`, and with these other markers. */
  ghost predicate Trail(db0: ChainDb, head: Header, low: nat, crashes: seq<ChainDb>, from: nat, block: Hash, snap: Hash)
    requires WellFormed(View(db0)) && Rooted(View(db0), head.hash)
  {
    forall i :: from <= i < |crashes| ==>
      var h := crashes[i].kv.headHeader;
      && crashes[i] == Marked(db0, h, block, snap)
      && IsAncestor(View(db0), h, head.hash) && low <= View(db0)[h].number
  }

  lemma TrailGrows(db0: ChainDb, head: Header, cur: Header, low: nat, crashes: seq<ChainDb>, from: nat, block: Hash,
                   snap: Hash)
    requires ExactUpTo(db0, head) && Trail(db0, head, cur.number, crashes, from, block, snap)
    requires OnBranch(View(db0), cur, head) && low <= cur.number
    ensures Trail(db0, head, low, crashes + [Marked(db0, cur.hash, block, snap)], from, block, snap)
  {
  }

  /** A block of the branch is usable as a marker under a header of the branch exactly when it is
      not above it. */
  lemma UsableUnder(db0: ChainDb, head: Header, h: Hash, x: Header, block: Hash, snap: Hash)
    requires ExactUpTo(db0, head) && IsAncestor(View(db0), h, head.hash) && OnBranch(View(db0), x, head)
    ensures Usable(Marked(db0, h, block, snap), x.hash) <==> x.number <= View(db0)[h].number
  {
    BranchesAgree(View(db0), x.hash, h, head.hash);
    assert View(Marked(db0, h, block, snap)) == View(db0);
  }

  lemma UsableFlushed(db0: ChainDb, batch: seq<Write>, head: Header, cur: Header, x: Header, block: Hash, snap: Hash,
                      q: Queue)
    requires ExactUpTo(db0, head) && Progress(db0, head, cur, batch, q) && OnBranch(View(db0), x, head)
    requires x.number <= cur.number
    ensures var db := Marked(db0, cur.hash, block, snap); Usable(Flushed(db, batch, |db.ancient|), x.hash)
  {
    var db := Marked(db0, cur.hash, block, snap);
    MarkersWritten(db0, cur.hash, block, snap, head, cur, batch, q);
    BranchesAgree(View(db0), x.hash, cur.hash, head.hash);
    AncestorOfAncestor(View(db0), head.hash, cur.number, cur.number);
    FlushedBranch(db, batch, |db.ancient|, cur, x, q);
    CommitDeletes(db.kv, batch);
  }

  /** The database states that a crash can leave behind while a rewind ends. */
  function EndStates(db: ChainDb, batch: seq<Write>, lo: nat): seq<ChainDb> {
    [db] + (if lo + 1 < |db.ancient| then [Flushed(db, batch, |db.ancient|)] else [])
  }

  /** The crash points of a rewind without the callback: a marker that stays behind is usable at all
      of them if it is not above the header that the rewind reaches. */
  lemma UsableThroughout(db0: ChainDb, batch: seq<Write>, head: Header, cur: Header, block: Header, snap: Header,
                         q: Queue, mid: seq<ChainDb>, from: nat, which: bool)
    requires ExactUpTo(db0, head) && Progress(db0, head, cur, batch, q) && from <= |mid|
    requires Trail(db0, head, cur.number, mid, from, block.hash, snap.hash)
    requires var x := if which then snap else block; OnBranch(View(db0), x, head) && x.number <= cur.number
    ensures AllUsable(mid + EndStates(Marked(db0, cur.hash, block.hash, snap.hash), batch, cur.number), from, which)
  {
    var db, x := Marked(db0, cur.hash, block.hash, snap.hash), if which then snap else block;
    var all := mid + EndStates(db, batch, cur.number);
    UsableUnder(db0, head, cur.hash, x, block.hash, snap.hash);
    UsableFlushed(db0, batch, head, cur, x, block.hash, snap.hash, q);
    FlushedMarkers(db, batch, |db.ancient|, cur, block, snap);
    forall i | from <= i < |all| ensures Usable(all[i], Marker(all[i], which)) {
      if i < |mid| {
        assert all[i] == mid[i];
        UsableUnder(db0, head, mid[i].kv.headHeader, x, block.hash, snap.hash);
      }
    }
  }

  /** And only then. */
  lemma RewindCrashes(db0: ChainDb, batch: seq<Write>, head: Header, cur: Header, block: Header, snap: Header,
                      q: Queue, mid: seq<ChainDb>, from: nat, which: bool)
    requires ExactUpTo(db0, head) && Progress(db0, head, cur, batch, q) && from <= |mid|
    requires Trail(db0, head, cur.number, mid, from, block.hash, snap.hash)
    requires OnBranch(View(db0), if which then snap else block, head)
    ensures var all := mid + EndStates(Marked(db0, cur.hash, block.hash, snap.hash), batch, cur.number);
            AllUsable(all, from, which) <==> (if which then snap else block).number <= cur.number
  {
    var db, x := Marked(db0, cur.hash, block.hash, snap.hash), if which then snap else block;
    if x.number <= cur.number {
      UsableThroughout(db0, batch, head, cur, block, snap, q, mid, from, which);
    } else {
      UsableUnder(db0, head, cur.hash, x, block.hash, snap.hash);
      assert (mid + EndStates(db, batch, cur.number))[|mid|] == db && Marker(db, which) == x.hash;
    }
  }

  lemma MoreUsable(crashes: seq<ChainDb>, longer: seq<ChainDb>, from: nat, which: bool)
    requires crashes <= longer && from <= |crashes| && AllUsable(crashes, from, which)
    ensures AllUsable(longer, from, which) <==> AllUsable(longer, |crashes|, which)
  {
    forall i | from <= i < |crashes| ensures Usable(longer[i], Marker(longer[i], which)) {
      assert longer[i] == crashes[i];
    }
  }

  lemma MarkersOkUsable(crashes: seq<ChainDb>, from: nat)
    ensures AllMarkersOk(crashes, from) <==> AllUsable(crashes, from, false) && AllUsable(crashes, from, true)
  {
    if AllUsable(crashes, from, false) && AllUsable(crashes, from, true) {
      forall i | from <= i < |crashes| ensures MarkersOk(crashes[i]) {
        assert Usable(crashes[i], Marker(crashes[i], false)) && Usable(crashes[i], Marker(crashes[i], true));
      }
    }
    if AllMarkersOk(crashes, from) {
      forall i | from <= i < |crashes|
        ensures Usable(crashes[i], Marker(crashes[i], false)) && Usable(crashes[i], Marker(crashes[i], true))
      {
        assert MarkersOk(crashes[i]);
      }
    }
  }

  lemma EndStatesOk(db: ChainDb, batch: seq<Write>, lo: nat)
    requires MarkersOk(db) && MarkersOk(Flushed(db, batch, |db.ancient|))
    ensures AllMarkersOk(EndStates(db, batch, lo), 0)
  {
  }

  /** The crash points of a whole rewind with the callback. */
  lemma SafeToTheEnd(db0: ChainDb, batch: seq<Write>, head: Header, cur: Header, block: Header, snap: Header, q: Queue,
                     mid: seq<ChainDb>, from: nat)
    requires ExactUpTo(db0, head) && Progress(db0, head, cur, batch, q) && HeadsAgree(View(db0), cur, block, snap)
    requires from <= |mid| && AllMarkersOk(mid, from)
    ensures AllMarkersOk(mid + EndStates(Marked(db0, cur.hash, block.hash, snap.hash), batch, cur.number), from)
  {
    RewindEndsSafely(db0, batch, head, cur, block, snap, q);
    EndStatesOk(Marked(db0, cur.hash, block.hash, snap.hash), batch, cur.number);
    MoreCrashes(mid, EndStates(Marked(db0, cur.hash, block.hash, snap.hash), batch, cur.number), from);
  }

  /** The crash points of a whole rewind without it. */
  lemma BehindToTheEnd(db0: ChainDb, batch: seq<Write>, head: Header, cur: Header, block: Header, snap: Header,
                       q: Queue, mid: seq<ChainDb>, from: nat)
    requires ExactUpTo(db0, head) && Progress(db0, head, cur, batch, q) && from <= |mid|
    requires Trail(db0, head, cur.number, mid, from, block.hash, snap.hash)
    requires OnBranch(View(db0), block, head) && OnBranch(View(db0), snap, head)
    ensures var all := mid + EndStates(Marked(db0, cur.hash, block.hash, snap.hash), batch, cur.number);
            && (AllUsable(all, from, false) <==> block.number <= cur.number)
            && (AllUsable(all, from, true) <==> snap.number <= cur.number)
  {
    RewindCrashes(db0, batch, head, cur, block, snap, q, mid, from, false);
    RewindCrashes(db0, batch, head, cur, block, snap, q, mid, from, true);
  }

  // ------------------------------------------------------------------ repair

  /** The database states that a crash can leave behind while a repair writes the markers. */
  function RepairStates(db: ChainDb, header: Header, snap: Header, block': Header, snap': Header): seq<ChainDb> {
    [db] + (if snap' == snap then [] else [Marked(db, header.hash, block'.hash, snap.hash)])
  }

  /** The two marker writes of a repair: the markers are usable before, between and after them. */
  lemma RepairWrites(db: ChainDb, header: Header, block: Header, snap: Header, block': Header, snap': Header,
                     genesis: Header)
    requires ExactUpTo(db, header) && GenesisOf(View(db), header, genesis) && MarkersAre(db, header, block, snap)
    requires HeadsAgree(View(db), header, block, snap) && HeadsAgree(View(db), header, block', snap')
    ensures AllMarkersOk(RepairStates(db, header, snap, block', snap'), 0)
    ensures var db' := Marked(db, header.hash, block'.hash, snap'.hash);
            && ExactUpTo(db', header) && GenesisOf(View(db'), header, genesis)
            && HeadsAgree(View(db'), header, block', snap') && MarkersAre(db', header, block', snap')
            && View(db') == View(db)
  {
    AgreeingMarkers(db, header, block, snap);
    StillExact(db, header, block', snap, genesis);
    AgreeingMarkers(Marked(db, header.hash, block'.hash, snap.hash), header, block', snap);
    StillExact(db, header, block', snap', genesis);
  }

  /** What a repair does with the freezer undercut below the snap head: the header chain is cut back
      below the snap marker. Read off the chain before the repair. */
  ghost predicate SnapWillBeLost(hs: Headers, block: Header, bodyStored: bool, snap: Header, genesis: Header,
                                 root: Hash, states: set<Hash>, pivot: Option<nat>, frozen: nat)
    requires WellFormed(hs) && Rooted(hs, block.hash)
  {
    var found := NewHead(hs, block.hash, root, states, SearchLimit(block, pivot)).number;
    Undercut(found, pivot, frozen) && found < NewSnapHead(block, bodyStored, genesis, snap).number
  }

  lemma TwoFrozenLost(g: Header, h: Header, hs: Headers)
    requires g == Header(1, ZERO_HASH, 0, 10, 0) && h == Header(2, 1, 1, 20, 1) && hs == map[1 := g, 2 := h]
    ensures WellFormed(hs) && Rooted(hs, 2) && SnapWillBeLost(hs, h, true, h, g, ZERO_HASH, {10}, None, 2)
  {
    assert Rooted(hs, 1) && Ancestor(hs, 2, 1) == 2;
    assert !Candidate(hs, 2, ZERO_HASH, {10}, 0, 1);
    assert HighestCandidate(hs, 2, ZERO_HASH, {10}, 0, 1) == 0;
  }
}
