/**
 The key-value database as the chain code sees it, and write batches.

 A batch is a list of pending writes. Reads made while a batch is being filled see the
 database without it; `Commit` applies the whole batch in order, in one step.
 */
module Rawdb {
  import opened Basics
  import opened BlockTree

  datatype Disk = Disk(
    headers: Headers,               // hash -> header
    bodies: map<Hash, seq<Hash>>,   // hash -> transaction hashes of the body
    canon: map<nat, Hash>,          // number -> hash of the canonical block
    lookup: map<Hash, nat>,         // transaction hash -> block number
    headHeader: Hash,
    headFast: Hash,
    headBlock: Hash
  )

  datatype Write =
    | WriteHeader(header: Header)
    | DeleteHeader(hash: Hash)
    | WriteBody(hash: Hash, txs: seq<Hash>)
    | DeleteBody(hash: Hash)
    | WriteCanonicalHash(hash: Hash, number: nat)
    | DeleteCanonicalHash(number: nat)
    | WriteTxLookup(tx: Hash, number: nat)
    | DeleteTxLookup(tx: Hash)
    | WriteHeadHeaderHash(hash: Hash)
    | WriteHeadFastBlockHash(hash: Hash)
    | WriteHeadBlockHash(hash: Hash)

  function Put(d: Disk, w: Write): Disk {
    match w
    case WriteHeader(hd) => d.(headers := d.headers[hd.hash := hd])
    case DeleteHeader(h) => d.(headers := d.headers - {h})
    case WriteBody(h, txs) => d.(bodies := d.bodies[h := txs])
    case DeleteBody(h) => d.(bodies := d.bodies - {h})
    case WriteCanonicalHash(h, n) => d.(canon := d.canon[n := h])
    case DeleteCanonicalHash(n) => d.(canon := d.canon - {n})
    case WriteTxLookup(t, n) => d.(lookup := d.lookup[t := n])
    case DeleteTxLookup(t) => d.(lookup := d.lookup - {t})
    case WriteHeadHeaderHash(h) => d.(headHeader := h)
    case WriteHeadFastBlockHash(h) => d.(headFast := h)
    case WriteHeadBlockHash(h) => d.(headBlock := h)
  }

  /** The database after the whole batch has been written. */
  function Commit(d: Disk, batch: seq<Write>): Disk {
    if batch == [] then d
    else Put(Commit(d, batch[..|batch| - 1]), batch[|batch| - 1])
  }

  lemma CommitOne(d: Disk, batch: seq<Write>, w: Write)
    ensures Commit(d, batch + [w]) == Put(Commit(d, batch), w)
  {
    assert (batch + [w])[..|batch|] == batch;
  }

  function ReadCanonicalHash(d: Disk, n: nat): Hash {
    if n in d.canon then d.canon[n] else ZERO_HASH
  }

  /** The stored block with this hash and number: its header together with its body. */
  function GetBody(d: Disk, h: Hash, n: nat): Option<seq<Hash>> {
    if GetHeader(d.headers, h, n).Some? && h in d.bodies then Some(d.bodies[h]) else None
  }

  /** The number index up to `number`. */
  function UpTo(canon: map<nat, Hash>, number: nat): map<nat, Hash> {
    map n | n in canon && n <= number :: canon[n]
  }

  /** The number index without the entries above `low` and below `high`. */
  function CutOut(canon: map<nat, Hash>, low: nat, high: nat): map<nat, Hash> {
    map n | n in canon && (n <= low || n >= high) :: canon[n]
  }

  /** Queues the deletion of every index entry above `number`, reading the index until the
      first gap. */
  method DeleteCanonicalAbove(d: Disk, pending: seq<Write>, number: nat, ghost top: nat) returns (batch: seq<Write>)
    requires Commit(d, pending).canon == d.canon
    requires forall n: nat :: n in d.canon <==> n <= top
    requires forall n :: n in d.canon ==> d.canon[n] != ZERO_HASH
    ensures Commit(d, batch) == Commit(d, pending).(canon := UpTo(d.canon, number))
  {
    batch := pending;
    ghost var mid := Commit(d, pending);
    assert CutOut(d.canon, number, number + 1) == d.canon;
    var i := number + 1;
    while ReadCanonicalHash(d, i) != ZERO_HASH
      invariant number < i && (i <= top + 1 || i == number + 1)
      invariant Commit(d, batch) == mid.(canon := CutOut(d.canon, number, i))
      decreases top + 1 - i
    {
      CommitOne(d, batch, DeleteCanonicalHash(i));
      assert CutOut(d.canon, number, i) - {i} == CutOut(d.canon, number, i + 1);
      batch := batch + [DeleteCanonicalHash(i)];
      i := i + 1;
    }
    assert CutOut(d.canon, number, i) == UpTo(d.canon, number);
  }

  /** The number index after the headers of `chain` have been written into it in order. */
  function WriteAll(canon: map<nat, Hash>, chain: seq<Header>): map<nat, Hash> {
    if chain == [] then canon
    else var last := chain[|chain| - 1];
         WriteAll(canon, chain[..|chain| - 1])[last.number := last.hash]
  }

  lemma WriteOneMore(canon: map<nat, Hash>, chain: seq<Header>, h: Header)
    ensures WriteAll(canon, chain + [h]) == WriteAll(canon, chain)[h.number := h.hash]
  {
    assert (chain + [h])[..|chain|] == chain;
  }

  /** Headers with distinct numbers: each is found under its number, and nothing else moved. */
  lemma {:induction false} WriteAllAt(canon: map<nat, Hash>, chain: seq<Header>, n: nat)
    requires forall i, j :: 0 <= i < j < |chain| ==> chain[i].number != chain[j].number
    ensures forall i :: 0 <= i < |chain| && chain[i].number == n ==>
              n in WriteAll(canon, chain) && WriteAll(canon, chain)[n] == chain[i].hash
    ensures (forall i :: 0 <= i < |chain| ==> chain[i].number != n) ==>
              && (n in WriteAll(canon, chain) <==> n in canon)
              && (n in canon ==> WriteAll(canon, chain)[n] == canon[n])
  {
    if chain != [] {
      WriteAllAt(canon, chain[..|chain| - 1], n);
    }
  }
}
