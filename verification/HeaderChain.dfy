/**
 The header chain of core/headerchain.go: `Reorg`, `WriteHeaders`, `writeHeadersAndSetHead`
 and `GetAncestor`.
 */
module HeaderChains {
  import opened Basics
  import opened BlockTree
  import opened Rawdb

  datatype Status = NonStatTy | CanonStatTy | UnknownAncestor | MissingParent

  /** A batch of headers in which each is the parent of the next. */
  ghost predicate Contiguous(headers: seq<Header>) {
    forall i :: 0 <= i < |headers| - 1 ==>
      headers[i + 1].parentHash == headers[i].hash && headers[i + 1].number == headers[i].number + 1
  }

  ghost predicate AllStored(hs: Headers, headers: seq<Header>) {
    forall i :: 0 <= i < |headers| ==> headers[i].hash in hs && hs[headers[i].hash] == headers[i]
  }

  /** Every header of a contiguous stored batch lies on the branch of the last one. */
  lemma {:induction false} BatchOnBranch(hs: Headers, headers: seq<Header>, i: nat)
    requires WellFormed(hs) && Contiguous(headers) && AllStored(hs, headers) && i < |headers|
    requires Rooted(hs, headers[0].hash)
    ensures Rooted(hs, headers[i].hash)
    ensures headers[i].number == headers[0].number + i
    ensures forall j :: 0 <= j <= i ==> Ancestor(hs, headers[i].hash, headers[0].number + j) == headers[j].hash
    ensures forall n: nat | n <= headers[0].number ::
              Ancestor(hs, headers[i].hash, n) == Ancestor(hs, headers[0].hash, n)
  {
    if i > 0 {
      BatchOnBranch(hs, headers, i - 1);
    }
  }

  // ------------------------------------------------------------------ the index, entry by entry

  /** `seg` lists the branch of `first` downwards to height `low`. If `low` is not 0, the
      branch of `cur` meets that of `first` just below. */
  ghost predicate DownTo(hs: Headers, cur: Hash, first: Hash, low: nat, seg: seq<Header>)
    requires WellFormed(hs) && Rooted(hs, cur) && Rooted(hs, first)
  {
    && low <= hs[first].number + 1 && |seg| == hs[first].number + 1 - low
    && (forall i :: 0 <= i < |seg| ==> seg[i] == hs[Ancestor(hs, first, hs[first].number - i)])
    && (low > 0 ==> low - 1 <= hs[cur].number && Ancestor(hs, cur, low - 1) == Ancestor(hs, first, low - 1))
  }

  /** Index `w` is right below the batch that starts with `first`, and holds nothing above `top`. */
  ghost predicate BelowBatch(hs: Headers, first: Hash, top: nat, w: map<nat, Hash>)
    requires WellFormed(hs) && Rooted(hs, first)
  {
    && (forall n: nat :: n < hs[first].number ==> n in w && w[n] == Ancestor(hs, first, n))
    && (forall n: nat :: n in w ==> n <= top)
  }

  /** If the batch extends the current head, nothing needs to be undone. */
  lemma ExtendsHead(hs: Headers, cur: Hash, first: Hash, top: nat)
    requires WellFormed(hs) && Rooted(hs, cur) && first in hs && hs[first].parentHash == cur && hs[first].number <= top
    ensures Rooted(hs, first) && BelowBatch(hs, first, top, Chain(hs, cur))
  {
  }

  lemma RelinkedEntry(hs: Headers, cur: Hash, first: Hash, low: nat, seg: seq<Header>, top: nat, n: nat)
    requires WellFormed(hs) && Rooted(hs, cur) && Rooted(hs, first) && DownTo(hs, cur, first, low, seg)
    requires hs[first].number <= top
    ensures var w := WriteAll(UpTo(Chain(hs, cur), top), seg);
            && (n < hs[first].number ==> n in w && w[n] == Ancestor(hs, first, n))
            && (n in w ==> n <= top)
  {
    WriteAllAt(UpTo(Chain(hs, cur), top), seg, n);
    if low <= n <= hs[first].number {
      assert seg[hs[first].number - n].number == n;
    } else if n < low {
      AgreeBelow(hs, cur, first, low - 1, n);
    }
  }

  /** Otherwise deleting the stale entries and walking back makes the index right. */
  lemma RelinkedBelow(hs: Headers, cur: Hash, first: Hash, low: nat, seg: seq<Header>, top: nat, w: map<nat, Hash>)
    requires WellFormed(hs) && Rooted(hs, cur) && Rooted(hs, first) && DownTo(hs, cur, first, low, seg)
    requires hs[first].number <= top && w == WriteAll(UpTo(Chain(hs, cur), top), seg)
    ensures BelowBatch(hs, first, top, w)
  {
    forall n: nat
      ensures n < hs[first].number ==> n in w && w[n] == Ancestor(hs, first, n)
      ensures n in w ==> n <= top
    {
      RelinkedEntry(hs, cur, first, low, seg, top, n);
    }
  }

  /** One index entry once the batch itself is written: that of the branch of its last header. */
  lemma ExtendedEntry(hs: Headers, headers: seq<Header>, w: map<nat, Hash>, n: nat)
    requires WellFormed(hs) && headers != [] && Contiguous(headers) && AllStored(hs, headers)
    requires Rooted(hs, headers[0].hash) && Rooted(hs, headers[|headers| - 1].hash)
    requires BelowBatch(hs, headers[0].hash, headers[|headers| - 1].number, w)
    ensures var last, w' := headers[|headers| - 1].hash, WriteAll(w, headers);
            && (n in w' <==> n <= hs[last].number)
            && (n <= hs[last].number ==> w'[n] == Ancestor(hs, last, n))
  {
    forall i | 0 <= i < |headers| ensures headers[i].number == headers[0].number + i {
      BatchOnBranch(hs, headers, i);
    }
    BatchOnBranch(hs, headers, |headers| - 1);
    WriteAllAt(w, headers, n);
    var i := n - headers[0].number;
    if 0 <= i < |headers| {
      assert headers[i].number == n;
      assert Ancestor(hs, headers[|headers| - 1].hash, headers[0].number + i) == headers[i].hash;
    }
  }

  /** Once the batch is written over an index that is right below it, the index is exactly the
      branch of the last header. */
  lemma ReorgedIsChain(hs: Headers, headers: seq<Header>, w: map<nat, Hash>)
    requires WellFormed(hs) && headers != [] && Contiguous(headers) && AllStored(hs, headers)
    requires Rooted(hs, headers[0].hash) && BelowBatch(hs, headers[0].hash, headers[|headers| - 1].number, w)
    ensures Rooted(hs, headers[|headers| - 1].hash)
    ensures WriteAll(w, headers) == Chain(hs, headers[|headers| - 1].hash)
  {
    BatchOnBranch(hs, headers, |headers| - 1);
    var last, w' := headers[|headers| - 1].hash, WriteAll(w, headers);
    forall n: nat
      ensures n in w' <==> n <= hs[last].number
      ensures n <= hs[last].number ==> w'[n] == Ancestor(hs, last, n)
    {
      ExtendedEntry(hs, headers, w, n);
    }
  }

  // ------------------------------------------------------------------ batches

  /** The walk stands on the canonical branch: the rest of the index is right. */
  lemma WalkMeets(hs: Headers, cur: Hash, first: Hash, header: Header, seg: seq<Header>)
    requires WellFormed(hs) && Rooted(hs, cur) && WalkedTo(hs, first, header, seg)
    requires header.number in Chain(hs, cur) && Chain(hs, cur)[header.number] == header.hash
    ensures Rooted(hs, first) && DownTo(hs, cur, first, header.number + 1, seg)
  {
  }

  /** One step of the walk down from `header`: it ends at block 0, at a gap, or goes on. */
  lemma WalkStep(hs: Headers, cur: Hash, first: Hash, header: Header, seg: seq<Header>)
    requires WellFormed(hs) && Rooted(hs, cur) && WalkedTo(hs, first, header, seg)
    ensures header.number == 0 ==> Rooted(hs, first) && DownTo(hs, cur, first, 0, seg + [header])
    ensures header.number > 0 && GetHeader(hs, header.parentHash, header.number - 1).None? ==> !Rooted(hs, first)
    ensures header.number > 0 && GetHeader(hs, header.parentHash, header.number - 1).Some? ==>
              WalkedTo(hs, first, hs[header.parentHash], seg + [header])
  {
    WalkOn(hs, first, header, seg);
  }

  /** The batch does what `pending` does, and then files the headers of `seg` in the index. */
  ghost predicate Files(d: Disk, pending: seq<Write>, batch: seq<Write>, seg: seq<Header>) {
    Commit(d, batch) == Commit(d, pending).(canon := WriteAll(Commit(d, pending).canon, seg))
  }

  /** One more header filed. */
  lemma FilesOneMore(d: Disk, pending: seq<Write>, batch: seq<Write>, seg: seq<Header>, h: Header)
    requires Files(d, pending, batch, seg)
    ensures Files(d, pending, batch + [WriteCanonicalHash(h.hash, h.number)], seg + [h])
  {
    CommitOne(d, batch, WriteCanonicalHash(h.hash, h.number));
    WriteOneMore(Commit(d, pending).canon, seg, h);
  }

  /** The backwards walk of `Reorg`: overwrites stale entries until the index already names the
      header it stands on. It reads the index as it was, not the pending writes. */
  method Relink(d: Disk, pending: seq<Write>, first: Header, ghost cur: Hash)
    returns (missing: bool, batch: seq<Write>, ghost low: nat, ghost seg: seq<Header>)
    requires WellFormed(d.headers) && Rooted(d.headers, cur) && d.canon == Chain(d.headers, cur)
    requires first.hash in d.headers && d.headers[first.hash] == first
    ensures missing <==> !Rooted(d.headers, first.hash)
    ensures !missing ==> DownTo(d.headers, cur, first.hash, low, seg)
    ensures Files(d, pending, batch, seg)
  {
    missing, batch, low, seg := false, pending, 0, [];
    var header, headHash, headNumber := first, first.hash, first.number;
    while ReadCanonicalHash(d, headNumber) != headHash
      invariant headHash == header.hash && headNumber == header.number
      invariant WalkedTo(d.headers, first.hash, header, seg)
      invariant Files(d, pending, batch, seg)
      decreases headNumber
    {
      FilesOneMore(d, pending, batch, seg, header);
      WalkStep(d.headers, cur, first.hash, header, seg);
      batch, seg := batch + [WriteCanonicalHash(headHash, headNumber)], seg + [header];
      if headNumber == 0 {
        return;
      }
      headHash, headNumber := header.parentHash, header.number - 1;
      match GetHeader(d.headers, headHash, headNumber)
      case None =>
        missing := true;
        return;
      case Some(parent) =>
        header := parent;
    }
    low := headNumber + 1;
    WalkMeets(d.headers, cur, first.hash, header, seg);
  }

  /** The last part of `Reorg`: every header of the batch becomes canonical and head. */
  method ExtendBatch(d: Disk, pending: seq<Write>, headers: seq<Header>) returns (batch: seq<Write>)
    requires headers != [] && Contiguous(headers)
    ensures Commit(d, batch) == Commit(d, pending).(canon := WriteAll(Commit(d, pending).canon, headers),
                                                    headHeader := headers[|headers| - 1].hash)
  {
    batch := pending;
    ghost var base := Commit(d, pending);
    ghost var top: Hash := base.headHeader;
    for i := 0 to |headers|
      invariant Commit(d, batch) == base.(canon := WriteAll(base.canon, headers[..i]), headHeader := top)
      invariant i > 0 ==> top == headers[i - 1].hash
    {
      var hash := if i < |headers| - 1 then headers[i + 1].parentHash else headers[i].hash;
      CommitOne(d, batch, WriteCanonicalHash(hash, headers[i].number));
      batch := batch + [WriteCanonicalHash(hash, headers[i].number)];
      CommitOne(d, batch, WriteHeadHeaderHash(hash));
      batch := batch + [WriteHeadHeaderHash(hash)];
      WriteOneMore(base.canon, headers[..i], headers[i]);
      assert headers[..i + 1] == headers[..i] + [headers[i]];
      top := hash;
    }
    assert headers[..|headers|] == headers;
  }

  /** The header store with the headers of a batch added. */
  function AddAll(hs: Headers, headers: seq<Header>): Headers {
    if headers == [] then hs
    else var last := headers[|headers| - 1];
         AddAll(hs, headers[..|headers| - 1])[last.hash := last]
  }

  lemma AddOneMore(hs: Headers, headers: seq<Header>, h: Header)
    ensures AddAll(hs, headers + [h]) == AddAll(hs, headers)[h.hash := h]
  {
    assert (headers + [h])[..|headers|] == headers;
  }

  /** Hashes identify headers: within the batch, and between it and the store. */
  ghost predicate Identified(hs: Headers, headers: seq<Header>) {
    && (forall i :: 0 <= i < |headers| && headers[i].hash in hs ==> hs[headers[i].hash] == headers[i])
    && (forall i, j :: 0 <= i < j < |headers| ==> headers[i].hash != headers[j].hash)
  }

  /** Adding the batch loses nothing and adds exactly its headers. */
  lemma {:induction false} AddAllAt(hs: Headers, headers: seq<Header>)
    requires Identified(hs, headers)
    ensures AllStored(AddAll(hs, headers), headers)
    ensures forall h :: h in hs ==> h in AddAll(hs, headers) && AddAll(hs, headers)[h] == hs[h]
    ensures forall h :: h in AddAll(hs, headers) ==> h in hs || exists i :: 0 <= i < |headers| && headers[i].hash == h
  {
    if headers != [] {
      AddAllAt(hs, headers[..|headers| - 1]);
    }
  }

  /** One more header of the batch; one that is stored already changes nothing. */
  lemma AddNext(hs: Headers, headers: seq<Header>, i: nat, stored: Headers)
    requires Identified(hs, headers) && i < |headers| && stored == AddAll(hs, headers[..i])
    ensures AddAll(hs, headers[..i + 1]) == stored[headers[i].hash := headers[i]]
    ensures headers[i].hash in hs ==> AddAll(hs, headers[..i + 1]) == stored
  {
    AddAllAt(hs, headers[..i]);
    AddOneMore(hs, headers[..i], headers[i]);
    assert headers[..i + 1] == headers[..i] + [headers[i]];
  }

  /** Of the first `n` headers `inserted` remain from the first one on that is not stored. */
  ghost predicate FromFirstUnknown(hs: Headers, headers: seq<Header>, n: nat, inserted: nat)
    requires n <= |headers|
  {
    && inserted <= n
    && (forall i :: 0 <= i < n - inserted ==> headers[i].hash in hs)
    && (inserted > 0 ==> headers[n - inserted].hash !in hs)
  }

  /** The loop of `WriteHeaders`: headers that are known already are skipped, and once one was
      unknown the next is stored unchecked. */
  method StoreBatch(d: Disk, headers: seq<Header>) returns (batch: seq<Write>, inserted: nat)
    requires Contiguous(headers) && Identified(d.headers, headers)
    ensures Commit(d, batch) == d.(headers := AddAll(d.headers, headers))
    ensures FromFirstUnknown(d.headers, headers, |headers|, inserted)
  {
    batch, inserted := [], 0;
    ghost var stored := d.headers;
    var parentKnown := true;
    for i := 0 to |headers|
      invariant stored == AddAll(d.headers, headers[..i]) && Commit(d, batch) == d.(headers := stored)
      invariant FromFirstUnknown(d.headers, headers, i, inserted) && (parentKnown <==> inserted == 0)
    {
      var hash := if i < |headers| - 1 then headers[i + 1].parentHash else headers[i].hash;
      var alreadyKnown := parentKnown && GetHeader(d.headers, hash, headers[i].number).Some?;
      AddNext(d.headers, headers, i, stored);
      if !alreadyKnown {
        CommitOne(d, batch, WriteHeader(headers[i]));
        batch, stored := batch + [WriteHeader(headers[i])], stored[headers[i].hash := headers[i]];
        inserted := inserted + 1;
      }
      parentKnown := alreadyKnown;
    }
    assert headers[..|headers|] == headers;
  }

  // ------------------------------------------------------------------ ancestors

  /** Following parent links `k` times; the last parent need not be stored. */
  ghost function Up(hs: Headers, h: Hash, k: nat): Option<Hash>
    decreases k
  {
    if k == 0 then Some(h) else if h in hs then Up(hs, hs[h].parentHash, k - 1) else None
  }

  lemma {:induction false} UpIsAncestor(hs: Headers, h: Hash, k: nat)
    requires WellFormed(hs) && Rooted(hs, h) && k <= hs[h].number
    ensures Up(hs, h, k) == Some(Ancestor(hs, h, hs[h].number - k))
    decreases k
  {
    if k > 0 {
      UpIsAncestor(hs, hs[h].parentHash, k - 1);
    }
  }

  lemma {:induction false} UpThenUp(hs: Headers, h: Hash, i: nat, k: nat)
    ensures Up(hs, h, i).Some? ==> Up(hs, Up(hs, h, i).value, k) == Up(hs, h, i + k)
    decreases i
  {
    if i > 0 && h in hs {
      UpThenUp(hs, hs[h].parentHash, i - 1, k);
    }
  }

  /** How many parent links lead from `h` to the branch of `cur`; more than its height if the
      branches have different roots. */
  ghost function StepsToCanonical(hs: Headers, cur: Hash, h: Hash): nat
    requires WellFormed(hs) && Rooted(hs, cur) && Rooted(hs, h)
    decreases hs[h].number
  {
    if IsAncestor(hs, h, cur) then 0
    else if hs[h].number == 0 then 1
    else 1 + StepsToCanonical(hs, cur, hs[h].parentHash)
  }

  // ------------------------------------------------------------------ the chain object

  class HeaderChain {
    var disk: Disk
    var currentHeader: Header
    var currentHeaderHash: Hash

    ghost predicate Valid()
      reads this
    {
      && WellFormed(disk.headers)
      && Rooted(disk.headers, currentHeaderHash) && disk.headers[currentHeaderHash] == currentHeader
      && disk.headHeader == currentHeaderHash
      && disk.canon == Chain(disk.headers, currentHeaderHash)
    }

    /** `Reorg`: makes the branch of a stored contiguous batch canonical. It fails, writing
        nothing, exactly when an ancestor of the batch is missing. */
    method Reorg(headers: seq<Header>) returns (missing: bool)
      requires Valid() && Contiguous(headers) && AllStored(disk.headers, headers)
      modifies this
      ensures Valid() && disk == old(disk).(canon := disk.canon, headHeader := disk.headHeader)
      ensures headers == [] ==> !missing && unchanged(this)
      ensures headers != [] ==> (missing <==> !Rooted(disk.headers, headers[0].hash))
      ensures missing ==> unchanged(this)
      ensures headers != [] && !missing ==> currentHeader == headers[|headers| - 1]
    {
      missing := false;
      if |headers| == 0 {
        return;
      }
      var first, last := headers[0], headers[|headers| - 1];
      var batch: seq<Write> := [];
      ghost var hs, cur := disk.headers, currentHeaderHash;
      if first.parentHash != currentHeaderHash {
        batch := DeleteCanonicalAbove(disk, [], last.number, currentHeader.number);
        ghost var low, seg;
        missing, batch, low, seg := Relink(disk, batch, first, cur);
        if missing {
          return;
        }
        BatchOnBranch(hs, headers, |headers| - 1);
        RelinkedBelow(hs, cur, first.hash, low, seg, last.number, Commit(disk, batch).canon);
      } else {
        assert Rooted(hs, first.hash);
        BatchOnBranch(hs, headers, |headers| - 1);
        ExtendsHead(hs, cur, first.hash, last.number);
      }
      ReorgedIsChain(hs, headers, Commit(disk, batch).canon);
      batch := ExtendBatch(disk, batch, headers);
      disk := Commit(disk, batch);
      currentHeaderHash := last.hash;
      currentHeader := last;
    }

    /** `WriteHeaders`: stores a validated batch whose parent is known. */
    method WriteHeaders(headers: seq<Header>) returns (known: bool, inserted: nat)
      requires Valid() && Contiguous(headers) && Identified(disk.headers, headers)
      requires WellFormed(AddAll(disk.headers, headers))
      modifies this`disk
      ensures Valid()
      ensures known <==> headers == [] ||
                         GetHeader(old(disk).headers, headers[0].parentHash, Prev(headers[0].number)).Some?
      ensures disk == old(disk).(headers := if known then AddAll(old(disk).headers, headers) else old(disk).headers)
      ensures known ==> FromFirstUnknown(old(disk).headers, headers, |headers|, inserted)
    {
      inserted := 0;
      known := true;
      if |headers| == 0 {
        return;
      }
      if GetHeader(disk.headers, headers[0].parentHash, Prev(headers[0].number)).None? {
        known := false;
        return;
      }
      AddAllAt(disk.headers, headers);
      ChainInLargerStore(disk.headers, AddAll(disk.headers, headers), currentHeaderHash);
      var batch;
      batch, inserted := StoreBatch(disk, headers);
      disk := Commit(disk, batch);
    }

    /** `writeHeadersAndSetHead`: stores a batch and makes its last header the head, unless that
        is canonical already. */
    method WriteHeadersAndSetHead(headers: seq<Header>) returns (r: Status)
      requires Valid() && headers != [] && Contiguous(headers) && Identified(disk.headers, headers)
      requires WellFormed(AddAll(disk.headers, headers))
      modifies this
      ensures Valid()
      ensures r == UnknownAncestor <==>
                GetHeader(old(disk).headers, headers[0].parentHash, Prev(headers[0].number)).None?
      ensures r == UnknownAncestor ==> unchanged(this)
      ensures r != UnknownAncestor ==> disk.headers == AddAll(old(disk).headers, headers)
      ensures r == MissingParent <==> r != UnknownAncestor && !Rooted(disk.headers, headers[0].hash)
      ensures Rooted(disk.headers, old(currentHeaderHash))
      ensures r == NonStatTy <==>
                r != UnknownAncestor && IsAncestor(disk.headers, headers[|headers| - 1].hash, old(currentHeaderHash))
      ensures r == CanonStatTy ==> currentHeader == headers[|headers| - 1]
      ensures r == NonStatTy || r == MissingParent ==>
                currentHeader == old(currentHeader) && disk == old(disk).(headers := disk.headers)
    {
      var known, inserted := WriteHeaders(headers);
      if !known {
        r := UnknownAncestor;
        return;
      }
      AddAllAt(old(disk).headers, headers);
      var last := headers[|headers| - 1];
      if ReadCanonicalHash(disk, last.number) == last.hash && last.number <= currentHeader.number {
        CanonicalBatch(disk.headers, currentHeaderHash, headers);
        r := NonStatTy;
        return;
      }
      var missing := Reorg(headers);
      r := if missing then MissingParent else CanonStatTy;
    }

    /** `GetAncestor`: a nonzero answer is what following the parent links gives. For a block
        whose ancestors are stored, the answer is zero exactly when there is no such ancestor,
        or when the block is further from the canonical branch than the caller allows; and the
        allowance shrinks by the links followed one by one. */
    method GetAncestor(hash: Hash, number: nat, ancestor: nat, maxNonCanonical: nat)
      returns (h: Hash, n: nat, left: nat)
      requires Valid() && hash != ZERO_HASH
      ensures h != ZERO_HASH ==>
                Up(disk.headers, hash, ancestor) == Some(h) && ancestor <= number && n == number - ancestor
      ensures left <= maxNonCanonical && (ancestor == 1 || ancestor > number ==> left == maxNonCanonical)
      ensures h == ZERO_HASH ==> n == 0
      ensures Rooted(disk.headers, hash) && disk.headers[hash].number == number ==>
                var steps := StepsToCanonical(disk.headers, currentHeaderHash, hash);
                && (h == ZERO_HASH <==>
                      ancestor > number || (ancestor > 1 && ancestor > maxNonCanonical && steps > maxNonCanonical))
                && (h != ZERO_HASH && ancestor != 1 ==>
                      left == maxNonCanonical - (if steps < ancestor then steps else ancestor))
    {
      left := maxNonCanonical;
      if ancestor > number {
        return ZERO_HASH, 0, left;
      }
      if ancestor == 1 {
        match GetHeader(disk.headers, hash, number)
        case Some(header) =>
          return header.parentHash, number - 1, left;
        case None =>
          return ZERO_HASH, 0, left;
      }
      ghost var hs, cur := disk.headers, currentHeaderHash;
      var rest: nat := ancestor;
      h, n := hash, number;
      while rest != 0
        invariant h != ZERO_HASH && rest <= n && n - rest == number - ancestor && rest <= ancestor
        invariant Up(hs, hash, ancestor - rest) == Some(h)
        invariant left == maxNonCanonical - (ancestor - rest)
        invariant Rooted(hs, hash) && hs[hash].number == number ==>
                    && Rooted(hs, h) && hs[h].number == n
                    && StepsToCanonical(hs, cur, hash) == (ancestor - rest) + StepsToCanonical(hs, cur, h)
        decreases rest
      {
        UpThenUp(hs, hash, ancestor - rest, rest);
        UpThenUp(hs, hash, ancestor - rest, 1);
        if ReadCanonicalHash(disk, n) == h {
          var ancestorHash := ReadCanonicalHash(disk, n - rest);
          AncestorOfAncestor(hs, cur, n, n - rest);
          UpIsAncestor(hs, h, rest);
          return ancestorHash, n - rest, left;
        }
        if left == 0 {
          return ZERO_HASH, 0, left;
        }
        left := left - 1;
        rest := rest - 1;
        match GetHeader(disk.headers, h, n)
        case None =>
          return ZERO_HASH, 0, left;
        case Some(header) =>
          h := header.parentHash;
          n := n - 1;
      }
    }
  }

  /** A batch whose last header is canonical hangs on a complete branch. */
  lemma {:induction false} CanonicalBatch(hs: Headers, cur: Hash, headers: seq<Header>)
    requires WellFormed(hs) && Rooted(hs, cur) && headers != [] && Contiguous(headers) && AllStored(hs, headers)
    requires IsAncestor(hs, headers[|headers| - 1].hash, cur)
    ensures Rooted(hs, headers[0].hash)
  {
    if |headers| > 1 {
      var prefix := headers[..|headers| - 1];
      assert headers[|headers| - 2 + 1].number == headers[|headers| - 2].number + 1;
      ParentOfAncestor(hs, cur, headers[|headers| - 1].number);
      assert prefix[|prefix| - 1] == headers[|headers| - 2];
      CanonicalBatch(hs, cur, prefix);
    }
  }
}
