/**
 The chain object that is rewound: `setHead` of core/headerchain.go, driven by
 `setHeadBeyondRoot` of core/blockchain.go.
 */
module ChainRewind {
  import opened Basics
  import opened BlockTree
  import opened Rawdb
  import opened StateRewind
  import opened HeadRewind
  import opened RewindCourse

  class RewindableChain {
    var db: ChainDb
    var genesis: Header
    var currentHeader: Header
    var currentBlock: Header
    var currentSnapBlock: Header
    var states: set<Hash>      // state roots whose state is available
    var pivot: Option<nat>     // last snap-sync pivot
    // The database states before `db`, oldest first: what a crash could have left behind.
    ghost var crashes: seq<ChainDb>

    /** The header chain: the index read through the freezer is exactly the branch of the header
        head, nothing is stored in the index above it, and the persisted markers mirror the
        in-memory ones. */
    ghost predicate HeadersValid()
      reads this
    {
      && ExactUpTo(db, currentHeader)
      && GenesisOf(View(db), currentHeader, genesis)
      && MarkersAre(db, currentHeader, currentBlock, currentSnapBlock)
    }

    /** The block and snap heads lie on the branch of the header head. */
    ghost predicate HeadsOnBranch()
      requires WellFormed(View(db)) && Rooted(View(db), currentHeader.hash)
      reads this
    {
      HeadsAgree(View(db), currentHeader, currentBlock, currentSnapBlock)
    }

    ghost predicate Valid()
      reads this
    {
      HeadersValid() && HeadsOnBranch()
    }

    function GetBlock(header: Header): Option<Header>
      reads this
    {
      if HasBody(db, header) then Some(header) else None
    }

    /** The rewind to this target, as it starts from here. */
    function Asked(b: nat, t: nat, root: Hash): Request
      reads this
    {
      Request(currentHeader, currentBlock, currentSnapBlock, genesis, b, t, root, states, pivot, |db.ancient|)
    }

    /** The `updateFn` callback: rewinds the block head and the snap head to `header` or below,
        and says whether the header chain must follow because the freezer was undercut. */
    method UpdateHeads(header: Header, root: Hash, rootNumber0: nat)
      returns (batch: seq<Write>, force: bool, rootNumber: nat)
      requires WellFormed(View(db)) && Rooted(View(db), currentHeader.hash)
      requires HeadsOnBranch() && MarkersAre(db, currentHeader, currentBlock, currentSnapBlock)
      requires GenesisOf(View(db), currentHeader, genesis) && OnBranch(View(db), header, currentHeader)
      modifies this`currentBlock, this`currentSnapBlock
      ensures Rooted(View(db), header.hash)
      ensures BlockHeadMoved(View(db), header, root, states, pivot, old(currentBlock), currentBlock, rootNumber0,
                             rootNumber)
      ensures OnBranch(View(db), currentSnapBlock, header)
      ensures currentSnapBlock == NewSnapHead(header, GetBlock(header).Some?, genesis, old(currentSnapBlock))
      ensures Commit(db.kv, batch) == db.kv.(headBlock := currentBlock.hash, headFast := currentSnapBlock.hash)
      ensures batch == MarkerWrites(header.number, old(currentBlock), currentBlock,
                                    old(currentSnapBlock), currentSnapBlock)
      ensures force <==> Undercut(currentBlock.number, pivot, |old(db).ancient|)
    {
      var newHeadBlock, newHeadSnapBlock;
      newHeadBlock, newHeadSnapBlock, batch, rootNumber :=
        MoveHeads(View(db), db.kv, currentHeader, header, root, states, pivot, GetBlock(header), genesis, currentBlock,
                  currentSnapBlock, rootNumber0);
      currentBlock, currentSnapBlock := newHeadBlock, newHeadSnapBlock;
      force := false;
      if currentBlock.number + 1 < |db.ancient| {
        force := pivot.None? || currentBlock.number >= pivot.value;
      }
    }

    /** One marker batch: the heads move to `parent` or below, in one write. */
    method WriteMarkers(parent: Header, root: Hash, update: bool, rootNumber0: nat, ghost hs: Headers)
      returns (force: bool, rootNumber: nat)
      requires View(db) == hs && WellFormed(hs) && Rooted(hs, currentHeader.hash)
      requires MarkersAre(db, currentHeader, currentBlock, currentSnapBlock) && (update ==> HeadsOnBranch())
      requires GenesisOf(hs, currentHeader, genesis) && OnBranch(hs, parent, currentHeader)
      modifies this`currentBlock, this`currentSnapBlock, this`currentHeader, this`db, this`crashes
      ensures View(db) == hs && crashes == old(crashes) + [old(db)] && currentHeader == parent
      ensures db == Marked(old(db), currentHeader.hash, currentBlock.hash, currentSnapBlock.hash)
      ensures !update ==> !force && currentBlock == old(currentBlock) && currentSnapBlock == old(currentSnapBlock)
      ensures Rooted(hs, parent.hash) && (update ==> HeadsAgree(hs, currentHeader, currentBlock, currentSnapBlock))
      ensures update ==>
                BlockHeadMoved(hs, parent, root, states, pivot, old(currentBlock), currentBlock, rootNumber0,
                               rootNumber)
      ensures update ==>
                currentSnapBlock == NewSnapHead(parent, HasBody(old(db), parent), genesis, old(currentSnapBlock))
      ensures update ==> (force <==> Undercut(currentBlock.number, pivot, |old(db).ancient|))
    {
      BranchesAgree(hs, parent.hash, parent.hash, currentHeader.hash);
      var markers := [];
      force, rootNumber := false, rootNumber0;
      if update {
        markers, force, rootNumber := UpdateHeads(parent, root, rootNumber0);
      }
      CommitOne(db.kv, markers, WriteHeadHeaderHash(parent.hash));
      crashes := crashes + [db];
      db := db.(kv := Commit(db.kv, markers + [WriteHeadHeaderHash(parent.hash)]));
      currentHeader := parent;
    }

    /** Flushes the queued deletions, then cuts the freezer back to the header head. */
    method Flush(batch: seq<Write>)
      modifies this`db, this`crashes
      ensures db == Flushed(old(db), batch, Keep(old(db), currentHeader.number))
      ensures crashes == old(crashes) + EndStates(old(db), batch, currentHeader.number)
    {
      crashes := crashes + [db];
      db := db.(kv := Commit(db.kv, batch));
      assert db.ancient[..|db.ancient|] == db.ancient;
      if currentHeader.number + 1 < |db.ancient| {
        crashes := crashes + [db];
        db := db.(ancient := db.ancient[..currentHeader.number + 1]);
      }
    }

    /** The database is `db0` with the markers that memory holds. */
    ghost predicate OnlyMarkersMoved(db0: ChainDb)
      reads this
    {
      db == Marked(db0, currentHeader.hash, currentBlock.hash, currentSnapBlock.hash)
    }

    /** The end of a rewind. */
    method Finish(batch: seq<Write>, ghost db0: ChainDb, ghost head: Header, ghost agree: bool, ghost q: Queue)
      requires ExactUpTo(db0, head) && OnlyMarkersMoved(db0) && Progress(db0, head, currentHeader, batch, q)
      requires GenesisOf(View(db0), head, genesis)
      requires agree ==> HeadsAgree(View(db0), currentHeader, currentBlock, currentSnapBlock)
      modifies this`db, this`crashes
      ensures HeadersValid() && crashes == old(crashes) + EndStates(old(db), batch, currentHeader.number)
      ensures agree ==> HeadsOnBranch()
      ensures forall x :: OnBranch(View(db0), x, head) ==> (x.hash in View(db) <==> x.number <= currentHeader.number)
      ensures Pruned(db0, db, head.number, currentHeader.number, q.hi)
    {
      RewindPrunes(db0, batch, head, currentHeader, currentBlock.hash, currentSnapBlock.hash, q);
      Flush(batch);
      RewindEnds(db0, batch, head, currentHeader, currentBlock, currentSnapBlock, genesis, q);
      if agree {
        RewindEndsSafely(db0, batch, head, currentHeader, currentBlock, currentSnapBlock, q);
      }
    }

    /** The stage that the rewind has reached. */
    function Here(rootNumber: nat, b: nat, t: nat, last: Option<Header>): Stage
      reads this
    {
      Stage(currentHeader, currentBlock, currentSnapBlock, rootNumber, b, t, last)
    }

    /** The header head moves to `parent`, with the block and snap heads if there is a callback, and
        the target is forced down if the block head undercuts the freezer. */
    method Descend(ghost db0: ChainDb, ghost r: Request, parent: Header, b: nat, t: nat, root: Hash, update: bool,
                   rootNumber0: nat, ghost s: Stage, ghost end: Stage, ghost mark: nat)
      returns (b': nat, t': nat, rootNumber: nat, ghost s': Stage)
      requires r.root == root && r.states == states && r.pivot == pivot && r.frozen == |db0.ancient|
      requires r.genesis == genesis && Startable(db0, r) && OnlyMarkersMoved(db0)
      requires s == Here(rootNumber0, b, t, s.last)
      requires Rooted(View(db0), s.cur.hash) && OnBranch(View(db0), s.cur, r.head)
      requires Kept(db0, r, update, mark, crashes, s, end) && GenesisOf(View(db0), s.cur, genesis)
      requires s.cur.number > 0 && parent == View(db0)[s.cur.parentHash] && OnBranch(View(db0), parent, s.cur)
      requires Rooted(View(db0), parent.hash) && parent.number == s.cur.number - 1 && !Done(s.cur, b, t)
      modifies this`currentBlock, this`currentSnapBlock, this`currentHeader, this`db, this`crashes
      ensures currentHeader == parent && OnlyMarkersMoved(db0) && old(crashes) <= crashes && (t' == t || t' == 0)
      ensures s' == Here(rootNumber, b', t', s'.last) && Kept(db0, r, update, mark, crashes, s', end)
    {
      ghost var hs := View(db0);
      assert View(db) == hs;
      if update {
        AgreeingMarkers(db, currentHeader, currentBlock, currentSnapBlock);
        OneMoreCrash(crashes, db, mark);
      } else {
        TrailGrows(db0, r.head, s.cur, parent.number, crashes, mark, currentBlock.hash, currentSnapBlock.hash);
        OneMoreRemoved(hs, r.head, s.cur, b, t);
      }
      var force;
      force, rootNumber := WriteMarkers(parent, root, update, rootNumber0, hs);
      b', t' := b, t;
      if force && Lower(currentBlock, b, t) {
        b', t' := currentBlock.number, 0;
      }
      s' := if update then NextStage(db0, r, s, parent) else s.(cur := parent, rootNumber := rootNumber);
    }

    /** One round of the rewind: the header head moves to its parent. */
    method Round(ghost db0: ChainDb, ghost r: Request, pending: seq<Write>, origin: bool, b: nat, t: nat, root: Hash,
                 update: bool, rootNumber0: nat, ghost q0: Queue, ghost s: Stage, ghost end: Stage, ghost mark: nat)
      returns (batch: seq<Write>, b': nat, t': nat, rootNumber: nat, ghost q: Queue, ghost s': Stage)
      requires r.root == root && r.states == states && r.pivot == pivot && r.frozen == |db0.ancient|
      requires r.genesis == genesis && Startable(db0, r) && OnlyMarkersMoved(db0)
      requires s == Here(rootNumber0, b, t, s.last)
      requires Progress(db0, r.head, s.cur, pending, q0) && Kept(db0, r, update, mark, crashes, s, end)
      requires !Done(s.cur, b, t) && (t > 0 ==> genesis.time <= t)
      requires origin <==> s.cur.number == r.head.number
      modifies this`currentBlock, this`currentSnapBlock, this`currentHeader, this`db, this`crashes
      ensures OnlyMarkersMoved(db0) && Progress(db0, r.head, s'.cur, batch, q) && old(crashes) <= crashes
      ensures (t' == t || t' == 0) && s'.cur.number < s.cur.number
      ensures s' == Here(rootNumber, b', t', s'.last) && Kept(db0, r, update, mark, crashes, s', end)
    {
      ghost var hs := View(db0);
      assert View(db) == hs;
      var hdr := currentHeader;
      RoundStart(hs, r.head, hdr, genesis, b, t);
      var found := GetHeader(View(db), hdr.parentHash, Prev(hdr.number));
      var parent := if found.Some? then found.value else genesis;
      b', t', rootNumber, s' := Descend(db0, r, parent, b, t, root, update, rootNumber0, s, end, mark);
      batch, q := QueueNext(db.kv.headers, |db.ancient|, pending, origin, hdr, parent, r.head, db0, q0);
    }

    /** The loop of `setHead`: header by header down to the target, whose deletions are queued. */
    method Rounds(headBlock: nat, headTime: nat, root: Hash, update: bool, ghost db0: ChainDb, ghost r: Request,
                  ghost q0: Queue, ghost end: Stage, ghost mark: nat)
      returns (batch: seq<Write>, rootNumber: nat, ghost q: Queue, ghost s: Stage)
      requires r.root == root && r.states == states && r.pivot == pivot && r.frozen == |db0.ancient|
      requires r.genesis == genesis && Startable(db0, r) && OnlyMarkersMoved(db0)
      requires Start(r) == Here(0, headBlock, headTime, None)
      requires Progress(db0, r.head, r.head, [], q0) && q0.hi == r.head.number
      requires Kept(db0, r, update, mark, crashes, Start(r), end)
      modifies this`currentBlock, this`currentSnapBlock, this`currentHeader, this`db, this`crashes
      ensures OnlyMarkersMoved(db0) && Progress(db0, r.head, s.cur, batch, q) && old(crashes) <= crashes
      ensures s == Here(rootNumber, s.b, s.t, s.last) && Done(s.cur, s.b, s.t)
      ensures Kept(db0, r, update, mark, crashes, s, end)
    {
      batch, rootNumber, q, s := [], 0, q0, Start(r);
      var origin, b: nat, t: nat := true, headBlock, headTime;
      while !Done(currentHeader, b, t)
        invariant OnlyMarkersMoved(db0) && Progress(db0, r.head, s.cur, batch, q) && old(crashes) <= crashes
        invariant (origin <==> s.cur.number == r.head.number) && (t > 0 ==> genesis.time <= t)
        invariant s == Here(rootNumber, b, t, s.last) && Kept(db0, r, update, mark, crashes, s, end)
        decreases s.cur.number
      {
        batch, b, t, rootNumber, q, s := Round(db0, r, batch, origin, b, t, root, update, rootNumber, q, s, end, mark);
        origin := false;
      }
    }

    /** The rewind up to the point where the queued deletions are flushed. */
    method RewindHeaders(headBlock: nat, headTime: nat, root: Hash, update: bool, ghost db0: ChainDb, ghost r: Request)
      returns (batch: seq<Write>, rootNumber: nat, ghost q: Queue, ghost s: Stage)
      requires db == db0 && r == Asked(headBlock, headTime, root) && Startable(db0, r) && OnlyMarkersMoved(db0)
      modifies this`currentBlock, this`currentSnapBlock, this`currentHeader, this`db, this`crashes
      ensures OnlyMarkersMoved(db0) && Progress(db0, r.head, currentHeader, batch, q) && old(crashes) <= crashes
      ensures s == Here(rootNumber, s.b, s.t, s.last) && Done(s.cur, s.b, s.t)
      ensures Kept(db0, r, update, |old(crashes)|, crashes, s, Rewinding(db0, r, Start(r)))
    {
      ghost var q0, end, mark := Queue(currentHeader.number, {}, {}, {}), Rewinding(db0, r, Start(r)), |crashes|;
      AtTheStart(db0, r.head, headBlock, headTime);
      KeptAtTheStart(db0, r, update, crashes);
      batch, rootNumber, q, s := Rounds(headBlock, headTime, root, update, db0, r, q0, end, mark);
    }

    /** A rewind with the callback. */
    method RewindAll(headBlock: nat, headTime: nat, root: Hash, ghost db0: ChainDb, ghost r: Request)
      returns (rootNumber: nat, ghost end: Stage, ghost top: nat)
      requires Valid() && db == db0 && r == Asked(headBlock, headTime, root) && Startable(db0, r)
      modifies this`currentBlock, this`currentSnapBlock, this`currentHeader, this`db, this`crashes
      ensures Valid() && old(crashes) <= crashes && AllMarkersOk(crashes, |old(crashes)|)
      ensures end == Here(rootNumber, end.b, end.t, end.last) && end == Rewinding(db0, r, Start(r))
      ensures Pruned(db0, db, r.head.number, currentHeader.number, top)
    {
      var batch;
      ghost var q, mark := *, |crashes|;
      batch, rootNumber, q, end := RewindHeaders(headBlock, headTime, root, true, db0, r);
      SafeToTheEnd(db0, batch, r.head, currentHeader, currentBlock, currentSnapBlock, q, crashes, mark);
      Finish(batch, db0, r.head, true, q);
      top := q.hi;
    }

    /** `setHead` with the callback. `end` is the stage at which the rewind ends, which the request and
        the database determine; `Course` and `Conclusive` say what that is. */
    method SetHead(headBlock: nat, headTime: nat, root: Hash)
      returns (rejected: bool, rootNumber: nat, ghost end: Stage, ghost top: nat)
      requires Valid()
      modifies this`currentBlock, this`currentSnapBlock, this`currentHeader, this`db, this`crashes
      ensures rejected <==> headTime > 0 && genesis.time > headTime
      ensures rejected ==> unchanged(this)
      ensures !rejected ==> Valid() && AllMarkersOk(crashes, |old(crashes)|)
      ensures !rejected ==> end == Here(rootNumber, end.b, end.t, end.last)
      ensures !rejected ==> end == Rewinding(old(db), old(Asked(headBlock, headTime, root)),
                                             Start(old(Asked(headBlock, headTime, root))))
      ensures !rejected ==> Course(old(db), old(Asked(headBlock, headTime, root)), end)
      ensures !rejected ==> Conclusive(old(Asked(headBlock, headTime, root)), end)
      ensures !rejected ==> Pruned(old(db), db, old(currentHeader).number, currentHeader.number, top)
    {
      ghost var r := Asked(headBlock, headTime, root);
      rejected, rootNumber, end, top := false, 0, Start(r), 0;
      if headTime > 0 && genesis.time > headTime {
        rejected := true;
        return;
      }
      RewindMeans(db, r);
      rootNumber, end, top := RewindAll(headBlock, headTime, root, db, r);
    }

    /** One direct write to the key-value store. */
    method Persist(w: Write)
      modifies this`db, this`crashes
      ensures db == ChainDb(Commit(old(db).kv, [w]), old(db).ancient) && crashes == old(crashes) + [old(db)]
    {
      crashes := crashes + [db];
      db := db.(kv := Commit(db.kv, [w]));
    }

    /** The marker writes of a repair: first the block marker, then the snap marker if that moved. */
    method PersistMarkers(batch: seq<Write>, ghost snap: Header)
      requires db.kv.headHeader == currentHeader.hash && db.kv.headFast == snap.hash
      requires batch == [WriteHeadBlockHash(currentBlock.hash)]
                        + (if currentSnapBlock == snap then [] else [WriteHeadFastBlockHash(currentSnapBlock.hash)])
      modifies this`db, this`crashes
      ensures db == Marked(old(db), currentHeader.hash, currentBlock.hash, currentSnapBlock.hash)
      ensures crashes == old(crashes) + RepairStates(old(db), currentHeader, snap, currentBlock, currentSnapBlock)
    {
      Persist(batch[0]);
      if |batch| > 1 {
        Persist(batch[1]);
      }
    }

    /** The callback applied to the block head itself, with its writes not yet made. */
    method UpdateAtBlockHead(root: Hash, ghost hs: Headers, ghost block: Header)
      returns (batch: seq<Write>, force: bool, rootNumber: nat)
      requires Valid() && hs == View(db) && block == currentBlock
      modifies this`currentBlock, this`currentSnapBlock
      ensures HeadsOnBranch() && Rooted(hs, block.hash)
      ensures FoundFrom(hs, block, root, states, pivot, currentBlock, rootNumber)
      ensures currentSnapBlock == NewSnapHead(block, GetBlock(block).Some?, genesis, old(currentSnapBlock))
      ensures force <==> Undercut(currentBlock.number, pivot, |db.ancient|)
      ensures batch == [WriteHeadBlockHash(currentBlock.hash)]
                       + (if currentSnapBlock == old(currentSnapBlock) then []
                          else [WriteHeadFastBlockHash(currentSnapBlock.hash)])
    {
      BranchesAgree(hs, block.hash, block.hash, currentHeader.hash);
      batch, force, rootNumber := UpdateHeads(currentBlock, root, 0);
      BranchOfBranch(hs, currentHeader, block, currentBlock, currentSnapBlock);
    }

    /** The first half of a repair: the heads are rewound in place, with one write for each marker. */
    method RepairHeads(root: Hash, ghost hs: Headers, ghost block: Header, ghost snap: Header)
      returns (force: bool, rootNumber: nat)
      requires Valid() && hs == View(db) && block == currentBlock && snap == currentSnapBlock
      modifies this`currentBlock, this`currentSnapBlock, this`db, this`crashes
      ensures Valid() && View(db) == hs && OnlyMarkersMoved(old(db)) && Rooted(hs, block.hash)
      ensures FoundFrom(hs, block, root, states, pivot, currentBlock, rootNumber)
      ensures currentSnapBlock == NewSnapHead(block, old(GetBlock(currentBlock)).Some?, genesis, snap)
      ensures force <==> Undercut(currentBlock.number, pivot, |db.ancient|)
      ensures old(crashes) <= crashes && AllMarkersOk(crashes, |old(crashes)|)
    {
      ghost var db0, mark := db, |crashes|;
      var markers;
      markers, force, rootNumber := UpdateAtBlockHead(root, hs, block);
      RepairWrites(db0, currentHeader, block, snap, currentBlock, currentSnapBlock, genesis);
      MoreCrashes(crashes, RepairStates(db0, currentHeader, snap, currentBlock, currentSnapBlock), mark);
      PersistMarkers(markers, snap);
    }

    /** The second half: the header chain is cut back to the block head, without the callback. The
        snap marker stays where it is. It is usable at every crash point, and names a stored header
        afterwards, exactly when it is not above the cut. */
    method CutToBlockHead(ghost db0: ChainDb, ghost r: Request) returns (ghost top: nat)
      requires Valid() && db == db0 && r == Asked(currentBlock.number, 0, ZERO_HASH)
      modifies this`currentBlock, this`currentSnapBlock, this`currentHeader, this`db, this`crashes
      ensures HeadersValid() && currentHeader == r.block == currentBlock && currentSnapBlock == r.snap
      ensures currentSnapBlock.hash in View(db) <==> currentSnapBlock.number <= currentBlock.number
      ensures currentSnapBlock.number <= currentBlock.number ==> HeadsOnBranch()
      ensures old(crashes) <= crashes && AllUsable(crashes, |old(crashes)|, false)
      ensures AllUsable(crashes, |old(crashes)|, true) <==> currentSnapBlock.number <= currentBlock.number
      ensures Pruned(db0, db, r.head.number, currentHeader.number, top)
    {
      ghost var q, s, mark := *, *, |crashes|;
      var batch, rootNumber;
      batch, rootNumber, q, s := RewindHeaders(currentBlock.number, 0, ZERO_HASH, false, db0, r);
      CutExactly(View(db0), r.head, currentHeader, currentBlock);
      BehindToTheEnd(db0, batch, r.head, currentHeader, currentBlock, currentSnapBlock, q, crashes, mark);
      if currentSnapBlock.number <= currentBlock.number {
        HeadsUnder(View(db0), r.head, currentHeader, currentBlock, currentSnapBlock);
      }
      Finish(batch, db0, r.head, currentSnapBlock.number <= currentBlock.number, q);
      top := q.hi;
    }

    /** A repair from here loses the snap marker. */
    ghost predicate LosesSnapMarker(root: Hash)
      requires Valid()
      reads this
    {
      SnapWillBeLost(View(db), currentBlock, GetBlock(currentBlock).Some?, currentSnapBlock, genesis, root,
                     states, pivot, |db.ancient|)
    }

    /** The repair mode of `setHeadBeyondRoot`: the heads are rewound in place, and only when that
        undercuts the freezer is the header chain cut back, to the block head and without the
        callback. At every crash point and afterwards the block marker is usable; and so is the snap
        marker, unless the block that the search finds undercuts the freezer below the snap head. */
    method Repair(root: Hash) returns (force: bool, rootNumber: nat, ghost top: nat)
      requires Valid()
      modifies this`currentBlock, this`currentSnapBlock, this`currentHeader, this`db, this`crashes
      ensures HeadersValid() && old(crashes) <= crashes && Rooted(old(View(db)), old(currentBlock).hash)
      ensures FoundFrom(old(View(db)), old(currentBlock), root, states, pivot, currentBlock, rootNumber)
      ensures currentSnapBlock == old(NewSnapHead(currentBlock, GetBlock(currentBlock).Some?, genesis,
                                                  currentSnapBlock))
      ensures force <==> Undercut(currentBlock.number, pivot, |old(db.ancient)|)
      ensures !force ==> Valid() && currentHeader == old(currentHeader) && OnlyMarkersMoved(old(db))
      ensures force ==> currentHeader == currentBlock
      ensures force ==> Pruned(old(db), db, old(currentHeader).number, currentHeader.number, top)
      ensures force && !old(LosesSnapMarker(root)) ==> Valid()
      ensures currentSnapBlock.hash in View(db) <==> !old(LosesSnapMarker(root))
      ensures AllUsable(crashes, |old(crashes)|, false)
      ensures AllUsable(crashes, |old(crashes)|, true) <==> !old(LosesSnapMarker(root))
    {
      ghost var mark := |crashes|;
      force, rootNumber := RepairHeads(root, View(db), currentBlock, currentSnapBlock);
      top := 0;
      MarkersOkUsable(crashes, mark);
      if force {
        ghost var mid := crashes;
        ghost var header, block, snap := currentHeader, currentBlock, currentSnapBlock;
        top := CutToBlockHead(db, Asked(currentBlock.number, 0, ZERO_HASH));
        MarkedIsPruned(old(db), header.hash, block.hash, snap.hash, db, header.number, currentHeader.number, top);
        MoreUsable(mid, crashes, mark, false);
        MoreUsable(mid, crashes, mark, true);
      }
    }
  }

  /** Both blocks are frozen, all heads are at block 1, and only the genesis state is left. */
  method TwoFrozenBlocks() returns (chain: RewindableChain)
    ensures chain.Valid() && chain.LosesSnapMarker(ZERO_HASH) && fresh(chain)
  {
    var g, h := Header(1, ZERO_HASH, 0, 10, 0), Header(2, 1, 1, 20, 1);
    chain := new RewindableChain;
    chain.db := ChainDb(Disk(map[], map[], map[], map[], 2, 2, 2), [g, h]);
    chain.genesis, chain.currentHeader, chain.currentBlock, chain.currentSnapBlock := g, h, h, h;
    chain.states, chain.pivot := {10}, None;
    TwoFrozen(g, h, chain.db);
    TwoFrozenLost(g, h, View(chain.db));
  }

  /** A repair that loses the snap marker: the header chain is cut back to genesis, and the snap
      marker still names block 1. */
  method SnapMarkerLost() returns (chain: RewindableChain)
    ensures chain.HeadersValid() && chain.db.kv.headFast !in View(chain.db)
  {
    chain := TwoFrozenBlocks();
    var force, _, _ := chain.Repair(ZERO_HASH);
  }
}
