/**
 The course of a rewind with the callback: where the header, block and snap heads and the target
 are after every round of `setHead` (core/headerchain.go), and what that means at the end.
 */
module RewindCourse {
  import opened Basics
  import opened BlockTree
  import opened Rawdb
  import opened StateRewind
  import opened HeadRewind

  /** How a rewind starts: the three heads and genesis, the target, the requested root, the states
      that are available, the pivot and the length of the freezer. */
  datatype Request = Request(head: Header, block: Header, snap: Header, genesis: Header, b: nat, t: nat, root: Hash,
                             states: set<Hash>, pivot: Option<nat>, frozen: nat)

  /** Where a rewind stands: the heads, the root number reported so far, the target in force, and the
      header from which the block head was last searched. */
  datatype Stage = Stage(cur: Header, block: Header, snap: Header, rootNumber: nat, b: nat, t: nat,
                         last: Option<Header>)

  function Start(r: Request): Stage {
    Stage(r.head, r.block, r.snap, 0, r.b, r.t, None)
  }

  /** The body of this block is stored. */
  predicate HasBody(db: ChainDb, h: Header) {
    h.hash in db.kv.bodies || (h.number < |db.ancient| && db.ancient[h.number].hash == h.hash)
  }

  /** The block is strictly below the target. */
  predicate Lower(block: Header, b: nat, t: nat) {
    if t > 0 then block.time < t else block.number < b
  }

  /** The target for the next round: the block head if that undercuts the freezer below the target. */
  function NextTarget(block: Header, force: bool, b: nat, t: nat): (nat, nat) {
    if force && Lower(block, b, t) then (block.number, 0) else (b, t)
  }

  /** Where the search from `p` puts the block head. */
  ghost function Found(hs: Headers, r: Request, p: Header): Header
    requires WellFormed(hs) && Rooted(hs, p.hash)
  {
    NewHead(hs, p.hash, r.root, r.states, SearchLimit(p, r.pivot))
  }

  /** One round: the header head moves to `p`. A block head that is not below `p` is searched from
      there, a snap head above `p` is put back, and the target follows a block head that undercuts
      the freezer. */
  ghost function NextStage(db: ChainDb, r: Request, s: Stage, p: Header): Stage
    requires WellFormed(View(db)) && Rooted(View(db), p.hash)
  {
    var searched := p.number <= s.block.number;
    var block := if searched then Found(View(db), r, p) else s.block;
    var rootNumber :=
      if searched then RootNumber(View(db), p.hash, r.root, r.states, SearchLimit(p, r.pivot)) else s.rootNumber;
    var target := NextTarget(block, Undercut(block.number, r.pivot, r.frozen), s.b, s.t);
    Stage(p, block, NewSnapHead(p, HasBody(db, p), r.genesis, s.snap), rootNumber, target.0, target.1,
          if searched then Some(p) else s.last)
  }

  /** Where the rewind ends that stands at `s`. */
  ghost function Rewinding(db: ChainDb, r: Request, s: Stage): Stage
    requires WellFormed(View(db)) && Rooted(View(db), s.cur.hash) && View(db)[s.cur.hash] == s.cur
    decreases s.cur.number
  {
    if Done(s.cur, s.b, s.t) || s.cur.number == 0 then s
    else Rewinding(db, r, NextStage(db, r, s, View(db)[s.cur.parentHash]))
  }

  /** A database and a request with which a rewind can start. */
  ghost predicate Startable(db: ChainDb, r: Request) {
    && ExactUpTo(db, r.head) && GenesisOf(View(db), r.head, r.genesis)
    && HeadsAgree(View(db), r.head, r.block, r.snap)
    && (r.t > 0 ==> r.genesis.time <= r.t)
  }

  // ------------------------------------------------------------------ the heads

  /** What every search finds. */
  lemma FoundOnBranch(hs: Headers, r: Request, p: Header)
    requires WellFormed(hs) && Rooted(hs, p.hash) && hs[p.hash] == p
    ensures OnBranch(hs, Found(hs, r, p), p)
    ensures Found(hs, r, p).number == 0 || Found(hs, r, p).root in r.states
  {
    var limit := SearchLimit(p, r.pivot);
    NewHeadIsRewound(hs, p.hash, r.root, r.states, limit);
    RewoundIsNewHead(hs, p.hash, r.root, r.states, limit, Found(hs, r, p),
                     RootNumber(hs, p.hash, r.root, r.states, limit));
  }

  /** Block and snap head stay on the branch of the header head, which they follow down. */
  lemma HeadsFollow(db: ChainDb, r: Request, s: Stage, p: Header)
    requires WellFormed(View(db)) && Rooted(View(db), s.cur.hash) && HeadsAgree(View(db), s.cur, s.block, s.snap)
    requires OnBranch(View(db), p, s.cur) && Rooted(View(db), p.hash) && GenesisOf(View(db), s.cur, r.genesis)
    ensures var n := NextStage(db, r, s, p); HeadsAgree(View(db), p, n.block, n.snap)
  {
    var hs := View(db);
    FoundOnBranch(hs, r, p);
    BranchesAgree(hs, s.block.hash, p.hash, s.cur.hash);
    BranchesAgree(hs, s.snap.hash, p.hash, s.cur.hash);
    AncestorOfAncestor(hs, s.cur.hash, p.number, 0);
    AncestorOfAncestor(hs, s.cur.hash, p.number, p.number);
    AncestorOfAncestor(hs, s.cur.hash, 0, 0);
  }

  /** Where the block head is once the header head is at `cur`. Either it was always below and
      never moved; or `last` is the header from which it was last searched, and it is what that
      search finds, below every header that was reached since. */
  ghost predicate BlockHeadIs(hs: Headers, r: Request, s: Stage)
    requires WellFormed(hs) && Rooted(hs, r.head.hash)
  {
    match s.last
    case None => s.block == r.block && s.rootNumber == 0 && (s.cur == r.head || r.block.number < s.cur.number)
    case Some(p) =>
      && OnBranch(hs, p, r.head) && Rooted(hs, p.hash)
      && s.cur.number <= p.number <= r.block.number && p.number < r.head.number
      && FoundFrom(hs, p, r.root, r.states, r.pivot, s.block, s.rootNumber) && s.block.number <= p.number
      && (p == s.cur || s.block.number < s.cur.number)
  }

  lemma BlockHeadStep(db: ChainDb, r: Request, s: Stage, p: Header)
    requires WellFormed(View(db)) && Rooted(View(db), r.head.hash) && BlockHeadIs(View(db), r, s)
    requires OnBranch(View(db), p, r.head) && Rooted(View(db), p.hash) && p.number < s.cur.number <= r.head.number
    ensures BlockHeadIs(View(db), r, NextStage(db, r, s, p))
  {
    FoundOnBranch(View(db), r, p);
  }

  /** The bodies of the branch from height `lo` up to below the old snap head are stored: in the
      key-value store, or in the freezer. */
  ghost predicate BodiesFrom(db: ChainDb, r: Request, lo: nat)
    requires WellFormed(View(db)) && Rooted(View(db), r.head.hash)
  {
    var hs := View(db);
    forall n: nat :: lo <= n < r.snap.number && n <= hs[r.head.hash].number ==>
      Ancestor(hs, r.head.hash, n) in db.kv.bodies || n < |db.ancient|
  }

  /** The snap head: the old one if that is not above the header head; else the header head if every
      body on the way was stored, else genesis. */
  ghost predicate SnapHeadIs(db: ChainDb, r: Request, cur: Header, snap: Header)
    requires WellFormed(View(db)) && Rooted(View(db), r.head.hash)
  {
    snap == if cur.number >= r.snap.number then r.snap
            else if BodiesFrom(db, r, cur.number) then cur
            else r.genesis
  }

  /** What the freezer holds at a height of the branch is the block of the branch. */
  lemma BodyOnBranch(db: ChainDb, head: Header, x: Header)
    requires ExactUpTo(db, head) && OnBranch(View(db), x, head)
    ensures HasBody(db, x) <==> x.hash in db.kv.bodies || x.number < |db.ancient|
  {
    assert ReadCanonical(db, x.number) == Ancestor(View(db), head.hash, x.number);
  }

  lemma OneMoreBody(db: ChainDb, r: Request, p: Header)
    requires ExactUpTo(db, r.head) && OnBranch(View(db), p, r.head) && p.number < r.snap.number
    ensures BodiesFrom(db, r, p.number) <==> HasBody(db, p) && BodiesFrom(db, r, p.number + 1)
  {
    var hs := View(db);
    BodyOnBranch(db, r.head, p);
    if BodiesFrom(db, r, p.number) {
      assert Ancestor(hs, r.head.hash, p.number) == p.hash;
    }
  }

  lemma SnapHeadStep(db: ChainDb, r: Request, cur: Header, p: Header, snap: Header)
    requires ExactUpTo(db, r.head) && OnBranch(View(db), p, r.head)
    requires GenesisOf(View(db), r.head, r.genesis) && cur.number == p.number + 1 && SnapHeadIs(db, r, cur, snap)
    ensures SnapHeadIs(db, r, p, NewSnapHead(p, HasBody(db, p), r.genesis, snap))
  {
    if p.number < r.snap.number {
      OneMoreBody(db, r, p);
      if cur.number >= r.snap.number {
        assert BodiesFrom(db, r, cur.number);
      }
    }
  }

  // ------------------------------------------------------------------ the target

  /** No root is requested, and the block head has state or is genesis: no later search moves it. */
  predicate Steady(r: Request) {
    r.root == ZERO_HASH && (r.block.number == 0 || r.block.root in r.states)
  }

  /** A search without a requested root that starts at a block with state ends there. */
  lemma SteadySearch(hs: Headers, r: Request, p: Header)
    requires WellFormed(hs) && Rooted(hs, p.hash) && hs[p.hash] == p && r.root == ZERO_HASH
    requires (p.number == 0 || p.root in r.states) && SearchLimit(p, r.pivot) <= p.number
    ensures Found(hs, r, p) == p
  {
    assert p.number > 0 ==> Candidate(hs, p.hash, r.root, r.states, SearchLimit(p, r.pivot), p.number);
  }

  /** The target in force. Either it is the requested one, and then the block head does not undercut
      the freezer below it; or it is the height of a block head that did, and then that is still
      the block head, unless that has been reset below the pivot; which does not happen to a steady
      one. */
  ghost predicate InForce(r: Request, s: Stage) {
    || (&& s.b == r.b && s.t == r.t
        && (s.cur == r.head || !(Undercut(s.block.number, r.pivot, r.frozen) && Lower(s.block, s.b, s.t))))
    || (&& s.t == 0 && s.b <= r.head.number && Undercut(s.b, r.pivot, r.frozen)
        && (|| s.b == s.block.number <= s.cur.number
            || (!Steady(r) && r.pivot.Some? && s.block.number < r.pivot.value)))
  }

  lemma InForceStep(r: Request, s: Stage, p: Header, block: Header, n: Stage)
    requires InForce(r, s) && !Done(s.cur, s.b, s.t) && p.number == s.cur.number - 1
    requires p.number <= r.head.number && block.number <= p.number && block.number <= s.block.number
    requires p.number > s.block.number ==> block == s.block
    requires Steady(r) && p.number == s.block.number && Undercut(p.number, r.pivot, r.frozen) ==> block == s.block
    requires n.cur == p && n.block == block
    requires (n.b, n.t) == NextTarget(block, Undercut(block.number, r.pivot, r.frozen), s.b, s.t)
    ensures InForce(r, n)
  {
  }

  /** The search from `p` forces the target down: it is made because the header above `p` does not
      meet the requested target, and finds a block that undercuts the freezer below that target. */
  ghost predicate Forcing(hs: Headers, r: Request, p: Header)
    requires WellFormed(hs) && Rooted(hs, r.head.hash)
  {
    && OnBranch(hs, p, r.head) && Rooted(hs, p.hash)
    && p.number <= r.block.number && p.number < hs[r.head.hash].number
    && !Done(hs[Ancestor(hs, r.head.hash, p.number + 1)], r.b, r.t)
    && Undercut(Found(hs, r, p).number, r.pivot, r.frozen) && Lower(Found(hs, r, p), r.b, r.t)
  }

  /** A reason to force the target: the block head undercuts the freezer below the requested target
      from the beginning, or a search that is made on the way finds a block that does. */
  ghost predicate Justified(hs: Headers, r: Request)
    requires WellFormed(hs) && Rooted(hs, r.head.hash)
  {
    || (&& !Done(r.head, r.b, r.t) && r.block.number + 1 < r.head.number
        && Undercut(r.block.number, r.pivot, r.frozen) && Lower(r.block, r.b, r.t))
    || exists p :: Forcing(hs, r, p)
  }

  lemma JustifiedStep(db: ChainDb, r: Request, s: Stage, p: Header)
    requires WellFormed(View(db)) && Rooted(View(db), r.head.hash) && View(db)[r.head.hash] == r.head
    requires OnBranch(View(db), s.cur, r.head) && OnBranch(View(db), p, r.head) && Rooted(View(db), p.hash)
    requires p.number == s.cur.number - 1 && BlockHeadIs(View(db), r, s) && InForce(r, s) && !Done(s.cur, s.b, s.t)
    requires s.b != r.b || s.t != r.t ==> Justified(View(db), r)
    ensures var n := NextStage(db, r, s, p); n.b != r.b || n.t != r.t ==> Justified(View(db), r)
  {
    var n := NextStage(db, r, s, p);
    if s.b == r.b && s.t == r.t && (n.b != r.b || n.t != r.t) && p.number <= s.block.number {
      assert Forcing(View(db), r, p);
    }
  }

  // ------------------------------------------------------------------ every round

  /** What every round keeps: the three heads are accounted for, and so is the target, which implies
      the requested one and was met by nothing removed so far. */
  ghost predicate Course(db: ChainDb, r: Request, s: Stage)
    requires WellFormed(View(db)) && Rooted(View(db), r.head.hash)
  {
    && OnBranch(View(db), s.cur, r.head) && Rooted(View(db), s.cur.hash) && HeadsAgree(View(db), s.cur, s.block, s.snap)
    && BlockHeadIs(View(db), r, s) && SnapHeadIs(db, r, s.cur, s.snap)
    && InForce(r, s) && (s.b != r.b || s.t != r.t ==> Justified(View(db), r))
    && Aim(View(db), r.head, s.cur, s.b, s.t, r.b, r.t)
  }

  lemma TargetStep(db: ChainDb, r: Request, s: Stage, p: Header)
    requires Startable(db, r) && Course(db, r, s) && !Done(s.cur, s.b, s.t)
    requires OnBranch(View(db), p, r.head) && Rooted(View(db), p.hash) && OnBranch(View(db), p, s.cur)
    requires p.number == s.cur.number - 1
    ensures InForce(r, NextStage(db, r, s, p))
  {
    var hs, n := View(db), NextStage(db, r, s, p);
    FoundOnBranch(hs, r, p);
    if Steady(r) && p.number == s.block.number && Undercut(p.number, r.pivot, r.frozen) {
      SteadySearch(hs, r, p);
    }
    InForceStep(r, s, p, n.block, n);
  }

  lemma AimStep(db: ChainDb, r: Request, s: Stage, p: Header)
    requires Startable(db, r) && Course(db, r, s) && !Done(s.cur, s.b, s.t)
    requires OnBranch(View(db), p, r.head) && Rooted(View(db), p.hash) && OnBranch(View(db), p, s.cur)
    requires p.number == s.cur.number - 1
    ensures var n := NextStage(db, r, s, p); Aim(View(db), r.head, p, n.b, n.t, r.b, r.t)
  {
    var hs, n := View(db), NextStage(db, r, s, p);
    OneMoreRemoved(hs, r.head, s.cur, s.b, s.t);
    AncestorOfAncestor(hs, r.head.hash, s.cur.number, 0);
    HeadsFollow(db, r, s, p);
    if Undercut(n.block.number, r.pivot, r.frozen) && Lower(n.block, s.b, s.t) {
      ForcedAim(hs, r.head, p, n.block, s.b, s.t, r.b, r.t);
    }
  }

  /** One round keeps the course. */
  lemma CourseStep(db: ChainDb, r: Request, s: Stage, p: Header)
    requires Startable(db, r) && Course(db, r, s) && !Done(s.cur, s.b, s.t)
    requires OnBranch(View(db), p, r.head) && Rooted(View(db), p.hash) && OnBranch(View(db), p, s.cur)
    requires p.number == s.cur.number - 1
    ensures Course(db, r, NextStage(db, r, s, p))
  {
    AncestorOfAncestor(View(db), r.head.hash, s.cur.number, 0);
    HeadsFollow(db, r, s, p);
    BlockHeadStep(db, r, s, p);
    SnapHeadStep(db, r, s.cur, p, s.snap);
    TargetStep(db, r, s, p);
    JustifiedStep(db, r, s, p);
    AimStep(db, r, s, p);
  }

  lemma CourseStarts(db: ChainDb, r: Request)
    requires Startable(db, r)
    ensures Course(db, r, Start(r))
  {
  }

  lemma {:induction false} CourseAlong(db: ChainDb, r: Request, s: Stage)
    requires Startable(db, r) && Course(db, r, s)
    ensures var end := Rewinding(db, r, s); Course(db, r, end) && Done(end.cur, end.b, end.t)
    decreases s.cur.number
  {
    if !Done(s.cur, s.b, s.t) {
      RoundStart(View(db), r.head, s.cur, r.genesis, s.b, s.t);
      var p := View(db)[s.cur.parentHash];
      CourseStep(db, r, s, p);
      CourseAlong(db, r, NextStage(db, r, s, p));
    }
  }

  // ------------------------------------------------------------------ the end

  /** How the course ends. The header head meets both targets. The block head is where it was, or has
      state, or is genesis. A target that is not the requested one is the height of a block head that
      undercut the freezer. The header head follows such a block head all the way, except exactly when
      that is reset below the pivot; and a steady block head never is. */
  ghost predicate Conclusive(r: Request, s: Stage) {
    && Done(s.cur, s.b, s.t) && Done(s.cur, r.b, r.t)
    && (s.block == r.block || s.block.number == 0 || s.block.root in r.states)
    && (s.b != r.b || s.t != r.t ==>
          && Undercut(s.b, r.pivot, r.frozen)
          && (s.cur == s.block <==> !(r.pivot.Some? && s.block.number < r.pivot.value)))
    && ((s.b != r.b || s.t != r.t) && Steady(r) ==> s.cur == s.block)
    && (s.cur != r.head && Undercut(s.block.number, r.pivot, r.frozen) && Lower(s.block, r.b, r.t) ==> s.cur == s.block)
  }

  /** A rewind to a height does not go below it. */
  lemma TargetMet(hs: Headers, head: Header, cur: Header, b: nat)
    requires WellFormed(hs) && Rooted(hs, head.hash) && hs[head.hash] == head && b <= head.number
    requires NoneDoneAbove(hs, head, cur.number, b, 0)
    ensures b <= cur.number
  {
    assert IsAncestor(hs, Ancestor(hs, head.hash, b), head.hash);
  }

  lemma CourseEnds(db: ChainDb, r: Request, s: Stage)
    requires Startable(db, r) && Course(db, r, s) && Done(s.cur, s.b, s.t)
    ensures Conclusive(r, s)
  {
    if (s.b != r.b || s.t != r.t) && r.pivot.Some? && s.block.number < r.pivot.value {
      TargetMet(View(db), r.head, s.cur, s.b);
    }
  }

  /** What a rewind with the callback ends in. */
  lemma RewindMeans(db: ChainDb, r: Request)
    requires Startable(db, r)
    ensures var end := Rewinding(db, r, Start(r)); Course(db, r, end) && Conclusive(r, end)
  {
    CourseStarts(db, r);
    CourseAlong(db, r, Start(r));
    CourseEnds(db, r, Rewinding(db, r, Start(r)));
  }

  /** The highest block of the branch that meets a target. */
  lemma HighestDone(hs: Headers, head: Header, x: Header, b: nat, t: nat)
    requires WellFormed(hs) && Rooted(hs, head.hash) && hs[head.hash] == head && OnBranch(hs, x, head)
    requires Done(x, b, t) && NoneDoneAbove(hs, head, x.number, b, t)
    ensures t == 0 ==> x.number == Min(b, head.number)
    ensures t > 0 ==> x.time <= t
    ensures t > 0 && x != head ==> hs[Ancestor(hs, head.hash, x.number + 1)].time > t
  {
    assert IsAncestor(hs, Ancestor(hs, head.hash, Min(b, head.number)), head.hash);
    if x != head {
      assert IsAncestor(hs, Ancestor(hs, head.hash, x.number + 1), head.hash);
    }
  }

  /** Without a reason to force the target the rewind ends at the highest header that meets the
      requested one: at the requested height, or at the head if that is lower; or at the last header
      that is not later than the requested time. */
  lemma UnforcedRewind(db: ChainDb, r: Request)
    requires Startable(db, r) && !Justified(View(db), r)
    ensures var end := Rewinding(db, r, Start(r)).cur;
            && OnBranch(View(db), end, r.head) && Done(end, r.b, r.t)
            && NoneDoneAbove(View(db), r.head, end.number, r.b, r.t)
            && (r.t == 0 ==> end.number == Min(r.b, r.head.number))
            && (r.t > 0 ==> end.time <= r.t)
            && (r.t > 0 && end != r.head ==> View(db)[Ancestor(View(db), r.head.hash, end.number + 1)].time > r.t)
  {
    RewindMeans(db, r);
    HighestDone(View(db), r.head, Rewinding(db, r, Start(r)).cur, r.b, r.t);
  }

  // ------------------------------------------------------------------ with or without the callback

  /** What every round keeps, with the callback or without. With it the stage is on the way to where the
      rewind ends and every crash point has usable markers; without it the heads and the target stay,
      only the header marker has moved, and nothing removed so far met the target. */
  ghost predicate Kept(db0: ChainDb, r: Request, update: bool, mark: nat, crashes: seq<ChainDb>, s: Stage, end: Stage)
    requires WellFormed(View(db0)) && Rooted(View(db0), r.head.hash) && View(db0)[r.head.hash] == r.head
    requires Rooted(View(db0), s.cur.hash) && View(db0)[s.cur.hash] == s.cur
  {
    && mark <= |crashes|
    && if update then
         && AllMarkersOk(crashes, mark) && HeadsAgree(View(db0), s.cur, s.block, s.snap)
         && Rewinding(db0, r, s) == end
       else
         && Trail(db0, r.head, s.cur.number, crashes, mark, s.block.hash, s.snap.hash)
         && s.b == r.b && s.t == r.t && s.block == r.block && s.snap == r.snap
         && NoneDoneAbove(View(db0), r.head, s.cur.number, r.b, r.t)
  }

  lemma KeptAtTheStart(db0: ChainDb, r: Request, update: bool, crashes: seq<ChainDb>)
    requires Startable(db0, r)
    ensures Kept(db0, r, update, |crashes|, crashes, Start(r), Rewinding(db0, r, Start(r)))
  {
  }
}
