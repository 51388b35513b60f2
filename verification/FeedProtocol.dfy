/**
 The feed as a concurrent protocol (event/feed.go, event/feedof.go): every interleaving of
 Subscribe, Send and Unsubscribe.

 A state holds the shared lists, the phase of the thread that holds the send lock, and the
 progress of every subscription. One action is one atomic step of one thread: what happens
 under the mutex `mu`, one channel operation, or one update of the case list by the thread
 that holds the send lock. The remove channel in slot 0 of the case list is left out here, so
 that positions start at 0. `log`, `recv`, `first` and `at` are history: the sends in the order
 in which they took the send lock, what was delivered to each subscription's entry, where in
 the log its deliveries start, and how many sends had taken the lock when it subscribed.
 */
module FeedProtocol {
  import opened Sequences
  import opened CaseList

  type Value = int

  /** An entry of the inbox or of the case list, named after the Subscribe call that made it. */
  datatype Entry = Entry(id: nat, ch: Chan)

  /** Live: Unsubscribe was not called. Waiting: Unsubscribe did not find the channel in the inbox
      and waits for the send lock or for the remove channel. Over: Unsubscribe has returned. */
  datatype Status = Live | Waiting | Over

  datatype Sub = Sub(ch: Chan, status: Status)

  /** What the holder of the send lock is doing: nobody holds it; it holds the lock and has not
      merged the inbox; it is sending, with the first `k` entries still to be served; or it has
      just received a channel that it must delete. */
  datatype Phase = Idle | Merging | Sending(k: nat) | Removing(k: nat, ch: Chan)

  datatype History = History(log: seq<Value>, recv: seq<seq<Value>>, first: seq<nat>, at: seq<nat>)

  datatype State = State(
    inbox: seq<Entry>,
    cases: seq<Entry>,
    phase: Phase,
    subs: seq<Sub>,
    h: History
  )

  datatype Action =
    | Subscribe(ch: Chan)
    | UnsubscribeInbox(sub: nat)     // found in the inbox and deleted there
    | UnsubscribeMiss(sub: nat)      // not found in the inbox
    | RemoveWithLock(sub: nat)       // takes the send lock, deletes, gives it back
    | RemoveThroughSend(sub: nat)    // hands the channel to the sender and returns
    | TakeLock(value: Value)         // a Send takes the send lock
    | MergeInbox
    | Deliver(i: nat)                // the value goes out on entry `i`
    | DeleteRemoved                  // the sender deletes the channel it was handed
    | ReleaseLock

  function ChanOf(e: Entry): Chan { e.ch }

  /** The position that `find` reports, or -1. */
  function Find(es: seq<Entry>, ch: Chan): (r: int)
    ensures FoundAt(es, ChanOf, ch, r)
  {
    if es == [] then -1
    else
      var r := Find(es[..|es| - 1], ch);
      if r != -1 then r else if es[|es| - 1].ch == ch then |es| - 1 else -1
  }

  function Init(): State {
    State([], [], Idle, [], History([], [], [], []))
  }

  predicate Enabled(s: State, a: Action) {
    match a
    case Subscribe(ch) => true
    case UnsubscribeInbox(i) => i < |s.subs| && s.subs[i].status == Live && Find(s.inbox, s.subs[i].ch) != -1
    case UnsubscribeMiss(i) => i < |s.subs| && s.subs[i].status == Live && Find(s.inbox, s.subs[i].ch) == -1
    case RemoveWithLock(i) => i < |s.subs| && s.subs[i].status == Waiting && s.phase == Idle
    case RemoveThroughSend(i) => i < |s.subs| && s.subs[i].status == Waiting && s.phase.Sending? && s.phase.k > 0
    case TakeLock(v) => s.phase == Idle
    case MergeInbox => s.phase == Merging
    case Deliver(i) => s.phase.Sending? && i < s.phase.k
    case DeleteRemoved => s.phase.Removing?
    case ReleaseLock => s.phase == Sending(0)
  }

  /** Every reachable state has this shape, so the actions below always have what they need. */
  predicate InRange(s: State) {
    && (s.phase.Sending? || s.phase.Removing? ==> s.phase.k <= |s.cases|)
    && (s.phase != Idle ==> s.h.log != [])
    && (forall i :: 0 <= i < |s.cases| ==> s.cases[i].id < |s.h.recv|)
  }

  /** Deleting position -1 would panic; the list is then left alone here. */
  function DeleteFound(es: seq<Entry>, index: int): seq<Entry>
    requires index < |es|
  {
    if index < 0 then es else DeletedAt(es, index)
  }

  /** Entry positions from which deliveries of merged entries start. */
  function Started(first: seq<nat>, es: seq<Entry>, n: nat): (r: seq<nat>)
    ensures |r| == |first|
    ensures forall i :: 0 <= i < |first| ==> r[i] == if exists j :: 0 <= j < |es| && es[j].id == i then n else first[i]
  {
    if es == [] then first
    else
      var r := Started(first, es[..|es| - 1], n);
      var id := es[|es| - 1].id;
      if id < |r| then r[id := n] else r
  }

  function Next(s: State, a: Action): State
    requires Enabled(s, a) && InRange(s)
  {
    match a
    case Subscribe(ch) =>
      s.(inbox := s.inbox + [Entry(|s.subs|, ch)], subs := s.subs + [Sub(ch, Live)],
         h := s.h.(recv := s.h.recv + [[]], first := s.h.first + [0], at := s.h.at + [|s.h.log|]))
    case UnsubscribeInbox(i) =>
      s.(inbox := DeleteFound(s.inbox, Find(s.inbox, s.subs[i].ch)), subs := s.subs[i := s.subs[i].(status := Over)])
    case UnsubscribeMiss(i) =>
      s.(subs := s.subs[i := s.subs[i].(status := Waiting)])
    case RemoveWithLock(i) =>
      s.(cases := DeleteFound(s.cases, Find(s.cases, s.subs[i].ch)), subs := s.subs[i := s.subs[i].(status := Over)])
    case RemoveThroughSend(i) =>
      s.(phase := Removing(s.phase.k, s.subs[i].ch), subs := s.subs[i := s.subs[i].(status := Over)])
    case TakeLock(v) =>
      s.(phase := Merging, h := s.h.(log := s.h.log + [v]))
    case MergeInbox =>
      s.(cases := s.cases + s.inbox, inbox := [], phase := Sending(|s.cases| + |s.inbox|),
         h := s.h.(first := Started(s.h.first, s.inbox, |s.h.log| - 1)))
    case Deliver(i) =>
      var id := s.cases[i].id;
      s.(cases := SwappedOut(s.cases, s.phase.k, i), phase := Sending(s.phase.k - 1),
         h := s.h.(recv := s.h.recv[id := s.h.recv[id] + [s.h.log[|s.h.log| - 1]]]))
    case DeleteRemoved =>
      var index := Find(s.cases, s.phase.ch);
      s.(cases := DeleteFound(s.cases, index),
         phase := Sending(if 0 <= index < s.phase.k then s.phase.k - 1 else s.phase.k))
    case ReleaseLock =>
      s.(phase := Idle)
  }

  // ------------------------------------------------------------------ counting

  /** How often channel `ch` occurs. */
  ghost function Num(es: seq<Entry>, ch: Chan): nat {
    if es == [] then 0
    else Num(es[..|es| - 1], ch) + if es[|es| - 1].ch == ch then 1 else 0
  }

  lemma {:induction false} NumOfConcat(a: seq<Entry>, b: seq<Entry>, ch: Chan)
    ensures Num(a + b, ch) == Num(a, ch) + Num(b, ch)
  {
    if b == [] {
      assert a + b == a;
    } else {
      NumOfConcat(a, b[..|b| - 1], ch);
      assert (a + b)[..|a + b| - 1] == a + b[..|b| - 1];
    }
  }

  lemma NumSplit(es: seq<Entry>, i: nat, ch: Chan)
    requires i < |es|
    ensures Num(es, ch) == Num(es[..i], ch) + Num([es[i]], ch) + Num(es[i + 1..], ch)
  {
    NumOfConcat(es[..i] + [es[i]], es[i + 1..], ch);
    NumOfConcat(es[..i], [es[i]], ch);
    assert es == es[..i] + [es[i]] + es[i + 1..];
  }

  lemma NumOfOne(e: Entry, ch: Chan)
    ensures Num([e], ch) == if e.ch == ch then 1 else 0
  {
    assert [e][..0] == [];
  }

  lemma NumOfDeleted(es: seq<Entry>, i: nat, ch: Chan)
    requires i < |es|
    ensures Num(es, ch) == Num(DeletedAt(es, i), ch) + if es[i].ch == ch then 1 else 0
  {
    NumSplit(es, i, ch);
    NumOfOne(es[i], ch);
    NumOfConcat(es[..i], es[i + 1..], ch);
  }

  lemma NumOfUpdated(es: seq<Entry>, i: nat, e: Entry, ch: Chan)
    requires i < |es|
    ensures Num(es[i := e], ch) + Num([es[i]], ch) == Num(es, ch) + Num([e], ch)
  {
    NumSplit(es, i, ch);
    NumSplit(es[i := e], i, ch);
    assert es[i := e][..i] == es[..i] && es[i := e][i + 1..] == es[i + 1..];
  }

  lemma NumOfSwapped(es: seq<Entry>, k: nat, i: nat, ch: Chan)
    requires i < k <= |es|
    ensures Num(SwappedOut(es, k, i), ch) == Num(es, ch)
  {
    NumOfUpdated(es, i, es[k - 1], ch);
    NumOfUpdated(es[i := es[k - 1]], k - 1, es[i], ch);
  }

  /** `find` fails exactly on the channels that do not occur. */
  lemma {:induction false} FindOrNone(es: seq<Entry>, ch: Chan)
    ensures Find(es, ch) == -1 <==> Num(es, ch) == 0
  {
    if es != [] {
      FindOrNone(es[..|es| - 1], ch);
    }
  }

  lemma Occurs(es: seq<Entry>, i: nat)
    requires i < |es|
    ensures Num(es, es[i].ch) > 0
  {
    FindOrNone(es, es[i].ch);
    assert ChanOf(es[i]) == es[i].ch;
  }

  /** How many subscriptions of channel `ch` are in one of these statuses. */
  ghost function Subs(subs: seq<Sub>, ss: set<Status>, ch: Chan): nat {
    if subs == [] then 0
    else Subs(subs[..|subs| - 1], ss, ch) + One(subs[|subs| - 1], ss, ch)
  }

  ghost function One(sub: Sub, ss: set<Status>, ch: Chan): nat {
    if sub.ch == ch && sub.status in ss then 1 else 0
  }

  lemma SubsExtended(subs: seq<Sub>, sub: Sub, ss: set<Status>, ch: Chan)
    ensures Subs(subs + [sub], ss, ch) == Subs(subs, ss, ch) + One(sub, ss, ch)
  {
    assert (subs + [sub])[..|subs|] == subs;
  }

  lemma {:induction false} SubsUpdated(subs: seq<Sub>, i: nat, sub: Sub, ss: set<Status>, ch: Chan)
    requires i < |subs|
    ensures Subs(subs[i := sub], ss, ch) + One(subs[i], ss, ch) == Subs(subs, ss, ch) + One(sub, ss, ch)
  {
    var n := |subs| - 1;
    if i < n {
      SubsUpdated(subs[..n], i, sub, ss, ch);
      assert subs[i := sub][..n] == subs[..n][i := sub];
    } else {
      assert subs[i := sub][..n] == subs[..n];
    }
  }

  /** A positive number of subscriptions has a member, and the other way round. */
  lemma {:induction false} SomeSub(subs: seq<Sub>, ss: set<Status>, ch: Chan)
    ensures Subs(subs, ss, ch) > 0 <==> exists i :: 0 <= i < |subs| && subs[i].ch == ch && subs[i].status in ss
  {
    var n := |subs| - 1;
    if subs != [] {
      SomeSub(subs[..n], ss, ch);
      if One(subs[n], ss, ch) > 0 {
        assert subs[n].ch == ch;
      }
    }
  }

  lemma {:induction false} WaitersAreSubs(subs: seq<Sub>, ch: Chan)
    ensures Subs(subs, {Waiting}, ch) <= Subs(subs, {Live, Waiting}, ch)
  {
    if subs != [] {
      WaitersAreSubs(subs[..|subs| - 1], ch);
    }
  }

  /** A channel that the sender was handed and has not deleted yet. */
  ghost function Owed(s: State, ch: Chan): nat {
    if s.phase.Removing? && s.phase.ch == ch then 1 else 0
  }

  /** Channel `ch` occurs in inbox and case list together exactly as often as it has subscriptions
      that are not over, and the case list covers everyone who waits for its removal. */
  ghost predicate CountedAt(s: State, ch: Chan) {
    && Num(s.inbox, ch) + Num(s.cases, ch) == Subs(s.subs, {Live, Waiting}, ch) + Owed(s, ch)
    && Subs(s.subs, {Waiting}, ch) + Owed(s, ch) <= Num(s.cases, ch)
  }

  ghost predicate Counted(s: State) {
    forall ch: Chan :: CountedAt(s, ch)
  }

  lemma SubscribeCounted(s: State, c: Chan, ch: Chan)
    requires CountedAt(s, ch) && InRange(s)
    ensures CountedAt(Next(s, Subscribe(c)), ch)
  {
    var sub, e := Sub(c, Live), Entry(|s.subs|, c);
    NumOfConcat(s.inbox, [e], ch);
    NumOfOne(e, ch);
    SubsExtended(s.subs, sub, {Live, Waiting}, ch);
    SubsExtended(s.subs, sub, {Waiting}, ch);
  }

  lemma UnsubscribeInboxCounted(s: State, i: nat, ch: Chan)
    requires CountedAt(s, ch) && InRange(s) && Enabled(s, UnsubscribeInbox(i))
    ensures CountedAt(Next(s, UnsubscribeInbox(i)), ch)
  {
    var c := s.subs[i].ch;
    SubsUpdated(s.subs, i, Sub(c, Over), {Live, Waiting}, ch);
    SubsUpdated(s.subs, i, Sub(c, Over), {Waiting}, ch);
    NumOfDeleted(s.inbox, Find(s.inbox, c), ch);
  }

  /** Who does not find their channel in the inbox has an entry in the case list that nobody else
      is waiting for. */
  lemma UnsubscribeMissCounted(s: State, i: nat, ch: Chan)
    requires CountedAt(s, ch) && InRange(s) && Enabled(s, UnsubscribeMiss(i))
    ensures CountedAt(Next(s, UnsubscribeMiss(i)), ch)
  {
    var c := s.subs[i].ch;
    var subs := s.subs[i := Sub(c, Waiting)];
    SubsUpdated(s.subs, i, Sub(c, Waiting), {Live, Waiting}, ch);
    SubsUpdated(s.subs, i, Sub(c, Waiting), {Waiting}, ch);
    FindOrNone(s.inbox, c);
    WaitersAreSubs(subs, ch);
  }

  lemma RemoveCounted(s: State, a: Action, ch: Chan)
    requires Counted(s) && InRange(s) && Enabled(s, a) && (a.RemoveWithLock? || a.RemoveThroughSend?)
    ensures Find(s.cases, s.subs[a.sub].ch) != -1
    ensures CountedAt(Next(s, a), ch)
  {
    var i, c := a.sub, s.subs[a.sub].ch;
    SubsUpdated(s.subs, i, Sub(c, Over), {Live, Waiting}, ch);
    SubsUpdated(s.subs, i, Sub(c, Over), {Waiting}, ch);
    assert CountedAt(s, c) && CountedAt(s, ch);
    SomeSub(s.subs, {Waiting}, c);
    FindOrNone(s.cases, c);
    if a.RemoveWithLock? {
      NumOfDeleted(s.cases, Find(s.cases, c), ch);
    }
  }

  lemma SenderCounted(s: State, a: Action, ch: Chan)
    requires Counted(s) && InRange(s) && Enabled(s, a)
    requires a.TakeLock? || a.MergeInbox? || a.Deliver? || a.DeleteRemoved? || a.ReleaseLock?
    ensures a.DeleteRemoved? ==> Find(s.cases, s.phase.ch) != -1
    ensures CountedAt(Next(s, a), ch)
  {
    assert CountedAt(s, ch);
    match a
    case MergeInbox =>
      NumOfConcat(s.cases, s.inbox, ch);
    case Deliver(i) =>
      NumOfSwapped(s.cases, s.phase.k, i, ch);
    case DeleteRemoved =>
      assert CountedAt(s, s.phase.ch);
      FindOrNone(s.cases, s.phase.ch);
      NumOfDeleted(s.cases, Find(s.cases, s.phase.ch), ch);
    case _ =>
  }

  lemma CountedAfter(s: State, a: Action)
    requires Counted(s) && InRange(s) && Enabled(s, a)
    ensures Counted(Next(s, a))
  {
    forall ch: Chan ensures CountedAt(Next(s, a), ch) {
      assert CountedAt(s, ch);
      match a
      case Subscribe(c) => SubscribeCounted(s, c, ch);
      case UnsubscribeInbox(i) => UnsubscribeInboxCounted(s, i, ch);
      case UnsubscribeMiss(i) => UnsubscribeMissCounted(s, i, ch);
      case RemoveWithLock(_) => RemoveCounted(s, a, ch);
      case RemoveThroughSend(_) => RemoveCounted(s, a, ch);
      case _ => SenderCounted(s, a, ch);
    }
  }

  // ------------------------------------------------------------------ entries

  /** Every entry belongs to one subscription, on its channel, and no subscription has two. */
  ghost predicate Good(es: seq<Entry>, subs: seq<Sub>) {
    && (forall i :: 0 <= i < |es| ==> es[i].id < |subs| && subs[es[i].id].ch == es[i].ch)
    && (forall i, j :: 0 <= i < j < |es| ==> es[i].id != es[j].id)
  }

  ghost function All(s: State): seq<Entry> {
    s.cases + s.inbox
  }

  ghost predicate Apart(cases: seq<Entry>, inbox: seq<Entry>) {
    forall i, j :: 0 <= i < |cases| && 0 <= j < |inbox| ==> cases[i].id != inbox[j].id
  }

  lemma GoodParts(cases: seq<Entry>, inbox: seq<Entry>, subs: seq<Sub>)
    requires Good(cases + inbox, subs)
    ensures Good(cases, subs) && Good(inbox, subs) && Apart(cases, inbox)
  {
    var all := cases + inbox;
    assert forall i :: 0 <= i < |cases| ==> all[i] == cases[i];
    assert forall i :: 0 <= i < |inbox| ==> all[|cases| + i] == inbox[i];
  }

  ghost predicate Owned(s: State) {
    && |s.h.recv| == |s.subs| && |s.h.first| == |s.subs| && |s.h.at| == |s.subs|
    && Good(All(s), s.subs) && Good(s.cases, s.subs) && Good(s.inbox, s.subs) && Apart(s.cases, s.inbox)
  }

  lemma GoodDeleted(es: seq<Entry>, i: nat, subs: seq<Sub>)
    requires Good(es, subs) && i < |es|
    ensures Good(DeletedAt(es, i), subs)
  {
  }

  lemma GoodSwapped(es: seq<Entry>, k: nat, i: nat, subs: seq<Sub>)
    requires Good(es, subs) && i < k <= |es|
    ensures Good(SwappedOut(es, k, i), subs)
  {
  }

  lemma GoodExtended(es: seq<Entry>, subs: seq<Sub>, ch: Chan)
    requires Good(es, subs)
    ensures Good(es + [Entry(|subs|, ch)], subs + [Sub(ch, Live)])
  {
  }

  /** Deletion from the case list or the inbox is deletion from both together. */
  lemma GoodShorter(cases: seq<Entry>, inbox: seq<Entry>, index: int, subs: seq<Sub>)
    requires Good(cases + inbox, subs)
    ensures index < |cases| ==> Good(DeleteFound(cases, index) + inbox, subs)
    ensures index < |inbox| ==> Good(cases + DeleteFound(inbox, index), subs)
  {
    if 0 <= index < |cases| {
      GoodDeleted(cases + inbox, index, subs);
      assert DeletedAt(cases + inbox, index) == DeletedAt(cases, index) + inbox;
    }
    if 0 <= index < |inbox| {
      GoodDeleted(cases + inbox, |cases| + index, subs);
      assert DeletedAt(cases + inbox, |cases| + index) == cases + DeletedAt(inbox, index);
    }
  }

  lemma GoodLonger(cases: seq<Entry>, inbox: seq<Entry>, subs: seq<Sub>, ch: Chan)
    requires Good(cases + inbox, subs)
    ensures Good(cases + (inbox + [Entry(|subs|, ch)]), subs + [Sub(ch, Live)])
  {
    GoodExtended(cases + inbox, subs, ch);
    assert cases + (inbox + [Entry(|subs|, ch)]) == cases + inbox + [Entry(|subs|, ch)];
  }

  lemma GoodServed(cases: seq<Entry>, inbox: seq<Entry>, subs: seq<Sub>, k: nat, i: nat)
    requires Good(cases + inbox, subs) && i < k <= |cases|
    ensures Good(SwappedOut(cases, k, i) + inbox, subs)
  {
    GoodSwapped(cases + inbox, k, i, subs);
    assert SwappedOut(cases, k, i) + inbox == SwappedOut(cases + inbox, k, i);
  }

  /** Only channels and ids matter, not statuses. */
  lemma GoodStatus(es: seq<Entry>, subs: seq<Sub>, i: nat, status: Status)
    requires Good(es, subs) && i < |subs|
    ensures Good(es, subs[i := subs[i].(status := status)])
  {
  }

  lemma AllGoodAfter(s: State, a: Action)
    requires Good(All(s), s.subs) && InRange(s) && Enabled(s, a)
    ensures Good(All(Next(s, a)), Next(s, a).subs)
  {
    match a
    case Subscribe(ch) => GoodLonger(s.cases, s.inbox, s.subs, ch);
    case UnsubscribeInbox(i) =>
      GoodShorter(s.cases, s.inbox, Find(s.inbox, s.subs[i].ch), s.subs);
      GoodStatus(All(Next(s, a)), s.subs, i, Over);
    case UnsubscribeMiss(i) => GoodStatus(All(s), s.subs, i, Waiting);
    case RemoveWithLock(i) =>
      GoodShorter(s.cases, s.inbox, Find(s.cases, s.subs[i].ch), s.subs);
      GoodStatus(All(Next(s, a)), s.subs, i, Over);
    case RemoveThroughSend(i) => GoodStatus(All(s), s.subs, i, Over);
    case DeleteRemoved => GoodShorter(s.cases, s.inbox, Find(s.cases, s.phase.ch), s.subs);
    case MergeInbox => assert s.cases + s.inbox + [] == All(s);
    case Deliver(i) => GoodServed(s.cases, s.inbox, s.subs, s.phase.k, i);
    case _ =>
  }

  lemma OwnedAfter(s: State, a: Action)
    requires Owned(s) && InRange(s) && Enabled(s, a)
    ensures Owned(Next(s, a))
  {
    AllGoodAfter(s, a);
    GoodParts(Next(s, a).cases, Next(s, a).inbox, Next(s, a).subs);
  }

  // ------------------------------------------------------------------ order of delivery

  /** The entry at position `i` of the case list still has to get the newest send. */
  ghost predicate Pending(phase: Phase, i: nat) {
    match phase
    case Idle => false
    case Merging => true
    case Sending(k) => i < k
    case Removing(k, _) => i < k
  }

  /** What a subscription received is a run of consecutive sends, each once and in the order of
      the send lock, that starts with the first send to take the lock after Subscribe or with the
      one that was about to merge the inbox then. */
  ghost predicate Received(h: History, id: nat)
    requires id < |h.recv| && id < |h.first| && id < |h.at|
  {
    var f, n := h.first[id], |h.recv[id]|;
    && f + n <= |h.log| && h.recv[id] == h.log[f..f + n]
    && h.at[id] <= |h.log| && (n > 0 ==> f <= h.at[id] <= f + 1)
  }

  /** A merged entry has everything up to the newest send, which it may still await. */
  ghost predicate UpToDate(h: History, id: nat, pending: bool)
    requires id < |h.recv| && id < |h.first| && id < |h.at|
  {
    && h.first[id] <= h.at[id] <= h.first[id] + 1
    && h.first[id] + |h.recv[id]| == |h.log| - if pending then 1 else 0
  }

  /** An entry of the inbox has nothing yet; it came after the last merge. */
  ghost predicate JustSubscribed(h: History, id: nat, merging: bool)
    requires id < |h.recv| && id < |h.first| && id < |h.at|
  {
    h.recv[id] == [] && h.first[id] == 0 && |h.log| - (if merging then 1 else 0) <= h.at[id] <= |h.log|
  }

  ghost predicate AllReceived(s: State)
    requires |s.h.recv| == |s.h.first| == |s.h.at|
  {
    forall id :: 0 <= id < |s.h.recv| ==> Received(s.h, id)
  }

  ghost predicate AllUpToDate(s: State)
    requires Owned(s)
  {
    forall i :: 0 <= i < |s.cases| ==> UpToDate(s.h, s.cases[i].id, Pending(s.phase, i))
  }

  ghost predicate InboxFresh(s: State)
    requires Owned(s)
  {
    forall i :: 0 <= i < |s.inbox| ==> JustSubscribed(s.h, s.inbox[i].id, s.phase == Merging)
  }

  /** Merging the inbox starts its entries at the newest send and nobody else's. */
  lemma MergedFirst(s: State, id: nat)
    requires Owned(s) && id < |s.h.first| && s.h.log != []
    ensures var r := Started(s.h.first, s.inbox, |s.h.log| - 1);
            && (forall j :: 0 <= j < |s.inbox| && s.inbox[j].id == id ==> r[id] == |s.h.log| - 1)
            && (forall i :: 0 <= i < |s.cases| && s.cases[i].id == id ==> r[id] == s.h.first[id])
            && ((forall j :: 0 <= j < |s.inbox| ==> s.inbox[j].id != id) ==> r[id] == s.h.first[id])
  {
  }

  lemma ReceivedMerged(s: State, id: nat)
    requires Owned(s) && InRange(s) && s.phase == Merging && id < |s.subs| && Received(s.h, id) && InboxFresh(s)
    ensures Received(Next(s, MergeInbox).h, id)
  {
    MergedFirst(s, id);
    if j :| 0 <= j < |s.inbox| && s.inbox[j].id == id {
      assert JustSubscribed(s.h, s.inbox[j].id, s.phase == Merging);
    }
  }

  lemma ReceivedDelivered(s: State, i: nat, id: nat)
    requires Owned(s) && InRange(s) && Enabled(s, Deliver(i)) && id < |s.subs| && Received(s.h, id) && AllUpToDate(s)
    ensures Received(Next(s, Deliver(i)).h, id)
  {
    assert UpToDate(s.h, s.cases[i].id, true);
  }

  lemma ReceivedAfter(s: State, a: Action, id: nat)
    requires Owned(s) && InRange(s) && Enabled(s, a) && AllReceived(s) && AllUpToDate(s) && InboxFresh(s)
    requires id < |Next(s, a).h.recv| == |Next(s, a).h.first| == |Next(s, a).h.at|
    ensures Received(Next(s, a).h, id)
  {
    if id < |s.subs| {
      assert Received(s.h, id);
    }
    match a
    case MergeInbox => ReceivedMerged(s, id);
    case Deliver(i) => ReceivedDelivered(s, i, id);
    case _ =>
  }

  lemma UpToDateMerged(s: State, i: nat)
    requires Owned(s) && InRange(s) && s.phase == Merging && AllUpToDate(s) && InboxFresh(s) && i < |All(s)|
    ensures UpToDate(Next(s, MergeInbox).h, All(s)[i].id, true)
  {
    MergedFirst(s, All(s)[i].id);
    if i < |s.cases| {
      assert UpToDate(s.h, s.cases[i].id, true);
    } else {
      assert JustSubscribed(s.h, s.inbox[i - |s.cases|].id, s.phase == Merging);
    }
  }

  lemma UpToDateDelivered(s: State, d: nat, i: nat)
    requires Owned(s) && InRange(s) && Enabled(s, Deliver(d)) && AllUpToDate(s) && i < |s.cases|
    ensures var s' := Next(s, Deliver(d)); UpToDate(s'.h, s'.cases[i].id, i < s.phase.k - 1)
  {
    var j := if i == d then s.phase.k - 1 else if i == s.phase.k - 1 then d else i;
    assert UpToDate(s.h, s.cases[j].id, Pending(s.phase, j));
  }

  lemma UpToDateShorter(s: State, index: int, i: nat)
    requires Owned(s) && AllUpToDate(s) && index < |s.cases| && i < |DeleteFound(s.cases, index)|
    ensures DeleteFound(s.cases, index)[i].id < |s.h.recv|
    ensures UpToDate(s.h, DeleteFound(s.cases, index)[i].id, Pending(s.phase, if 0 <= index <= i then i + 1 else i))
  {
    var j := if 0 <= index <= i then i + 1 else i;
    assert DeleteFound(s.cases, index)[i] == s.cases[j];
    assert UpToDate(s.h, s.cases[j].id, Pending(s.phase, j));
  }

  lemma UpToDateOther(s: State, a: Action, i: nat)
    requires Owned(s) && InRange(s) && Enabled(s, a) && AllUpToDate(s)
    requires !a.MergeInbox? && !a.Deliver? && !a.RemoveWithLock? && !a.DeleteRemoved?
    requires Owned(Next(s, a)) && i < |Next(s, a).cases|
    ensures UpToDate(Next(s, a).h, Next(s, a).cases[i].id, Pending(Next(s, a).phase, i))
  {
    assert UpToDate(s.h, s.cases[i].id, Pending(s.phase, i));
  }

  lemma UpToDateAfter(s: State, a: Action, i: nat)
    requires Owned(s) && InRange(s) && Enabled(s, a) && AllUpToDate(s) && InboxFresh(s)
    requires Owned(Next(s, a)) && i < |Next(s, a).cases|
    ensures UpToDate(Next(s, a).h, Next(s, a).cases[i].id, Pending(Next(s, a).phase, i))
  {
    match a
    case MergeInbox => UpToDateMerged(s, i);
    case Deliver(d) => UpToDateDelivered(s, d, i);
    case RemoveWithLock(n) => UpToDateShorter(s, Find(s.cases, s.subs[n].ch), i);
    case DeleteRemoved => UpToDateShorter(s, Find(s.cases, s.phase.ch), i);
    case _ => UpToDateOther(s, a, i);
  }

  lemma InboxFreshAfter(s: State, a: Action, i: nat)
    requires Owned(s) && InRange(s) && Enabled(s, a) && InboxFresh(s)
    requires Owned(Next(s, a)) && i < |Next(s, a).inbox|
    ensures JustSubscribed(Next(s, a).h, Next(s, a).inbox[i].id, Next(s, a).phase == Merging)
  {
    if a.UnsubscribeInbox? {
      var j := if Find(s.inbox, s.subs[a.sub].ch) <= i then i + 1 else i;
      assert JustSubscribed(s.h, s.inbox[j].id, s.phase == Merging);
    } else if i < |s.inbox| {
      assert JustSubscribed(s.h, s.inbox[i].id, s.phase == Merging);
    }
  }

  // ------------------------------------------------------------------ every run

  ghost predicate Inv(s: State) {
    Owned(s) && InRange(s) && Counted(s) && AllReceived(s) && AllUpToDate(s) && InboxFresh(s)
  }

  lemma InRangeAfter(s: State, a: Action)
    requires InRange(s) && Enabled(s, a) && Owned(s) && Owned(Next(s, a)) && Counted(s)
    ensures InRange(Next(s, a))
  {
    if a.DeleteRemoved? {
      SenderCounted(s, a, 0);
    }
  }

  lemma InvAfter(s: State, a: Action)
    requires Inv(s) && Enabled(s, a)
    ensures Inv(Next(s, a))
  {
    var s' := Next(s, a);
    OwnedAfter(s, a);
    CountedAfter(s, a);
    InRangeAfter(s, a);
    forall id | 0 <= id < |s'.h.recv| ensures Received(s'.h, id) { ReceivedAfter(s, a, id); }
    forall i | 0 <= i < |s'.cases| ensures UpToDate(s'.h, s'.cases[i].id, Pending(s'.phase, i)) {
      UpToDateAfter(s, a, i);
    }
    forall i | 0 <= i < |s'.inbox| ensures JustSubscribed(s'.h, s'.inbox[i].id, s'.phase == Merging) {
      InboxFreshAfter(s, a, i);
    }
  }

  /** The actions can be taken one after the other from `s`. */
  ghost predicate IsRun(s: State, run: seq<Action>)
    decreases |run|
  {
    run != [] ==> Enabled(s, run[0]) && InRange(s) && IsRun(Next(s, run[0]), run[1..])
  }

  ghost function After(s: State, run: seq<Action>): State
    requires IsRun(s, run)
    decreases |run|
  {
    if run == [] then s else After(Next(s, run[0]), run[1..])
  }

  lemma {:induction false} InvAlong(s: State, run: seq<Action>)
    requires Inv(s) && IsRun(s, run)
    ensures Inv(After(s, run))
    decreases |run|
  {
    if run != [] {
      InvAfter(s, run[0]);
      InvAlong(Next(s, run[0]), run[1..]);
    }
  }

  lemma InvInitially()
    ensures Inv(Init())
  {
  }

  // ------------------------------------------------------------------ what a run asks for

  /** The values that are sent, in the order in which their sends take the lock. */
  ghost function Sent(run: seq<Action>): seq<Value> {
    if run == [] then []
    else (if run[0].TakeLock? then [run[0].value] else []) + Sent(run[1..])
  }

  /** For every Subscribe, in order: its channel, and how many sends have taken the lock by then, when
      `n` have at the beginning. */
  ghost function Joins(run: seq<Action>, n: nat): seq<(Chan, nat)> {
    if run == [] then []
    else if run[0].Subscribe? then [(run[0].ch, n)] + Joins(run[1..], n)
    else Joins(run[1..], if run[0].TakeLock? then n + 1 else n)
  }

  /** The subscriptions and the points at which they were made, as `Joins` gives them. */
  ghost predicate JoinedAs(s: State, joins: seq<(Chan, nat)>) {
    && |s.subs| == |s.h.at| == |joins|
    && (forall id :: 0 <= id < |joins| ==> (s.subs[id].ch, s.h.at[id]) == joins[id])
  }

  lemma LogNext(s: State, a: Action)
    requires Enabled(s, a) && InRange(s)
    ensures Next(s, a).h.log == if a.TakeLock? then s.h.log + [a.value] else s.h.log
  {
  }

  lemma JoinedNext(s: State, a: Action, joins: seq<(Chan, nat)>)
    requires Enabled(s, a) && InRange(s) && JoinedAs(s, joins)
    ensures JoinedAs(Next(s, a), if a.Subscribe? then joins + [(a.ch, |s.h.log|)] else joins)
  {
  }

  lemma SentSplits(log: seq<Value>, run: seq<Action>)
    requires run != []
    ensures (if run[0].TakeLock? then log + [run[0].value] else log) + Sent(run[1..]) == log + Sent(run)
  {
    if run[0].TakeLock? {
      assert log + [run[0].value] + Sent(run[1..]) == log + ([run[0].value] + Sent(run[1..]));
    } else {
      assert [] + Sent(run[1..]) == Sent(run[1..]);
    }
  }

  lemma JoinsSplit(joins: seq<(Chan, nat)>, run: seq<Action>, n: nat)
    requires run != []
    ensures (if run[0].Subscribe? then joins + [(run[0].ch, n)] else joins)
            + Joins(run[1..], if run[0].TakeLock? then n + 1 else n) == joins + Joins(run, n)
  {
    if run[0].Subscribe? {
      assert joins + [(run[0].ch, n)] + Joins(run[1..], n) == joins + ([(run[0].ch, n)] + Joins(run[1..], n));
    }
  }

  /** The history of a run is what its actions say. */
  lemma {:induction false} HistoryOf(s: State, run: seq<Action>, joins: seq<(Chan, nat)>)
    requires IsRun(s, run) && JoinedAs(s, joins)
    ensures After(s, run).h.log == s.h.log + Sent(run)
    ensures JoinedAs(After(s, run), joins + Joins(run, |s.h.log|))
    decreases |run|
  {
    if run == [] {
      assert s.h.log + [] == s.h.log && joins + [] == joins;
    } else {
      LogNext(s, run[0]);
      JoinedNext(s, run[0], joins);
      SentSplits(s.h.log, run);
      JoinsSplit(joins, run, |s.h.log|);
      HistoryOf(Next(s, run[0]), run[1..], if run[0].Subscribe? then joins + [(run[0].ch, |s.h.log|)] else joins);
    }
  }

  /** All that is known of a reachable state. */
  lemma Reachable(run: seq<Action>)
    requires IsRun(Init(), run)
    ensures var s := After(Init(), run); Inv(s) && s.h.log == Sent(run) && JoinedAs(s, Joins(run, 0))
  {
    InvInitially();
    InvAlong(Init(), run);
    HistoryOf(Init(), run, []);
    assert [] + Sent(run) == Sent(run) && [] + Joins(run, 0) == Joins(run, 0);
  }

  /** In every reachable state subscription `id` is that of the Subscribe number `id`, and what was
      delivered to it are consecutive sends, in order and without duplicates, that start with the
      first send to take the lock after that Subscribe or with the one before. */
  lemma DeliveriesInOrder(run: seq<Action>, id: nat)
    requires IsRun(Init(), run) && id < |Joins(run, 0)|
    ensures var s, sent, join := After(Init(), run), Sent(run), Joins(run, 0)[id];
            && id < |s.h.recv| && id < |s.h.first| && id < |s.subs| && s.subs[id].ch == join.0
            && var f, n := s.h.first[id], |s.h.recv[id]|;
            && f + n <= |sent| && s.h.recv[id] == sent[f..f + n] && (n > 0 ==> f <= join.1 <= f + 1)
  {
    Reachable(run);
    assert Received(After(Init(), run).h, id);
  }

  /** Between sends every entry of the case list has got every send from its first on, and that is
      the first send to take the lock after Subscribe or the one before. */
  lemma NobodyIsMissed(run: seq<Action>, i: nat)
    requires IsRun(Init(), run) && After(Init(), run).phase == Idle && i < |After(Init(), run).cases|
    ensures var s, sent := After(Init(), run), Sent(run); var id := s.cases[i].id;
            && id < |s.h.recv| && id < |s.h.first| && id < |Joins(run, 0)| && s.cases[i].ch == Joins(run, 0)[id].0
            && s.h.first[id] <= Joins(run, 0)[id].1 <= s.h.first[id] + 1
            && s.h.first[id] <= |sent| && s.h.recv[id] == sent[s.h.first[id]..]
  {
    Reachable(run);
    var s := After(Init(), run);
    assert UpToDate(s.h, s.cases[i].id, false) && Received(s.h, s.cases[i].id);
  }

  /** And an entry that is still in the inbox then has missed nothing: it subscribed after the last
      send took the lock. */
  lemma InboxMissedNothing(run: seq<Action>, i: nat)
    requires IsRun(Init(), run) && After(Init(), run).phase == Idle && i < |After(Init(), run).inbox|
    ensures var s := After(Init(), run); var id := s.inbox[i].id;
            && id < |s.h.recv| && id < |Joins(run, 0)| && s.inbox[i].ch == Joins(run, 0)[id].0
            && s.h.recv[id] == [] && Joins(run, 0)[id].1 == |Sent(run)|
  {
    Reachable(run);
    var s := After(Init(), run);
    assert JustSubscribed(s.h, s.inbox[i].id, false);
  }

  /** In every reachable state the number of entries of a channel is the number of its
      subscriptions that are not over, and neither removal path fails to find its channel. */
  lemma RemovalFinds(run: seq<Action>, a: Action)
    requires IsRun(Init(), run) && Enabled(After(Init(), run), a)
    ensures var s := After(Init(), run);
            && (a.RemoveWithLock? ==> Find(s.cases, s.subs[a.sub].ch) != -1)
            && (a.DeleteRemoved? ==> Find(s.cases, s.phase.ch) != -1)
            && (forall ch: Chan ::
                  Num(s.inbox, ch) + Num(s.cases, ch) == Subs(s.subs, {Live, Waiting}, ch) + Owed(s, ch))
  {
    InvInitially();
    InvAlong(Init(), run);
    var s := After(Init(), run);
    if a.RemoveWithLock? {
      RemoveCounted(s, a, 0);
    } else if a.DeleteRemoved? {
      SenderCounted(s, a, 0);
    }
    forall ch: Chan ensures Num(s.inbox, ch) + Num(s.cases, ch) == Subs(s.subs, {Live, Waiting}, ch) + Owed(s, ch) {
      assert CountedAt(s, ch);
    }
  }

  /** Every subscription of channel `ch` is over. */
  ghost predicate NobodyListens(s: State, ch: Chan) {
    forall i :: 0 <= i < |s.subs| && s.subs[i].ch == ch ==> s.subs[i].status == Over
  }

  lemma NoDeliveryFrom(s: State, i: nat)
    requires Inv(s) && Enabled(s, Deliver(i))
    ensures !NobodyListens(s, s.cases[i].ch)
  {
    var ch := s.cases[i].ch;
    assert CountedAt(s, ch);
    Occurs(s.cases, i);
    SomeSub(s.subs, {Live, Waiting}, ch);
  }

  /** In no reachable state can anything be delivered to a channel all of whose subscriptions are
      over. */
  lemma NoDelivery(run: seq<Action>, i: nat)
    requires IsRun(Init(), run) && Enabled(After(Init(), run), Deliver(i))
    ensures var s := After(Init(), run); i < |s.cases| && !NobodyListens(s, s.cases[i].ch)
  {
    InvInitially();
    InvAlong(Init(), run);
    NoDeliveryFrom(After(Init(), run), i);
  }

  lemma {:induction false} NothingMore(s: State, more: seq<Action>, id: nat)
    requires Inv(s) && IsRun(s, more) && id < |s.subs| && NobodyListens(s, s.subs[id].ch)
    requires Subscribe(s.subs[id].ch) !in more
    ensures id < |After(s, more).h.recv| && After(s, more).h.recv[id] == s.h.recv[id]
    decreases |more|
  {
    if more != [] {
      var a, s' := more[0], Next(s, more[0]);
      InvAfter(s, a);
      if a.Deliver? {
        NoDeliveryFrom(s, a.i);
      }
      assert NobodyListens(s', s.subs[id].ch);
      NothingMore(s', more[1..], id);
    }
  }

  /** After Unsubscribe has returned for all subscriptions of a channel, nothing more arrives on it
      in any continuation in which it is not subscribed again. */
  lemma NothingAfterUnsubscribe(run: seq<Action>, more: seq<Action>, id: nat)
    requires IsRun(Init(), run) && IsRun(After(Init(), run), more)
    requires var s := After(Init(), run);
             id < |s.subs| && NobodyListens(s, s.subs[id].ch) && Subscribe(s.subs[id].ch) !in more
    ensures var s := After(Init(), run); var s' := After(s, more);
            id < |s.h.recv| && id < |s'.h.recv| && s'.h.recv[id] == s.h.recv[id]
  {
    InvInitially();
    InvAlong(Init(), run);
    NothingMore(After(Init(), run), more, id);
  }
}
