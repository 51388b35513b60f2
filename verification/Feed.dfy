/**
 The case list of an event feed (event/feed.go, event/feedof.go).
 */
module CaseList {

  type Chan = nat

  /** What `find` reports: the first position of the channel, or -1. */
  ghost predicate FoundAt<T>(s: seq<T>, chan: T -> Chan, ch: Chan, index: int) {
    if index == -1 then forall j :: 0 <= j < |s| ==> chan(s[j]) != ch
    else 0 <= index < |s| && chan(s[index]) == ch && forall j :: 0 <= j < index ==> chan(s[j]) != ch
  }
}

/**
 One `Send`, with the send lock held: the array-backed case list of `Feed`.

 The environment is nondeterministic: any receiver may become ready at any time, and the channels
 of waiting unsubscribers may be handed in for removal, in their order, at any time. Only channels
 with an entry are handed in; that this is so is what module FeedProtocol proves.
 */
module EventFeed {
  import opened Basics
  import opened Sequences
  import opened CaseList

  type Value = int

  /** The channel through which `Unsubscribe` interrupts a send; no subscriber uses it. */
  const REMOVE_SUB: Chan := 0

  /** A select case: the channel and the value to be sent on it. */
  datatype Case = Case(ch: Chan, send: Option<Value>)

  function ChanOf(c: Case): Chan { c.ch }

  /** The same entry with another value to send. */
  function WithValue(c: Case, v: Option<Value>): Case { c.(send := v) }

  function AllWith(s: seq<Case>, v: Option<Value>): (r: seq<Case>)
    ensures |r| == |s| && forall i :: 0 <= i < |s| ==> r[i] == Case(s[i].ch, v)
  {
    if s == [] then [] else AllWith(s[..|s| - 1], v) + [WithValue(s[|s| - 1], v)]
  }

  /** A case list: the remove channel in slot 0, then subscriptions that carry `v`. */
  ghost predicate CasesOk(s: seq<Case>, v: Option<Value>) {
    && 1 <= |s| && s[0] == Case(REMOVE_SUB, None)
    && (forall i :: 1 <= i < |s| ==> s[i].ch != REMOVE_SUB && s[i].send == v)
  }

  /** In the middle of a send: of the case list `s` the first `k` cases are still to be served.
      Every initial case is still waiting, or was delivered to, or was removed before that; every
      case behind the first `k` was delivered to, and so was what was removed from there. */
  ghost predicate Sending(s: seq<Case>, k: nat, value: Value, initial: multiset<Case>,
                          delivered: seq<Case>, dropped: multiset<Case>, left: multiset<Case>)
  {
    && 1 <= k <= |s| && CasesOk(s, Some(value))
    && multiset(s[1..k]) + multiset(delivered) + dropped == initial
    && multiset(s[k..]) + left == multiset(delivered)
  }

  lemma Delivered(s: seq<Case>, k: nat, i: nat, value: Value, initial: multiset<Case>,
                  delivered: seq<Case>, dropped: multiset<Case>, left: multiset<Case>)
    requires Sending(s, k, value, initial, delivered, dropped, left) && 1 <= i < k
    ensures Sending(SwappedOut(s, k, i), k - 1, value, initial, delivered + [s[i]], dropped, left)
  {
    SwappedOutFront(s, 1, k, i);
    SwappedOutRest(s, 1, k, i);
  }

  lemma DroppedWaiting(s: seq<Case>, k: nat, i: nat, value: Value, initial: multiset<Case>,
                       delivered: seq<Case>, dropped: multiset<Case>, left: multiset<Case>)
    requires Sending(s, k, value, initial, delivered, dropped, left) && 1 <= i < k
    ensures Sending(DeletedAt(s, i), k - 1, value, initial, delivered, dropped + multiset{s[i]}, left)
  {
    DeletedInFront(s, 1, k, i);
  }

  lemma DroppedServed(s: seq<Case>, k: nat, i: nat, value: Value, initial: multiset<Case>,
                      delivered: seq<Case>, dropped: multiset<Case>, left: multiset<Case>)
    requires Sending(s, k, value, initial, delivered, dropped, left) && k <= i < |s|
    ensures Sending(DeletedAt(s, i), k, value, initial, delivered, dropped, left + multiset{s[i]})
  {
    DeletedBehind(s, k, i);
    assert DeletedAt(s, i)[1..k] == DeletedAt(s, i)[..k][1..] == s[1..k];
  }

  lemma AtTheStart(s: seq<Case>, value: Value)
    requires CasesOk(s, Some(value))
    ensures Sending(s, |s|, value, multiset(s[1..]), [], multiset{}, multiset{})
  {
    assert s[1..|s|] == s[1..] && s[|s|..] == [];
  }

  lemma AtTheEnd(s: seq<Case>, value: Value, initial: multiset<Case>,
                 delivered: seq<Case>, dropped: multiset<Case>, left: multiset<Case>)
    requires Sending(s, 1, value, initial, delivered, dropped, left)
    ensures multiset(delivered) + dropped == initial
    ensures multiset(AllWith(AllWith(s[1..], None), Some(value))) + left == multiset(delivered)
  {
    assert s[1..1] == [];
    ValueBack(s[1..], value);
  }

  lemma ValueBack(s: seq<Case>, value: Value)
    requires forall i :: 0 <= i < |s| ==> s[i].send == Some(value)
    ensures AllWith(AllWith(s, None), Some(value)) == s
  {
  }

  /** The cases of the first `n` channels that wait for their removal. */
  ghost function CasesOf(waiting: seq<Chan>, n: nat, value: Value): multiset<Case>
    requires n <= |waiting|
  {
    if n == 0 then multiset{} else CasesOf(waiting, n - 1, value) + multiset{Case(waiting[n - 1], Some(value))}
  }

  /** What was removed so far are the cases of the first `taken` waiting channels. */
  ghost predicate Handed(waiting: seq<Chan>, taken: nat, value: Value, dropped: multiset<Case>, left: multiset<Case>) {
    taken <= |waiting| && dropped + left == CasesOf(waiting, taken, value)
  }

  /** The removed cases with one more, which was removed before it was served or afterwards. */
  ghost function WithCase(c: Case, early: bool, dropped: multiset<Case>, left: multiset<Case>)
    : (multiset<Case>, multiset<Case>)
  {
    if early then (dropped + multiset{c}, left) else (dropped, left + multiset{c})
  }

  lemma HandedNext(waiting: seq<Chan>, taken: nat, value: Value, dropped: multiset<Case>, left: multiset<Case>,
                   early: bool)
    requires Handed(waiting, taken, value, dropped, left) && taken < |waiting|
    ensures var out := WithCase(Case(waiting[taken], Some(value)), early, dropped, left);
            Handed(waiting, taken + 1, value, out.0, out.1)
  {
    var out := WithCase(Case(waiting[taken], Some(value)), early, dropped, left);
    assert out.0 + out.1 == (dropped + left) + multiset{Case(waiting[taken], Some(value))};
  }

  class Feed {
    var cases: array<Case>   // backing array of the case list
    var len: nat             // length of `sendCases`
    var inbox: seq<Case>

    ghost predicate Valid()
      reads this, cases
    {
      && 1 <= len <= cases.Length && CasesOk(cases[..len], None)
      && (forall i :: 0 <= i < |inbox| ==> inbox[i].ch != REMOVE_SUB && inbox[i].send == None)
    }

    /** The subscriptions in `sendCases`. */
    ghost function Subscribed(): seq<Case>
      reads this, cases
      requires 1 <= len <= cases.Length
    {
      cases[1..len]
    }

    constructor ()
      ensures Valid() && fresh(cases) && Subscribed() == [] && inbox == []
    {
      cases := new Case[1](_ => Case(REMOVE_SUB, None));
      len, inbox := 1, [];
    }

    method Subscribe(ch: Chan)
      requires Valid() && ch != REMOVE_SUB
      modifies this`inbox
      ensures Valid() && inbox == old(inbox) + [Case(ch, None)]
    {
      inbox := inbox + [Case(ch, None)];
    }

    method Find(ch: Chan) returns (index: int)
      requires len <= cases.Length
      ensures FoundAt(cases[..len], ChanOf, ch, index)
    {
      for i := 0 to len
        invariant forall j :: 0 <= j < i ==> cases[j].ch != ch
      {
        if cases[i].ch == ch {
          return i;
        }
      }
      return -1;
    }

    /** Shifts everything behind `index` one to the left, in place. */
    method Delete(index: nat)
      requires index < len <= cases.Length
      modifies this`len, cases
      ensures len == old(len) - 1 && cases == old(cases)
      ensures cases[..len] == DeletedAt(old(cases[..len]), index)
    {
      var n := len;
      for i := index to n - 1
        modifies cases
        invariant cases[..index] == old(cases[..index])
        invariant forall j :: index <= j < i ==> cases[j] == old(cases[j + 1])
        invariant forall j :: i <= j < n ==> cases[j] == old(cases[j])
      {
        cases[i] := cases[i + 1];
      }
      len := n - 1;
    }

    /** Swaps entry `index` with the last of the first `k`. */
    method Deactivate(k: nat, index: nat) returns (k': nat)
      requires index < k <= len <= cases.Length
      modifies cases
      ensures k' == k - 1 && cases[..len] == SwappedOut(old(cases[..len]), k, index)
    {
      cases[index], cases[k - 1] := cases[k - 1], cases[index];
      k' := k - 1;
    }

    /** Moves the inbox behind the case list. */
    method Merge()
      requires Valid()
      modifies this
      ensures Valid() && inbox == [] && fresh(cases)
      ensures Subscribed() == old(Subscribed() + inbox)
    {
      var merged := cases[..len] + inbox;
      cases := new Case[|merged|](i requires 0 <= i < |merged| => merged[i]);
      assert cases[..] == merged;
      len, inbox := |merged|, [];
      assert cases[1..len] == merged[1..];
    }

    /** Sets the value of every subscription case. */
    method SetValues(v: Option<Value>, ghost u: Option<Value>)
      requires 1 <= len <= cases.Length && CasesOk(cases[..len], u)
      modifies cases
      ensures cases[1..len] == AllWith(old(cases[1..len]), v)
      ensures CasesOk(cases[..len], v)
    {
      for i := 1 to len
        invariant cases[0] == old(cases[0])
        invariant forall j :: 1 <= j < i ==> cases[j] == WithValue(old(cases[j]), v)
        invariant forall j :: i <= j < len ==> cases[j] == old(cases[j])
      {
        cases[i] := WithValue(cases[i], v);
      }
    }

    /** The fast path: tries every waiting case once without blocking. */
    method TryAll(k: nat, value: Value, ghost initial: multiset<Case>,
                  ghost delivered: seq<Case>, ghost dropped: multiset<Case>, ghost left: multiset<Case>)
      returns (k': nat, nsent: nat, ghost delivered': seq<Case>)
      requires len <= cases.Length && Sending(cases[..len], k, value, initial, delivered, dropped, left)
      modifies cases
      ensures Sending(cases[..len], k', value, initial, delivered', dropped, left)
      ensures k' <= k && |delivered'| == |delivered| + nsent
    {
      k', nsent, delivered' := k, 0, delivered;
      ghost var s := cases[..len];
      var i := 1;
      while i < k'
        invariant 1 <= i && k' <= k && s == cases[..len] && Sending(s, k', value, initial, delivered', dropped, left)
        invariant |delivered'| == |delivered| + nsent
        decreases k' - i
      {
        var ready: bool := *;
        if ready {
          Delivered(s, k', i, value, initial, delivered', dropped, left);
          delivered', s := delivered' + [s[i]], SwappedOut(s, k', i);
          nsent := nsent + 1;
          k' := Deactivate(k', i);
        } else {
          i := i + 1;
        }
      }
    }

    /** Takes a removed channel out of the case list, and out of the waiting cases if it was
        among them. */
    method Remove(ch: Chan, k: nat, value: Value, ghost initial: multiset<Case>,
                  ghost delivered: seq<Case>, ghost dropped: multiset<Case>, ghost left: multiset<Case>)
      returns (k': nat, ghost early: bool, ghost dropped': multiset<Case>, ghost left': multiset<Case>)
      requires len <= cases.Length && Sending(cases[..len], k, value, initial, delivered, dropped, left)
      requires ch != REMOVE_SUB && Listed(ch)
      modifies this`len, cases
      ensures cases == old(cases) && len == old(len) - 1 && k' <= k
      ensures Sending(cases[..len], k', value, initial, delivered, dropped', left')
      ensures (dropped', left') == WithCase(Case(ch, Some(value)), early, dropped, left)
    {
      ghost var s := cases[..len];
      var index := Find(ch);
      Delete(index);
      ghost var s' := cases[..len];
      assert s' == DeletedAt(s, index) && s[index] == Case(ch, Some(value));
      early := index < k;
      if index < k {
        k', dropped', left' := k - 1, dropped + multiset{s[index]}, left;
        DroppedWaiting(s, k, index, value, initial, delivered, dropped, left);
      } else {
        k', dropped', left' := k, dropped, left + multiset{s[index]};
        DroppedServed(s, k, index, value, initial, delivered, dropped, left);
      }
    }

    /** The channel has an entry. */
    predicate Listed(ch: Chan)
      requires len <= cases.Length
      reads this, cases
    {
      exists i :: 1 <= i < len && cases[i].ch == ch
    }

    /** One blocking select: a receiver became ready, or the unsubscriber that waits next interrupts. */
    method Select(k: nat, value: Value, next: Option<Chan>, ghost initial: multiset<Case>,
                  ghost delivered: seq<Case>, ghost dropped: multiset<Case>, ghost left: multiset<Case>)
      returns (k': nat, removed: bool, ghost early: bool, ghost delivered': seq<Case>, ghost dropped': multiset<Case>,
               ghost left': multiset<Case>)
      requires 1 < k <= len <= cases.Length && Sending(cases[..len], k, value, initial, delivered, dropped, left)
      modifies this`len, cases
      ensures len <= cases.Length && Sending(cases[..len], k', value, initial, delivered', dropped', left')
      ensures k' <= k && k' + len < k + old(len)
      ensures removed ==>
                && delivered' == delivered && next.Some?
                && (dropped', left') == WithCase(Case(next.value, Some(value)), early, dropped, left)
      ensures !removed ==> |delivered'| == |delivered| + 1 && dropped' == dropped && left' == left
    {
      removed, early, delivered', dropped', left' := false, false, delivered, dropped, left;
      var interrupted := next.Some? && next.value != REMOVE_SUB && Listed(next.value);
      var chosen: nat :| chosen < k && (chosen == 0 ==> interrupted);
      if chosen == 0 {
        k', early, dropped', left' := Remove(next.value, k, value, initial, delivered, dropped, left);
        removed := true;
      } else {
        ghost var s := cases[..len];
        Delivered(s, k, chosen, value, initial, delivered, dropped, left);
        delivered' := delivered + [s[chosen]];
        k' := Deactivate(k, chosen);
      }
    }

    /** The rounds of a send, until only the remove channel is left to serve. Each round shortens
        the waiting cases and the case list together. */
    method Serve(value: Value, waiting: seq<Chan>, ghost initial: multiset<Case>)
      returns (nsent: nat, taken: nat, ghost delivered: seq<Case>, ghost dropped: multiset<Case>,
               ghost left: multiset<Case>)
      requires len <= cases.Length && Sending(cases[..len], len, value, initial, [], multiset{}, multiset{})
      modifies this`len, cases
      ensures len <= cases.Length && nsent == |delivered|
      ensures Sending(cases[..len], 1, value, initial, delivered, dropped, left)
      ensures Handed(waiting, taken, value, dropped, left)
    {
      var k: nat := len;
      nsent, taken, delivered, dropped, left := 0, 0, [], multiset{}, multiset{};
      while true
        invariant len <= cases.Length && nsent == |delivered|
        invariant Sending(cases[..len], k, value, initial, delivered, dropped, left)
        invariant Handed(waiting, taken, value, dropped, left)
        decreases k + len
      {
        var n;
        k, n, delivered := TryAll(k, value, initial, delivered, dropped, left);
        nsent := nsent + n;
        if k == 1 {
          break;
        }
        var next := if taken < |waiting| then Some(waiting[taken]) else None;
        ghost var dropped0, left0 := dropped, left;
        var removed;
        ghost var early;
        k, removed, early, delivered, dropped, left := Select(k, value, next, initial, delivered, dropped, left);
        if removed {
          HandedNext(waiting, taken, value, dropped0, left0, early);
          taken := taken + 1;
        } else {
          nsent := nsent + 1;
        }
      }
    }

    /** `Send`: every case present when the lock was taken is delivered to exactly once, unless it
        was removed before its turn. `dropped` are the cases removed before they were served,
        `left` those removed afterwards; together they are the cases of the `taken` channels that
        unsubscribers handed in. */
    method Send(value: Value, waiting: seq<Chan>)
      returns (nsent: nat, taken: nat, ghost delivered: seq<Case>, ghost dropped: multiset<Case>,
               ghost left: multiset<Case>)
      requires Valid()
      modifies this, cases
      ensures Valid() && inbox == []
      ensures nsent == |delivered|
      ensures multiset(delivered) + dropped == multiset(AllWith(old(Subscribed() + inbox), Some(value)))
      ensures multiset(AllWith(Subscribed(), Some(value))) + left == multiset(delivered)
      ensures taken <= |waiting| && dropped + left == CasesOf(waiting, taken, value)
    {
      ghost var before := Subscribed() + inbox;
      Merge();
      SetValues(Some(value), None);
      ghost var s := cases[..len];
      assert s[1..] == cases[1..len];
      AtTheStart(s, value);
      nsent, taken, delivered, dropped, left := Serve(value, waiting, multiset(s[1..]));
      AtTheEnd(cases[..len], value, multiset(s[1..]), delivered, dropped, left);
      assert cases[..len][1..] == cases[1..len];
      SetValues(None, Some(value));
    }
  }
}
