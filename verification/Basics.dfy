/**
 What the other modules share: optional values and the range of uint64.
 */
module Basics {

  datatype Option<+T> = None | Some(value: T)

  const MAX_UINT64: nat := 0xFFFF_FFFF_FFFF_FFFF
  const U64: nat := 0x1_0000_0000_0000_0000

  function Min(a: nat, b: nat): nat { if a <= b then a else b }

  function Max(a: nat, b: nat): nat { if a >= b then a else b }
}

/**
 Deleting and swapping entries of a sequence.
 */
module Sequences {

  function DeletedAt<T>(s: seq<T>, i: nat): (r: seq<T>)
    requires i < |s|
    ensures |r| == |s| - 1
    ensures forall j :: 0 <= j < |r| ==> r[j] == s[if j < i then j else j + 1]
  {
    s[..i] + s[i + 1..]
  }

  /** Entry `i` swapped with the last of the first `k`. */
  function SwappedOut<T>(s: seq<T>, k: nat, i: nat): seq<T>
    requires i < k <= |s|
  {
    s[i := s[k - 1]][k - 1 := s[i]]
  }

  lemma SplitAt<T>(s: seq<T>, i: nat)
    requires i < |s|
    ensures multiset(s) == multiset(s[..i]) + multiset{s[i]} + multiset(s[i + 1..])
  {
    assert s == s[..i] + [s[i]] + s[i + 1..];
  }

  lemma MultisetOfDeleted<T>(s: seq<T>, i: nat)
    requires i < |s|
    ensures multiset(DeletedAt(s, i)) + multiset{s[i]} == multiset(s)
  {
    SplitAt(s, i);
  }

  lemma MultisetOfUpdate<T>(s: seq<T>, i: nat, x: T)
    requires i < |s|
    ensures multiset(s[i := x]) + multiset{s[i]} == multiset(s) + multiset{x}
  {
    SplitAt(s, i);
    SplitAt(s[i := x], i);
    assert s[i := x][..i] == s[..i] && s[i := x][i + 1..] == s[i + 1..];
  }

  /** Swapping an entry out of the first `k` moves it, and nothing else, behind them. */
  lemma SwappedOutFront<T>(s: seq<T>, from: nat, k: nat, i: nat)
    requires from <= i < k <= |s|
    ensures multiset(SwappedOut(s, k, i)[from..k - 1]) + multiset{s[i]} == multiset(s[from..k])
  {
    var front, last := s[from..k - 1], s[k - 1];
    assert s[from..k] == front + [last];
    if i < k - 1 {
      MultisetOfUpdate(front, i - from, last);
      assert SwappedOut(s, k, i)[from..k - 1] == front[i - from := last];
    } else {
      assert SwappedOut(s, k, i)[from..k - 1] == front;
    }
  }

  lemma SwappedOutRest<T>(s: seq<T>, from: nat, k: nat, i: nat)
    requires from <= i < k <= |s|
    ensures SwappedOut(s, k, i)[..from] == s[..from]
    ensures SwappedOut(s, k, i)[k - 1..] == [s[i]] + s[k..]
  {
  }

  /** Deleting one of the first `k` entries takes it out of these and leaves the rest. */
  lemma DeletedInFront<T>(s: seq<T>, from: nat, k: nat, i: nat)
    requires from <= i < k <= |s|
    ensures DeletedAt(s, i)[..from] == s[..from] && DeletedAt(s, i)[k - 1..] == s[k..]
    ensures multiset(DeletedAt(s, i)[from..k - 1]) + multiset{s[i]} == multiset(s[from..k])
  {
    var front := s[from..k];
    MultisetOfDeleted(front, i - from);
    assert DeletedAt(s, i)[from..k - 1] == DeletedAt(front, i - from);
  }

  /** Deleting an entry behind the first `k` leaves these alone. */
  lemma DeletedBehind<T>(s: seq<T>, k: nat, i: nat)
    requires k <= i < |s|
    ensures DeletedAt(s, i)[..k] == s[..k]
    ensures multiset(DeletedAt(s, i)[k..]) + multiset{s[i]} == multiset(s[k..])
  {
    var rest := s[k..];
    MultisetOfDeleted(rest, i - k);
    assert DeletedAt(s, i)[k..] == DeletedAt(rest, i - k);
  }
}
