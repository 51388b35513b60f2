/**
 EIP-7702 code delegations (`validateAuthorization`, `applyAuthorization` and the loop over the
 list in `execute`, core/state_transition.go).

 Signature recovery is a field of the authorization: the recovered authority, or nothing when
 the signature is invalid.
 */
module Authorizations {
  import opened Basics
  import opened StateDb
  import opened GasCosts

  const TX_AUTH_TUPLE_GAS: nat := 12500

  datatype Authorization = Authorization(chainID: nat, address: Address, nonce: nat, authority: Option<Address>)

  datatype AuthError = WrongChainID | NonceOverflow | InvalidSignature | DestinationHasCode | NonceMismatch

  datatype Validity = Valid(authority: Address) | Invalid(error: AuthError)

  function Validate(w: World, chainID: nat, auth: Authorization): Validity {
    if auth.chainID != 0 && auth.chainID != chainID then Invalid(WrongChainID)
    else if auth.nonce >= MAX_UINT64 then Invalid(NonceOverflow)
    else if auth.authority.None? then Invalid(InvalidSignature)
    else
      var a := auth.authority.value;
      if Get(w, a).code.Contract? then Invalid(DestinationHasCode)
      else if Get(w, a).nonce != auth.nonce then Invalid(NonceMismatch)
      else Valid(a)
  }

  function Apply(w: World, chainID: nat, auth: Authorization): World {
    match Validate(w, chainID, auth)
    case Invalid(_) => w
    case Valid(a) =>
      var w1 := if a in w.accounts then w.(refund := w.refund + (CALL_NEW_ACCOUNT_GAS - TX_AUTH_TUPLE_GAS)) else w;
      var w2 := SetNonce(w1, a, auth.nonce + 1);
      SetCode(w2, a, if auth.address == NOBODY then NoCode else Delegation(auth.address))
  }

  /** The state after a whole list; invalid authorizations are skipped. */
  function ApplyAll(w: World, chainID: nat, auths: seq<Authorization>): World {
    if auths == [] then w
    else Apply(ApplyAll(w, chainID, auths[..|auths| - 1]), chainID, auths[|auths| - 1])
  }

  method ApplyList(w: World, chainID: nat, auths: seq<Authorization>) returns (state: World)
    ensures state == ApplyAll(w, chainID, auths)
  {
    state := w;
    for i := 0 to |auths|
      invariant state == ApplyAll(w, chainID, auths[..i])
    {
      assert auths[..i + 1][..i] == auths[..i];
      state := Apply(state, chainID, auths[i]);
    }
    assert auths[..|auths|] == auths;
  }

  /** The authorization holds in this state, on behalf of `a`: it is signed by `a` for this chain or
      for every chain, with the nonce that `a` has and that can still grow, and `a` has no ordinary
      code. */
  ghost predicate Holds(w: World, chainID: nat, auth: Authorization, a: Address) {
    && auth.authority == Some(a)
    && auth.chainID in {0, chainID}
    && Get(w, a).nonce == auth.nonce < 0xFFFF_FFFF_FFFF_FFFF
    && !Get(w, a).code.Contract?
  }

  /** Validation accepts exactly these. */
  lemma ValidMeans(w: World, chainID: nat, auth: Authorization, a: Address)
    ensures Validate(w, chainID, auth) == Valid(a) <==> Holds(w, chainID, auth, a)
  {
  }

  /** Authorization `i` of the list is accepted, on behalf of `a`: it holds when its turn comes. */
  ghost predicate Accepted(w: World, chainID: nat, auths: seq<Authorization>, i: nat, a: Address)
    requires i < |auths|
  {
    Holds(ApplyAll(w, chainID, auths[..i]), chainID, auths[i], a)
  }

  /** How many authorizations of the list are accepted on behalf of `a`. */
  ghost function Count(w: World, chainID: nat, auths: seq<Authorization>, a: Address): nat {
    if auths == [] then 0
    else
      var n := |auths| - 1;
      Count(w, chainID, auths[..n], a) + if Accepted(w, chainID, auths, n, a) then 1 else 0
  }

  /** What the list does to one account: its nonce rises by the number of accepted
      authorizations, without leaving uint64, and its balance stays. */
  lemma {:induction false} NonceRises(w: World, chainID: nat, auths: seq<Authorization>, a: Address)
    ensures var after := ApplyAll(w, chainID, auths);
            && Get(after, a).nonce == Get(w, a).nonce + Count(w, chainID, auths, a)
            && (Count(w, chainID, auths, a) > 0 ==> Get(after, a).nonce <= MAX_UINT64)
            && Get(after, a).balance == Get(w, a).balance
  {
    if auths != [] {
      NonceRises(w, chainID, auths[..|auths| - 1], a);
    }
  }

  lemma {:induction false} CountGrows(w: World, chainID: nat, auths: seq<Authorization>, a: Address, i: nat, j: nat)
    requires i <= j <= |auths|
    ensures Count(w, chainID, auths[..i], a) <= Count(w, chainID, auths[..j], a)
    decreases j
  {
    if i < j {
      CountGrows(w, chainID, auths, a, i, j - 1);
      assert auths[..j][..j - 1] == auths[..j - 1];
    }
  }

  lemma CountStep(w: World, chainID: nat, auths: seq<Authorization>, a: Address, i: nat)
    requires i < |auths| && Accepted(w, chainID, auths, i, a)
    ensures Count(w, chainID, auths[..i + 1], a) == Count(w, chainID, auths[..i], a) + 1
  {
    assert auths[..i + 1][..i] == auths[..i];
    assert auths[..i + 1][i] == auths[i];
  }

  /** No pair of authority and nonce is accepted twice: the nonces accepted for one authority
      strictly increase along the list. */
  lemma NoReplay(w: World, chainID: nat, auths: seq<Authorization>, a: Address, i: nat, j: nat)
    requires i < j < |auths| && Accepted(w, chainID, auths, i, a) && Accepted(w, chainID, auths, j, a)
    ensures auths[i].nonce < auths[j].nonce
  {
    NonceRises(w, chainID, auths[..i], a);
    NonceRises(w, chainID, auths[..j], a);
    CountStep(w, chainID, auths, a, i);
    CountGrows(w, chainID, auths, a, i + 1, j);
  }

  /** An account with ordinary code keeps it, and its nonce with it. */
  lemma {:induction false} OrdinaryCodeKept(w: World, chainID: nat, auths: seq<Authorization>, a: Address)
    requires Get(w, a).code.Contract?
    ensures Get(ApplyAll(w, chainID, auths), a) == Get(w, a) && Count(w, chainID, auths, a) == 0
  {
    if auths != [] {
      OrdinaryCodeKept(w, chainID, auths[..|auths| - 1], a);
    }
  }

  /** The delegation that an accepted authorization asks for. */
  function Requested(auth: Authorization): Code {
    if auth.address == NOBODY then NoCode else Delegation(auth.address)
  }

  /** An account on whose behalf nothing is accepted is untouched. */
  lemma {:induction false} Untouched(w: World, chainID: nat, auths: seq<Authorization>, a: Address)
    requires Count(w, chainID, auths, a) == 0
    ensures Get(ApplyAll(w, chainID, auths), a) == Get(w, a)
  {
    if auths != [] {
      Untouched(w, chainID, auths[..|auths| - 1], a);
    }
  }

  /** The last accepted authorization decides the code. */
  lemma {:induction false} LastDecides(w: World, chainID: nat, auths: seq<Authorization>, a: Address, i: nat)
    requires i < |auths| && Accepted(w, chainID, auths, i, a)
    requires forall j :: i < j < |auths| ==> !Accepted(w, chainID, auths, j, a)
    ensures Get(ApplyAll(w, chainID, auths), a).code == Requested(auths[i])
  {
    var n := |auths| - 1;
    if i < n {
      var rest := auths[..n];
      forall j | 0 <= j < n ensures Accepted(w, chainID, rest, j, a) == Accepted(w, chainID, auths, j, a) {
        assert rest[..j] == auths[..j];
      }
      LastDecides(w, chainID, rest, a, i);
      assert !Accepted(w, chainID, auths, n, a);
    }
  }

  /** How many accepted authorizations named an account that existed by then. */
  ghost function Refunded(w: World, chainID: nat, auths: seq<Authorization>): nat {
    if auths == [] then 0
    else
      var n := |auths| - 1;
      var a := auths[n].authority;
      var existed := a.Some? && a.value in ApplyAll(w, chainID, auths[..n]).accounts;
      Refunded(w, chainID, auths[..n]) + if existed && Accepted(w, chainID, auths, n, a.value) then 1 else 0
  }

  /** The refund counter grows by the surplus of the new-account charge, once for every accepted
      authorization of an existing account; accounts only appear; no ether moves. */
  lemma {:induction false} RefundAndEther(w: World, chainID: nat, auths: seq<Authorization>)
    ensures var after := ApplyAll(w, chainID, auths);
            && after.refund == w.refund + 12500 * Refunded(w, chainID, auths)
            && Refunded(w, chainID, auths) <= |auths|
            && w.accounts.Keys <= after.accounts.Keys
            && Total(after) == Total(w)
  {
    if auths != [] {
      var n := |auths| - 1;
      RefundAndEther(w, chainID, auths[..n]);
      EtherStays(ApplyAll(w, chainID, auths[..n]), chainID, auths[n]);
    }
  }

  lemma EtherStays(w: World, chainID: nat, auth: Authorization)
    ensures Total(Apply(w, chainID, auth)) == Total(w)
  {
    var v := Validate(w, chainID, auth);
    if v.Valid? {
      var a := v.authority;
      TotalAfterSet(w, a, Get(Apply(w, chainID, auth), a));
      assert Apply(w, chainID, auth).accounts == Set(w, a, Get(Apply(w, chainID, auth), a)).accounts;
    }
  }
}
