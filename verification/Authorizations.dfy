/** EIP-7702 authorization lists: code delegations signed by other accounts. */
module Authorizations {
  import opened Common
  import opened Worlds
  import opened IntrinsicGases

  /** `authority` is the signer recovered from the signature, if it is valid. */
  datatype Authorization = Authorization(chainId: nat, address: Address, nonce: nat, authority: Option<Address>)

  const AUTH_REFUND: nat := NEW_ACCOUNT_GAS - AUTH_TUPLE_GAS

  /** The tuple passes every check against the state. */
  predicate Accepts(w: World, chainId: nat, auth: Authorization) {
    && (auth.chainId == 0 || auth.chainId == chainId)
    && auth.nonce + 1 < U64
    && auth.authority.Some?
    && !Get(w, auth.authority.value).code.Contract?
    && Get(w, auth.authority.value).nonce == auth.nonce
  }

  /** The code an accepted tuple installs; the zero address clears it. */
  function Installed(auth: Authorization): Code {
    if auth.address == ZERO_ADDRESS then NoCode else Delegation(auth.address)
  }

  // ---- The meaning of a list, tuple by tuple -------------------------------------------------

  /** The state after the first `n` tuples. */
  ghost function After(w: World, chainId: nat, auths: seq<Authorization>, n: nat): World
    requires n <= |auths|
  {
    if n == 0 then w else
      var v, auth := After(w, chainId, auths, n - 1), auths[n - 1];
      if !Accepts(v, chainId, auth) then v else
        SetCode(SetNonce(v, auth.authority.value, auth.nonce + 1), auth.authority.value, Installed(auth))
  }

  /** Tuple `i` of the list is accepted, with `a` as its signer. */
  ghost predicate Takes(w: World, chainId: nat, auths: seq<Authorization>, i: nat, a: Address)
    requires i < |auths|
  {
    Accepts(After(w, chainId, auths, i), chainId, auths[i]) && auths[i].authority.value == a
  }

  /** How many of the first `n` tuples are accepted with `a` as their signer. */
  ghost function Taken(w: World, chainId: nat, auths: seq<Authorization>, n: nat, a: Address): nat
    requires n <= |auths|
  {
    if n == 0 then 0 else Taken(w, chainId, auths, n - 1, a) + if Takes(w, chainId, auths, n - 1, a) then 1 else 0
  }

  /** The refund for tuples whose signer existed already. */
  ghost function Refund(w: World, chainId: nat, auths: seq<Authorization>, n: nat): nat
    requires n <= |auths|
  {
    if n == 0 then 0 else
      var v, auth := After(w, chainId, auths, n - 1), auths[n - 1];
      Refund(w, chainId, auths, n - 1)
      + if Accepts(v, chainId, auth) && auth.authority.value in v then AUTH_REFUND else 0
  }

  // ---- What a list does ------------------------------------------------------------------------

  /** What one tuple does, said of the accounts. A tuple for this chain or for every chain, signed by an
      account without ordinary code whose nonce it names, raises that nonce and points the account's code at
      the address, or clears it for the zero address; an account that existed brings a refund. Any other
      tuple does nothing. */
  lemma {:induction false} TupleEffect(w: World, chainId: nat, auths: seq<Authorization>, i: nat)
    requires i < |auths|
    ensures var v, next, auth := After(w, chainId, auths, i), After(w, chainId, auths, i + 1), auths[i];
            var refund := Refund(w, chainId, auths, i + 1) - Refund(w, chainId, auths, i);
            if auth.chainId !in {0, chainId} || auth.authority.None? || auth.nonce >= 0xFFFF_FFFF_FFFF_FFFF
               || Get(v, auth.authority.value).nonce != auth.nonce || Get(v, auth.authority.value).code.Contract?
            then next == v && refund == 0
            else var a := auth.authority.value;
                 && Get(next, a).nonce == auth.nonce + 1 && Get(next, a).balance == Get(v, a).balance
                 && Get(next, a).code == (if auth.address == Address(0) then NoCode else Delegation(auth.address))
                 && (forall b | b != a :: Get(next, b) == Get(v, b))
                 && refund == if a in v then 12500 else 0
  {
  }

  /** A signer's nonce rises by exactly the number of its accepted tuples. */
  lemma {:induction false} NonceRises(w: World, chainId: nat, auths: seq<Authorization>, n: nat, a: Address)
    requires n <= |auths|
    ensures Get(After(w, chainId, auths, n), a).nonce == Get(w, a).nonce + Taken(w, chainId, auths, n, a)
  {
    if n > 0 {
      NonceRises(w, chainId, auths, n - 1, a);
    }
  }

  /** Accepted nonces are consecutive from the nonce at the start. */
  lemma {:induction false} NoncesConsecutive(w: World, chainId: nat, auths: seq<Authorization>, i: nat, a: Address)
    requires i < |auths| && Takes(w, chainId, auths, i, a)
    ensures auths[i].nonce == Get(w, a).nonce + Taken(w, chainId, auths, i, a)
  {
    NonceRises(w, chainId, auths, i, a);
  }

  lemma {:induction false} TakenGrows(w: World, chainId: nat, auths: seq<Authorization>, i: nat, j: nat, a: Address)
    requires i < j <= |auths| && Takes(w, chainId, auths, i, a)
    ensures Taken(w, chainId, auths, i, a) < Taken(w, chainId, auths, j, a)
    decreases j
  {
    if i < j - 1 {
      TakenGrows(w, chainId, auths, i, j - 1, a);
    }
  }

  /** No tuple is accepted twice, wherever it is repeated in the list. */
  lemma {:induction false} NoneTwice(w: World, chainId: nat, auths: seq<Authorization>, i: nat, j: nat, a: Address)
    requires i < j < |auths| && Takes(w, chainId, auths, i, a) && auths[i] == auths[j]
    ensures !Takes(w, chainId, auths, j, a)
  {
    NoncesConsecutive(w, chainId, auths, i, a);
    if Takes(w, chainId, auths, j, a) {
      NoncesConsecutive(w, chainId, auths, j, a);
      TakenGrows(w, chainId, auths, i, j, a);
    }
  }

  /** The code of an account is what its last accepted tuple installs, or what it was. */
  lemma {:induction false} LastWins(w: World, chainId: nat, auths: seq<Authorization>, n: nat, a: Address)
    requires n <= |auths|
    ensures var code := Get(After(w, chainId, auths, n), a).code;
            || (Taken(w, chainId, auths, n, a) == 0 && code == Get(w, a).code)
            || exists i :: 0 <= i < n && Takes(w, chainId, auths, i, a)
                           && code == (if auths[i].address == Address(0) then NoCode else Delegation(auths[i].address))
                           && Taken(w, chainId, auths, i + 1, a) == Taken(w, chainId, auths, n, a)
  {
    if n > 0 {
      LastWins(w, chainId, auths, n - 1, a);
      if Takes(w, chainId, auths, n - 1, a) {
        assert Taken(w, chainId, auths, n - 1 + 1, a) == Taken(w, chainId, auths, n, a);
      } else if Taken(w, chainId, auths, n - 1, a) != 0 {
        var i :| 0 <= i < n - 1 && Takes(w, chainId, auths, i, a) && Get(After(w, chainId, auths, n - 1), a).code == Installed(auths[i])
                 && Taken(w, chainId, auths, i + 1, a) == Taken(w, chainId, auths, n - 1, a);
        assert Taken(w, chainId, auths, i + 1, a) == Taken(w, chainId, auths, n, a);
      }
    }
  }

  /** Accounts with ordinary code keep nonce, code and balance; so does everyone who signed nothing. */
  lemma {:induction false} OthersUntouched(w: World, chainId: nat, auths: seq<Authorization>, n: nat, a: Address)
    requires n <= |auths|
    requires Get(w, a).code.Contract? || forall i | 0 <= i < n :: auths[i].authority != Some(a)
    ensures Get(After(w, chainId, auths, n), a) == Get(w, a) && (a in After(w, chainId, auths, n) <==> a in w)
    ensures Taken(w, chainId, auths, n, a) == 0
  {
    if n > 0 {
      OthersUntouched(w, chainId, auths, n - 1, a);
    }
  }

  /** Nobody's balance changes, and the words keep fitting. */
  lemma {:induction false} NoWeiMoves(w: World, chainId: nat, auths: seq<Authorization>, n: nat)
    requires n <= |auths|
    ensures Total(After(w, chainId, auths, n)) == Total(w)
    ensures Fits(w) ==> Fits(After(w, chainId, auths, n))
    ensures forall a :: Get(After(w, chainId, auths, n), a).balance == Get(w, a).balance
  {
    if n > 0 {
      NoWeiMoves(w, chainId, auths, n - 1);
      var v, auth := After(w, chainId, auths, n - 1), auths[n - 1];
      if Accepts(v, chainId, auth) {
        NonceIsFree(v, auth.authority.value, auth.nonce + 1);
        CodeIsFree(SetNonce(v, auth.authority.value, auth.nonce + 1), auth.authority.value, Installed(auth));
      }
    }
  }

  /** The refund is at most what the list was charged as intrinsic gas. */
  lemma {:induction false} RefundBelowCharge(w: World, chainId: nat, auths: seq<Authorization>, n: nat)
    requires n <= |auths|
    ensures Refund(w, chainId, auths, n) <= n * AUTH_REFUND <= n * NEW_ACCOUNT_GAS
  {
    if n > 0 {
      RefundBelowCharge(w, chainId, auths, n - 1);
    }
  }
}
