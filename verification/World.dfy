/** Accounts and the wei they hold. */
module Worlds {

  const U64: nat := 0x1_0000_0000_0000_0000
  const U256: nat := 0x1_0000_0000_0000_0000_0000_0000_0000_0000_0000_0000_0000_0000_0000_0000_0000_0000

  datatype Address = Address(id: nat)

  const ZERO_ADDRESS := Address(0)

  /** The code of an account: none, an EIP-7702 delegation, or anything else. */
  datatype Code = NoCode | Delegation(target: Address) | Contract(id: nat)

  datatype Account = Account(balance: nat, nonce: nat, code: Code)

  const FRESH := Account(0, 0, NoCode)

  /** The accounts that exist. */
  type World = map<Address, Account>

  function Get(w: World, a: Address): Account {
    if a in w then w[a] else FRESH
  }

  /** Balances and nonces fit their machine words. */
  ghost predicate Fits(w: World) {
    forall a | a in w :: w[a].balance < U256 && w[a].nonce < U64
  }

  /** 256-bit addition and subtraction wrap around. */
  function AddBalance(w: World, a: Address, amount: nat): World {
    w[a := Get(w, a).(balance := (Get(w, a).balance + amount) % U256)]
  }

  function SubBalance(w: World, a: Address, amount: nat): World {
    w[a := Get(w, a).(balance := (Get(w, a).balance - amount) % U256)]
  }

  function SetNonce(w: World, a: Address, nonce: nat): World {
    w[a := Get(w, a).(nonce := nonce)]
  }

  function SetCode(w: World, a: Address, code: Code): World {
    w[a := Get(w, a).(code := code)]
  }

  /** The wei in existence. */
  ghost function Total(w: World): nat
    decreases |w|
  {
    if w == map[] then 0 else
      var a :| a in w;
      w[a].balance + Total(w - {a})
  }

  lemma {:induction false} TotalSplits(w: World, a: Address)
    requires a in w
    ensures Total(w) == w[a].balance + Total(w - {a})
    decreases |w|
  {
    var b :| b in w && Total(w) == w[b].balance + Total(w - {b});
    if b != a {
      TotalSplits(w - {b}, a);
      TotalSplits(w - {a}, b);
      assert w - {b} - {a} == w - {a} - {b};
    }
  }

  /** Giving one account a new value moves the total by the difference of the balances. */
  lemma {:induction false} TotalUpdates(w: World, a: Address, acct: Account)
    ensures Total(w[a := acct]) + Get(w, a).balance == Total(w) + acct.balance
  {
    TotalSplits(w[a := acct], a);
    assert w[a := acct] - {a} == w - {a};
    if a in w {
      TotalSplits(w, a);
    } else {
      assert w - {a} == w;
    }
  }

  lemma {:induction false} BalanceBelowTotal(w: World, a: Address)
    ensures Get(w, a).balance <= Total(w)
  {
    if a in w {
      TotalSplits(w, a);
    }
  }

  /** A credit that keeps the total within 256 bits does not wrap. */
  lemma {:induction false} Credits(w: World, a: Address, amount: nat)
    requires Total(w) + amount < U256
    ensures Total(AddBalance(w, a, amount)) == Total(w) + amount
    ensures Get(AddBalance(w, a, amount), a) == Get(w, a).(balance := Get(w, a).balance + amount)
    ensures Fits(w) ==> Fits(AddBalance(w, a, amount))
  {
    BalanceBelowTotal(w, a);
    TotalUpdates(w, a, Get(w, a).(balance := Get(w, a).balance + amount));
  }

  /** A debit the balance covers does not wrap. */
  lemma {:induction false} Debits(w: World, a: Address, amount: nat)
    requires amount <= Get(w, a).balance < U256
    ensures Total(SubBalance(w, a, amount)) + amount == Total(w)
    ensures Get(SubBalance(w, a, amount), a) == Get(w, a).(balance := Get(w, a).balance - amount)
    ensures Fits(w) ==> Fits(SubBalance(w, a, amount))
  {
    TotalUpdates(w, a, Get(w, a).(balance := Get(w, a).balance - amount));
  }

  /** Nonces and codes are not wei. */
  lemma {:induction false} NonceIsFree(w: World, a: Address, nonce: nat)
    ensures Total(SetNonce(w, a, nonce)) == Total(w)
    ensures Fits(w) && nonce < U64 ==> Fits(SetNonce(w, a, nonce))
  {
    TotalUpdates(w, a, Get(w, a).(nonce := nonce));
  }

  lemma {:induction false} CodeIsFree(w: World, a: Address, code: Code)
    ensures Total(SetCode(w, a, code)) == Total(w)
    ensures Fits(w) ==> Fits(SetCode(w, a, code))
  {
    TotalUpdates(w, a, Get(w, a).(code := code));
  }
}
