/**
 The account state as transaction processing sees it, with the 256-bit balances of the
 original: additions and subtractions wrap.
 */
module StateDb {
  import opened Basics

  const U256: nat := 0x1_0000000000000000_0000000000000000_0000000000000000_0000000000000000

  type Address = nat

  /** The zero address. */
  const NOBODY: Address := 0

  datatype Code = NoCode | Delegation(to: Address) | Contract(id: nat)

  datatype Account = Account(balance: nat, nonce: nat, code: Code)

  datatype World = World(accounts: map<Address, Account>, refund: nat)

  function Get(w: World, a: Address): Account {
    if a in w.accounts then w.accounts[a] else Account(0, 0, NoCode)
  }

  function Set(w: World, a: Address, acc: Account): World {
    w.(accounts := w.accounts[a := acc])
  }

  function SetNonce(w: World, a: Address, n: nat): World {
    Set(w, a, Get(w, a).(nonce := n))
  }

  function SetCode(w: World, a: Address, c: Code): World {
    Set(w, a, Get(w, a).(code := c))
  }

  /** The value of `x` in 256 bits. */
  function Wrap(x: nat): (r: nat)
    ensures r < U256 && (x < U256 ==> r == x)
  {
    if x < U256 then x else Wrap(x - U256)
  }

  function AddBalance(w: World, a: Address, amount: nat): World {
    Set(w, a, Get(w, a).(balance := Wrap(Get(w, a).balance + amount)))
  }

  function SubBalance(w: World, a: Address, amount: nat): World {
    var balance := Get(w, a).balance;
    Set(w, a, Get(w, a).(balance := if amount <= balance then balance - amount else balance + U256 - Wrap(amount)))
  }

  // ------------------------------------------------------------------ the sum of all balances

  ghost function Sum(accounts: map<Address, Account>): nat {
    if accounts == map[] then 0
    else
      var a :| a in accounts;
      accounts[a].balance + Sum(accounts - {a})
  }

  ghost function Total(w: World): nat {
    Sum(w.accounts)
  }

  /** The sum does not depend on which account is taken out first. */
  lemma {:induction false} SumWithout(accounts: map<Address, Account>, a: Address)
    requires a in accounts
    ensures Sum(accounts) == accounts[a].balance + Sum(accounts - {a})
    decreases |accounts|
  {
    var b :| b in accounts && Sum(accounts) == accounts[b].balance + Sum(accounts - {b});
    if a != b {
      SumWithout(accounts - {b}, a);
      SumWithout(accounts - {a}, b);
      assert accounts - {b} - {a} == accounts - {a} - {b};
    }
  }

  /** Changing one account changes the sum by the change of its balance. */
  lemma TotalAfterSet(w: World, a: Address, acc: Account)
    ensures Total(Set(w, a, acc)) == Total(w) - Get(w, a).balance + acc.balance
    ensures Get(w, a).balance <= Total(w)
  {
    var m := w.accounts[a := acc];
    SumWithout(m, a);
    assert m - {a} == w.accounts - {a};
    if a in w.accounts {
      SumWithout(w.accounts, a);
    } else {
      assert w.accounts - {a} == w.accounts;
    }
  }

  /** A credit that keeps the sum below 2^256 does not wrap. */
  lemma CreditIsExact(w: World, a: Address, amount: nat)
    requires Total(w) + amount < U256
    ensures Total(AddBalance(w, a, amount)) == Total(w) + amount
    ensures Get(AddBalance(w, a, amount), a).balance == Get(w, a).balance + amount
  {
    TotalAfterSet(w, a, Get(w, a).(balance := Wrap(Get(w, a).balance + amount)));
  }

  /** A debit that is covered does not underflow. */
  lemma DebitIsExact(w: World, a: Address, amount: nat)
    requires amount <= Get(w, a).balance < U256
    ensures Total(SubBalance(w, a, amount)) == Total(w) - amount
    ensures Get(SubBalance(w, a, amount), a).balance == Get(w, a).balance - amount
  {
    TotalAfterSet(w, a, Get(w, a).(balance := Get(w, a).balance - amount));
  }

  /** The value transfer of a call (core/evm.go). */
  predicate CanTransfer(w: World, a: Address, amount: nat) {
    Get(w, a).balance >= amount
  }

  function Transfer(w: World, sender: Address, recipient: Address, amount: nat): World {
    AddBalance(SubBalance(w, sender, amount), recipient, amount)
  }

  /** A transfer that is allowed moves exactly the amount, creates and destroys nothing, and
      leaves someone who pays themselves as they were. */
  lemma TransferMoves(w: World, sender: Address, recipient: Address, amount: nat, a: Address)
    requires Total(w) < U256 && CanTransfer(w, sender, amount)
    ensures var after := Transfer(w, sender, recipient, amount);
            && Total(after) == Total(w)
            && Get(after, a).balance == Get(w, a).balance
                 - (if a == sender then amount else 0) + (if a == recipient then amount else 0)
  {
    TotalAfterSet(w, sender, Get(w, sender));
    DebitIsExact(w, sender, amount);
    CreditIsExact(SubBalance(w, sender, amount), recipient, amount);
  }
}
