/** One bank account (src/bank/account/account.py): a mutable record whose
    deposit and withdraw validate their amount before changing the balance. */
module Accounts {
  import opened Outcomes

  /** The flat record `to_dict` produces and `from_dict` consumes. */
  datatype AccountRecord = AccountRecord(accountNumber: int, ownerName: string, balance: real)

  class Account {
    var number: int
    var owner: string
    var balance: real

    /** `Account(account_number, owner_name, balance=0.0)`. */
    constructor (number: int, owner: string, balance: real := 0.0)
      ensures this.number == number && this.owner == owner && this.balance == balance
    {
      this.number := number;
      this.owner := owner;
      this.balance := balance;
    }

    /** Adds a positive amount; any other amount is refused and nothing changes. */
    method Deposit(amount: real) returns (r: Result<real>)
      modifies this
      ensures number == old(number) && owner == old(owner)
      ensures amount <= 0.0 ==> r == Failure(InvalidAmount) && balance == old(balance)
      ensures amount > 0.0 ==> balance == old(balance) + amount && r == Success(balance)
    {
      if amount <= 0.0 {
        return Failure(InvalidAmount);
      }
      balance := balance + amount;
      r := Success(balance);
    }

    /** Takes a positive amount no larger than the balance; a non-positive amount
        or one exceeding the balance is refused and nothing changes. */
    method Withdraw(amount: real) returns (r: Result<real>)
      modifies this
      ensures number == old(number) && owner == old(owner)
      ensures amount <= 0.0 ==> r == Failure(InvalidAmount) && balance == old(balance)
      ensures amount > 0.0 && amount > old(balance) ==>
                r == Failure(InsufficientFunds) && balance == old(balance)
      ensures 0.0 < amount <= old(balance) ==>
                balance == old(balance) - amount && r == Success(balance) && balance >= 0.0
    {
      if amount <= 0.0 {
        return Failure(InvalidAmount);
      }
      if amount > balance {
        return Failure(InsufficientFunds);
      }
      balance := balance - amount;
      r := Success(balance);
    }

    /** Reads the balance and changes nothing. */
    method GetBalance() returns (b: real)
      ensures b == balance
    {
      b := balance;
    }

    /** `to_dict`: the account as a flat record. */
    function ToDict(): (r: AccountRecord)
      reads this
      ensures r.accountNumber == number && r.ownerName == owner && r.balance == balance
    {
      AccountRecord(number, owner, balance)
    }

    /** `from_dict`: a new account built from a record, with no validation, so a
        stored negative balance comes back negative.  Converting the new account
        back with `ToDict` gives the record it came from. */
    static method FromDict(rec: AccountRecord) returns (a: Account)
      ensures fresh(a)
      ensures a.number == rec.accountNumber && a.owner == rec.ownerName && a.balance == rec.balance
      ensures a.ToDict() == rec
    {
      a := new Account(rec.accountNumber, rec.ownerName, rec.balance);
    }
  }

  /** `from_dict(to_dict(a))` reproduces the number, owner and balance of `a`. */
  method CopyThroughRecord(a: Account) returns (b: Account)
    ensures fresh(b)
    ensures b.number == a.number && b.owner == a.owner && b.balance == a.balance
  {
    b := Account.FromDict(a.ToDict());
  }
}
