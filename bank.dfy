/** The ledger (src/bank/bank.py): a `Bank` owns every account, keyed by account
    number, mints fresh account numbers from a counter, moves money between
    accounts, and writes its whole state to storage after every successful
    change. */
module Ledger {
  import opened Outcomes
  import opened Whitespace
  import opened Accounts
  import opened LedgerSpec
  import Numbering

  class Bank {
    /** `self.accounts`: account number to account. */
    var accounts: map<int, Account>
    /** The iteration order of `self.accounts`: its keys in insertion order. */
    var order: seq<int>
    /** `self.next_account_number`. */
    var nextAccountNumber: int
    /** The accounts as records (what `to_dict` gives for each), keyed by
        account number. */
    ghost var records: RecordMap
    /** The document in storage: the one read at start-up, then the one most
        recently written by `Save`; `None` while there is none. */
    ghost var saved: Option<LedgerRecord>

    /** Every account is stored under its own number and `records` holds its
        current record. */
    ghost predicate Linked()
      reads this, accounts.Values
    {
      && accounts.Keys == records.Keys
      && (forall k :: k in accounts ==> accounts[k].number == k && records[k] == AccountRecord(k, accounts[k].owner, accounts[k].balance))
    }

    /** `order` holds exactly the keys of `accounts`. */
    ghost predicate Listed()
      reads this
    {
      && (forall i :: 0 <= i < |order| ==> order[i] in accounts)
      && (forall k :: k in accounts ==> k in order)
    }

    /** The bank's invariant: linked and listed, `order` without repeats, and
        the counter at least 1 and above every account number. */
    ghost predicate Valid()
      reads this, accounts.Values
    {
      && Linked()
      && Listed()
      && NoDup(order)
      && 1 <= nextAccountNumber
      && (forall k :: k in accounts ==> k < nextAccountNumber)
    }

    /** No balance is negative.  Loading does not establish this (stored
        records are not validated); every operation preserves it. */
    ghost predicate Solvent()
      reads this
    {
      NonNegative(records)
    }

    /** The document `_save_accounts` would write now. */
    ghost function Snapshot(): LedgerRecord
      reads this
      requires forall i :: 0 <= i < |order| ==> order[i] in records
    {
      Encode(records, order, nextAccountNumber)
    }

    /** The sum of all balances. */
    ghost function TotalBalance(): real
      reads this
      requires forall i :: 0 <= i < |order| ==> order[i] in records
    {
      Total(records, order)
    }

    /** `Bank()`: an empty bank with counter 1, then loaded from the stored
        document if there is one. */
    constructor (stored: Option<LedgerRecord>)
      ensures Valid() && saved == stored
      ensures stored.None? ==> accounts == map[] && order == [] && nextAccountNumber == 1
      ensures stored.Some? ==>
                && records == LoadMap(StoredRecords(stored.value))
                && order == LoadOrder(StoredRecords(stored.value))
                && nextAccountNumber == ReconciledCounter(StoredCounter(stored.value), StoredRecords(stored.value))
    {
      accounts := map[];
      order := [];
      nextAccountNumber := 1;
      records := map[];
      saved := stored;
      new;
      if stored.Some? {
        Load(stored.value);
      }
    }

    /** `_load_accounts` after the document is read: clears the accounts,
        rebuilds them from the records, and moves the counter above every
        loaded account number. */
    method Load(doc: LedgerRecord)
      modifies this
      ensures Valid() && saved == old(saved)
      ensures records == LoadMap(StoredRecords(doc))
      ensures order == LoadOrder(StoredRecords(doc))
      ensures nextAccountNumber == ReconciledCounter(StoredCounter(doc), StoredRecords(doc))
    {
      var recs := StoredRecords(doc);
      var storedCounter := StoredCounter(doc);
      accounts := map[];
      order := [];
      records := map[];
      var maxNumber := Rebuild(recs);
      nextAccountNumber := if storedCounter >= maxNumber + 1 then storedCounter else maxNumber + 1;
    }

    /** The loading loop: every record is turned back into an account and
        stored, while the largest account number seen (at least 0) is kept. */
    method Rebuild(recs: seq<AccountRecord>) returns (maxNumber: int)
      requires accounts == map[] && records == map[] && order == []
      modifies this`accounts, this`records, this`order
      ensures Linked() && Listed() && NoDup(order)
      ensures records == LoadMap(recs) && order == LoadOrder(recs)
      ensures maxNumber == MaxNumber(recs) && 0 <= maxNumber
      ensures forall k :: k in accounts ==> k <= maxNumber
    {
      maxNumber := 0;
      for i := 0 to |recs|
        invariant Linked() && Listed()
        invariant forall k :: k in accounts ==> k <= maxNumber
        invariant records == LoadMap(recs[..i])
        invariant order == LoadOrder(recs[..i])
        invariant maxNumber == MaxNumber(recs[..i]) && 0 <= maxNumber
      {
        LoadStep(recs, i);
        Restore(recs[i]);
        if recs[i].accountNumber > maxNumber {
          maxNumber := recs[i].accountNumber;
        }
      }
      assert recs[..|recs|] == recs;
      LoadOrderKeys(recs);
    }

    /** One step of the loading loop: the account rebuilt from a record is
        stored under its number; a new key joins the end of the iteration
        order and an existing key keeps its place. */
    method Restore(rec: AccountRecord)
      requires Linked() && Listed()
      modifies this`accounts, this`records, this`order
      ensures Linked() && Listed()
      ensures accounts.Keys == old(accounts.Keys) + {rec.accountNumber}
      ensures records == old(records)[rec.accountNumber := rec]
      ensures order == if rec.accountNumber in old(accounts) then old(order) else old(order) + [rec.accountNumber]
    {
      var account := Account.FromDict(rec);
      var n := account.number;
      if n !in accounts {
        order := order + [n];
      }
      accounts := accounts[n := account];
      records := records[n := account.ToDict()];
    }

    /** `_generate_account_number`: whatever the counter, returns a nonzero
        number that is not yet an account number, and sets the counter just
        past it.  The counter itself is returned when it is free and nonzero. */
    method GenerateAccountNumber() returns (num: int)
      requires |accounts| < Numbering.Wrap - 1 || (nextAccountNumber != 0 && nextAccountNumber !in accounts)
      modifies this`nextAccountNumber
      ensures num != 0 && num !in accounts
      ensures nextAccountNumber == num + 1
      ensures old(nextAccountNumber) != 0 && old(nextAccountNumber) !in accounts ==> num == old(nextAccountNumber)
      ensures old(nextAccountNumber) >= 1 ==> num >= 1
      ensures num < Numbering.Wrap || num == old(nextAccountNumber)
      ensures old(nextAccountNumber) <= num ==>
                forall j :: old(nextAccountNumber) <= j < num ==> j in accounts || j == 0
      ensures num < old(nextAccountNumber) ==>
                && (forall j :: old(nextAccountNumber) <= j < Numbering.Wrap ==> j in accounts || j == 0)
                && (forall j :: 1 <= j < num ==> j in accounts)
    {
      num := nextAccountNumber;
      if num != 0 && num !in accounts {
        // the counter is free and nonzero, so the search loop would not run
        nextAccountNumber := num + 1;
        return;
      }
      Numbering.FreeNumberExists(accounts.Keys, Numbering.Wrap);
      ghost var free :| 1 <= free < Numbering.Wrap && free !in accounts;
      ghost var wrapped := false;
      while num in accounts || num == 0
        invariant old(nextAccountNumber) >= 1 ==> num >= 1
        invariant num < Numbering.Wrap || num == old(nextAccountNumber)
        invariant !wrapped ==>
                    && old(nextAccountNumber) <= num
                    && forall j :: old(nextAccountNumber) <= j < num ==> j in accounts || j == 0
        invariant wrapped ==>
                    && 1 <= num <= free
                    && (forall j :: old(nextAccountNumber) <= j < Numbering.Wrap ==> j in accounts || j == 0)
                    && (forall j :: 1 <= j < num ==> j in accounts)
        decreases if num <= free then free - num
                  else (if num < Numbering.Wrap then Numbering.Wrap - num else 1) + free
      {
        num := num + 1;
        if num >= Numbering.Wrap {
          num := 1;
          wrapped := true;
        }
      }
      nextAccountNumber := num + 1;
    }

    /** `_save_accounts`: writes the whole state as one document. */
    method Save()
      requires forall i :: 0 <= i < |order| ==> order[i] in records
      modifies this`saved
      ensures saved == Some(Snapshot())
    {
      saved := Some(Snapshot());
    }

    /** `create_account`: a blank owner name is refused and nothing changes;
        otherwise a new account with balance 0 is added under the counter's
        value, the counter moves past it, and the state is saved. */
    method CreateAccount(ownerName: string) returns (r: Option<int>)
      requires Valid()
      modifies this
      ensures Valid()
      ensures AllSpace(ownerName) ==>
                && r == None
                && accounts == old(accounts) && records == old(records) && order == old(order)
                && nextAccountNumber == old(nextAccountNumber) && saved == old(saved)
      ensures !AllSpace(ownerName) ==>
                && r == Some(old(nextAccountNumber))
                && r.value >= 1 && r.value !in old(accounts)
                && r.value in accounts && fresh(accounts[r.value])
                && accounts == old(accounts)[r.value := accounts[r.value]]
                && records == old(records)[r.value := AccountRecord(r.value, ownerName, 0.0)]
                && order == old(order) + [r.value]
                && nextAccountNumber == r.value + 1
                && saved == Some(Snapshot())
      ensures old(Solvent()) ==> Solvent()
    {
      StripEmptyIffBlank(ownerName);
      if Strip(ownerName) == [] {
        return None;
      }
      var n := GenerateAccountNumber();
      var account := new Account(n, ownerName);
      Insert(account);
      r := Some(n);
    }

    /** The last step of `create_account`: a new account is stored under its
        number, which joins the end of the iteration order, and the state is
        saved. */
    method Insert(account: Account)
      requires Valid() && 1 <= account.number < nextAccountNumber && account.number !in accounts
      modifies this`accounts, this`records, this`order, this`saved
      ensures Valid()
      ensures accounts == old(accounts)[account.number := account]
      ensures records == old(records)[account.number := account.ToDict()]
      ensures order == old(order) + [account.number]
      ensures saved == Some(Snapshot())
    {
      var n := account.number;
      NoDupAppend(order, n);
      accounts := accounts[n := account];
      records := records[n := account.ToDict()];
      order := order + [n];
      Save();
    }

    /** `deposit`: an unknown account number or a non-positive amount is refused
        and nothing changes; otherwise only that account's balance grows by the
        amount, the new balance is returned, and the state is saved. */
    method Deposit(n: int, amount: real) returns (r: Result<real>)
      requires Valid()
      modifies this, if n in accounts then {accounts[n]} else {}
      ensures Valid()
      ensures accounts == old(accounts) && order == old(order) && nextAccountNumber == old(nextAccountNumber)
      ensures n !in accounts ==> r == Failure(AccountNotFound(n))
      ensures n in accounts && amount <= 0.0 ==> r == Failure(InvalidAmount)
      ensures r.Failure? ==> records == old(records) && saved == old(saved)
      ensures n in accounts && amount > 0.0 ==>
                && r == Success(old(records)[n].balance + amount)
                && records == Credit(old(records), n, amount)
                && saved == Some(Snapshot())
      ensures old(Solvent()) ==> Solvent()
    {
      if n !in accounts {
        return Failure(AccountNotFound(n));
      }
      var account := accounts[n];
      r := account.Deposit(amount);
      if r.Failure? {
        return;
      }
      records := records[n := account.ToDict()];
      forall k | k in accounts
        ensures accounts[k].number == k && records[k] == AccountRecord(k, accounts[k].owner, accounts[k].balance)
      {
        if k != n {
          assert old(accounts[k].number) == k;
          assert accounts[k] != account;
        }
      }
      Save();
    }

    /** `withdraw`: an unknown account number, a non-positive amount or one
        exceeding the balance is refused and nothing changes; otherwise only
        that account's balance drops by the amount, the new balance is
        returned, and the state is saved. */
    method Withdraw(n: int, amount: real) returns (r: Result<real>)
      requires Valid()
      modifies this, if n in accounts then {accounts[n]} else {}
      ensures Valid()
      ensures accounts == old(accounts) && order == old(order) && nextAccountNumber == old(nextAccountNumber)
      ensures n !in accounts ==> r == Failure(AccountNotFound(n))
      ensures n in accounts && amount <= 0.0 ==> r == Failure(InvalidAmount)
      ensures n in accounts && 0.0 < amount && amount > old(records)[n].balance ==> r == Failure(InsufficientFunds)
      ensures r.Failure? ==> records == old(records) && saved == old(saved)
      ensures n in accounts && 0.0 < amount <= old(records)[n].balance ==>
                && r == Success(old(records)[n].balance - amount)
                && records == Credit(old(records), n, -amount)
                && saved == Some(Snapshot())
      ensures old(Solvent()) ==> Solvent()
    {
      if n !in accounts {
        return Failure(AccountNotFound(n));
      }
      var account := accounts[n];
      r := account.Withdraw(amount);
      if r.Failure? {
        return;
      }
      records := records[n := account.ToDict()];
      forall k | k in accounts
        ensures accounts[k].number == k && records[k] == AccountRecord(k, accounts[k].owner, accounts[k].balance)
      {
        if k != n {
          assert old(accounts[k].number) == k;
          assert accounts[k] != account;
        }
      }
      Save();
    }

    /** `transfer`: every check runs before either balance changes, in the
        order same account, amount, source, destination, funds; on success the
        source loses and the destination gains the amount, nothing else
        changes, the total is kept, and one save covers both changes. */
    method Transfer(from: int, to: int, amount: real) returns (r: Outcome)
      requires Valid()
      modifies this, if from in accounts && to in accounts then {accounts[from], accounts[to]} else {}
      ensures Valid()
      ensures accounts == old(accounts) && order == old(order) && nextAccountNumber == old(nextAccountNumber)
      ensures from == to ==> r == Fail(SameAccount)
      ensures from != to && amount <= 0.0 ==> r == Fail(InvalidAmount)
      ensures from != to && amount > 0.0 && from !in accounts ==> r == Fail(SourceNotFound(from))
      ensures from != to && amount > 0.0 && from in accounts && to !in accounts ==> r == Fail(DestinationNotFound(to))
      ensures from != to && amount > 0.0 && from in accounts && to in accounts && amount > old(records)[from].balance ==>
                r == Fail(InsufficientFunds)
      ensures from != to && amount > 0.0 && from in accounts && to in accounts && amount <= old(records)[from].balance ==>
                r == Pass
      ensures r.Fail? ==> records == old(records) && saved == old(saved)
      ensures r.Pass? ==>
                && from != to && from in accounts && to in accounts
                && 0.0 < amount <= old(records)[from].balance
                && records == Credit(Credit(old(records), from, -amount), to, amount)
                && saved == Some(Snapshot())
      ensures TotalBalance() == old(TotalBalance())
      ensures old(Solvent()) ==> Solvent()
    {
      if from == to {
        return Fail(SameAccount);
      }
      if amount <= 0.0 {
        return Fail(InvalidAmount);
      }
      if from !in accounts {
        return Fail(SourceNotFound(from));
      }
      if to !in accounts {
        return Fail(DestinationNotFound(to));
      }
      if amount > accounts[from].balance {
        return Fail(InsufficientFunds);
      }
      TransferPreservesTotal(records, order, from, to, amount);
      Move(from, to, amount);
      r := Pass;
    }

    /** The last step of `transfer`: the source loses and the destination
        gains the amount, then one save covers both changes. */
    method Move(from: int, to: int, amount: real)
      requires Valid() && from in accounts && to in accounts && from != to
      modifies this`records, this`saved, accounts[from], accounts[to]
      ensures Valid()
      ensures records == Credit(Credit(old(records), from, -amount), to, amount)
      ensures saved == Some(Snapshot())
    {
      var source, destination := accounts[from], accounts[to];
      source.balance := source.balance - amount;
      destination.balance := destination.balance + amount;
      records := Credit(Credit(records, from, -amount), to, amount);
      forall k | k in accounts
        ensures accounts[k].number == k && records[k] == AccountRecord(k, accounts[k].owner, accounts[k].balance)
      {
        if k != from && k != to {
          assert old(accounts[k].number) == k;
          assert accounts[k] != source && accounts[k] != destination;
        }
      }
      Save();
    }

    /** `check_balance`, as a lookup: the record of the account, or `None` when
        the number is unknown.  Changes nothing. */
    method CheckBalance(n: int) returns (r: Option<AccountRecord>)
      requires Valid()
      ensures n in accounts <==> r.Some?
      ensures n in accounts ==> r.value == records[n] && r.value.accountNumber == n
    {
      if n in accounts {
        r := Some(accounts[n].ToDict());
      } else {
        r := None;
      }
    }
  }
}
