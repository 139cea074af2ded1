/** The ledger at the level of values (src/bank/bank.py): the accounts as a map
    from account number to record, the stored document that `_save_accounts`
    writes and `_load_accounts` reads back, and the sum of all balances. */
module LedgerSpec {
  import opened Outcomes
  import opened Accounts

  /** The accounts as values, keyed by account number. */
  type RecordMap = map<int, AccountRecord>

  /** The stored document `{"next_account_number": …, "accounts": […]}`; a field
      missing from the document is `None`. */
  datatype LedgerRecord = LedgerRecord(nextAccountNumber: Option<int>, accounts: Option<seq<AccountRecord>>)

  predicate NoDup(s: seq<int>) {
    forall i, j :: 0 <= i < j < |s| ==> s[i] != s[j]
  }

  predicate NonNegative(view: RecordMap) {
    forall k :: k in view ==> view[k].balance >= 0.0
  }

  /** Appending a value not yet in a duplicate-free list keeps it free of
      duplicates. */
  lemma NoDupAppend(s: seq<int>, x: int)
    requires NoDup(s) && x !in s
    ensures NoDup(s + [x])
  {
  }

  // ---------------------------------------------------------------------------
  // Balances

  /** The view with `amount` added to the balance of account `n`. */
  function Credit(view: RecordMap, n: int, amount: real): (r: RecordMap)
    requires n in view
  {
    view[n := view[n].(balance := view[n].balance + amount)]
  }

  /** The sum of the balances of the accounts listed in `keys`. */
  function Total(view: RecordMap, keys: seq<int>): real
    requires forall i :: 0 <= i < |keys| ==> keys[i] in view
  {
    if keys == [] then 0.0
    else Total(view, keys[..|keys| - 1]) + view[keys[|keys| - 1]].balance
  }

  /** Crediting one account changes the sum over a duplicate-free list of keys
      by exactly the amount when the account is listed, and not at all
      otherwise. */
  lemma {:induction false} TotalCredit(view: RecordMap, keys: seq<int>, n: int, amount: real)
    requires n in view && NoDup(keys)
    requires forall i :: 0 <= i < |keys| ==> keys[i] in view
    ensures Total(Credit(view, n, amount), keys) == Total(view, keys) + (if n in keys then amount else 0.0)
  {
    if keys != [] {
      var front := keys[..|keys| - 1];
      TotalCredit(view, front, n, amount);
      assert keys == front + [keys[|keys| - 1]];
      assert n in keys <==> n in front || n == keys[|keys| - 1];
    }
  }

  /** A transfer debits one listed account and credits another by the same
      amount, so the sum over the list is unchanged; and when the source had at
      least the amount, no balance becomes negative. */
  lemma TransferPreservesTotal(view: RecordMap, keys: seq<int>, from: int, to: int, amount: real)
    requires from in keys && to in keys && from != to && NoDup(keys)
    requires forall i :: 0 <= i < |keys| ==> keys[i] in view
    ensures Total(Credit(Credit(view, from, -amount), to, amount), keys) == Total(view, keys)
    ensures NonNegative(view) && 0.0 < amount <= view[from].balance ==>
              NonNegative(Credit(Credit(view, from, -amount), to, amount))
  {
    TotalCredit(view, keys, from, -amount);
    TotalCredit(Credit(view, from, -amount), keys, to, amount);
  }

  // ---------------------------------------------------------------------------
  // Loading: rebuilding the map and reconciling the counter

  /** The running maximum of `_load_accounts`: it starts at 0 and is raised by
      every larger account number. */
  function MaxNumber(recs: seq<AccountRecord>): int {
    if recs == [] then 0
    else
      var front := MaxNumber(recs[..|recs| - 1]);
      if recs[|recs| - 1].accountNumber > front then recs[|recs| - 1].accountNumber else front
  }

  /** The running maximum is 0 or the largest account number, and no number
      exceeds it. */
  lemma {:induction false} MaxNumberIsMax(recs: seq<AccountRecord>)
    ensures MaxNumber(recs) >= 0
    ensures forall i :: 0 <= i < |recs| ==> recs[i].accountNumber <= MaxNumber(recs)
    ensures MaxNumber(recs) == 0 || exists i :: 0 <= i < |recs| && recs[i].accountNumber == MaxNumber(recs)
  {
    if recs != [] {
      var front := recs[..|recs| - 1];
      MaxNumberIsMax(front);
      assert forall i :: 0 <= i < |front| ==> recs[i] == front[i];
      if MaxNumber(recs) != 0 && MaxNumber(recs) == MaxNumber(front) {
        var i :| 0 <= i < |front| && front[i].accountNumber == MaxNumber(front);
        assert recs[i].accountNumber == MaxNumber(recs);
      }
    }
  }

  /** The counter after a load: the larger of the stored counter and one more
      than the running maximum. */
  function ReconciledCounter(stored: int, recs: seq<AccountRecord>): int {
    var mx := MaxNumber(recs);
    if stored >= mx + 1 then stored else mx + 1
  }

  /** The reconciled counter is at least the stored counter, at least 1 and
      above every loaded account number, and it is the least such value: it is
      the stored counter, or 1, or one more than a loaded account number. */
  lemma ReconciledCounterIsLeast(stored: int, recs: seq<AccountRecord>)
    ensures ReconciledCounter(stored, recs) >= stored && ReconciledCounter(stored, recs) >= 1
    ensures forall i :: 0 <= i < |recs| ==> recs[i].accountNumber < ReconciledCounter(stored, recs)
    ensures var c := ReconciledCounter(stored, recs);
            c == stored || c == 1 || exists i :: 0 <= i < |recs| && recs[i].accountNumber == c - 1
  {
    MaxNumberIsMax(recs);
  }

  /** The map `_load_accounts` rebuilds: each record stored under its own
      number, a later record with the same number replacing an earlier one. */
  function LoadMap(recs: seq<AccountRecord>): RecordMap {
    if recs == [] then map[]
    else
      var last := recs[|recs| - 1];
      LoadMap(recs[..|recs| - 1])[last.accountNumber := last]
  }

  /** The rebuilt map has exactly the account numbers of the records as keys,
      and stores every record under its own number. */
  lemma {:induction false} LoadMapKeys(recs: seq<AccountRecord>)
    ensures forall k :: k in LoadMap(recs) <==> exists i :: 0 <= i < |recs| && recs[i].accountNumber == k
    ensures forall k :: k in LoadMap(recs) ==> LoadMap(recs)[k].accountNumber == k
  {
    if recs != [] {
      var front := recs[..|recs| - 1];
      LoadMapKeys(front);
      assert forall i :: 0 <= i < |front| ==> recs[i] == front[i];
      forall k | (exists i :: 0 <= i < |recs| && recs[i].accountNumber == k)
        ensures k in LoadMap(recs)
      {
        var i :| 0 <= i < |recs| && recs[i].accountNumber == k;
        if i < |front| {
          assert front[i].accountNumber == k;
        }
      }
    }
  }

  /** The record stored under a number is the last record carrying it. */
  lemma {:induction false} LoadMapLatest(recs: seq<AccountRecord>, i: int)
    requires 0 <= i < |recs|
    requires forall j :: i < j < |recs| ==> recs[j].accountNumber != recs[i].accountNumber
    ensures recs[i].accountNumber in LoadMap(recs) && LoadMap(recs)[recs[i].accountNumber] == recs[i]
  {
    if i < |recs| - 1 {
      LoadMapLatest(recs[..|recs| - 1], i);
    }
  }

  /** The iteration order of the rebuilt dictionary: each number at the
      position where it was first inserted. */
  function LoadOrder(recs: seq<AccountRecord>): seq<int> {
    if recs == [] then []
    else
      var front := LoadOrder(recs[..|recs| - 1]);
      var n := recs[|recs| - 1].accountNumber;
      if n in front then front else front + [n]
  }

  /** The iteration order lists every key of the rebuilt map exactly once. */
  lemma {:induction false} LoadOrderKeys(recs: seq<AccountRecord>)
    ensures NoDup(LoadOrder(recs))
    ensures forall k :: k in LoadOrder(recs) <==> k in LoadMap(recs)
  {
    if recs != [] {
      var front := recs[..|recs| - 1];
      LoadOrderKeys(front);
      var n := recs[|recs| - 1].accountNumber;
      if n !in LoadOrder(front) {
        NoDupAppend(LoadOrder(front), n);
      }
    }
  }

  /** One step of the loop in `_load_accounts`: the effect of the record at
      index `i` on the map, the order and the running maximum. */
  lemma LoadStep(recs: seq<AccountRecord>, i: int)
    requires 0 <= i < |recs|
    ensures LoadMap(recs[..i + 1]) == LoadMap(recs[..i])[recs[i].accountNumber := recs[i]]
    ensures LoadOrder(recs[..i + 1]) ==
              if recs[i].accountNumber in LoadOrder(recs[..i]) then LoadOrder(recs[..i])
              else LoadOrder(recs[..i]) + [recs[i].accountNumber]
    ensures MaxNumber(recs[..i + 1]) ==
              if recs[i].accountNumber > MaxNumber(recs[..i]) then recs[i].accountNumber else MaxNumber(recs[..i])
  {
    assert recs[..i + 1][..i] == recs[..i];
  }

  function StoredCounter(doc: LedgerRecord): int {
    match doc.nextAccountNumber
    case Some(n) => n
    case None => 1
  }

  function StoredRecords(doc: LedgerRecord): seq<AccountRecord> {
    match doc.accounts
    case Some(recs) => recs
    case None => []
  }

  // ---------------------------------------------------------------------------
  // Saving

  /** The account list `_save_accounts` writes: one record per key, in order. */
  function SaveRecords(view: RecordMap, order: seq<int>): (recs: seq<AccountRecord>)
    requires forall i :: 0 <= i < |order| ==> order[i] in view
  {
    seq(|order|, i requires 0 <= i < |order| => view[order[i]])
  }

  /** The document `_save_accounts` writes for the given state. */
  function Encode(view: RecordMap, order: seq<int>, counter: int): LedgerRecord
    requires forall i :: 0 <= i < |order| ==> order[i] in view
  {
    LedgerRecord(Some(counter), Some(SaveRecords(view, order)))
  }

  /** Loading what was saved under a duplicate-free order gives back exactly
      the keys of that order, each with its record from the view. */
  lemma {:induction false} LoadSavedMap(view: RecordMap, order: seq<int>)
    requires NoDup(order)
    requires forall i :: 0 <= i < |order| ==> order[i] in view && view[order[i]].accountNumber == order[i]
    ensures forall k :: k in LoadMap(SaveRecords(view, order)) <==> k in order
    ensures forall i :: 0 <= i < |order| ==> LoadMap(SaveRecords(view, order))[order[i]] == view[order[i]]
  {
    if order != [] {
      var front := order[..|order| - 1];
      var recs := SaveRecords(view, order);
      assert recs[..|recs| - 1] == SaveRecords(view, front);
      LoadSavedMap(view, front);
      assert order == front + [order[|order| - 1]];
    }
  }

  /** Loading what was saved under a duplicate-free order lists the keys in
      that same order. */
  lemma {:induction false} LoadSavedOrder(view: RecordMap, order: seq<int>)
    requires NoDup(order)
    requires forall i :: 0 <= i < |order| ==> order[i] in view && view[order[i]].accountNumber == order[i]
    ensures LoadOrder(SaveRecords(view, order)) == order
  {
    if order != [] {
      var front := order[..|order| - 1];
      var last := order[|order| - 1];
      var recs := SaveRecords(view, order);
      assert recs[..|recs| - 1] == SaveRecords(view, front);
      LoadSavedOrder(view, front);
      assert order == front + [last];
    }
  }

  /** Reconciling the counter of a saved state changes nothing when the counter
      was already at least 1 and above every saved account number. */
  lemma SavedCounterKept(view: RecordMap, order: seq<int>, counter: int)
    requires forall i :: 0 <= i < |order| ==> order[i] in view && order[i] < counter
    requires forall k :: k in view ==> view[k].accountNumber == k
    requires counter >= 1
    ensures ReconciledCounter(counter, SaveRecords(view, order)) == counter
  {
    var recs := SaveRecords(view, order);
    var mx := MaxNumber(recs);
    MaxNumberIsMax(recs);
    if mx != 0 {
      var i :| 0 <= i < |recs| && recs[i].accountNumber == mx;
      assert recs[i] == view[order[i]];
    }
  }

  /** Save followed by load is the identity on a state whose order lists every
      key once and whose counter is above every key and at least 1. */
  lemma LoadAfterSave(view: RecordMap, order: seq<int>, counter: int)
    requires NoDup(order)
    requires forall i :: 0 <= i < |order| ==> order[i] in view
    requires forall k :: k in view ==> k in order
    requires forall k :: k in view ==> view[k].accountNumber == k
    requires counter >= 1 && forall k :: k in view ==> k < counter
    ensures LoadMap(StoredRecords(Encode(view, order, counter))) == view
    ensures LoadOrder(StoredRecords(Encode(view, order, counter))) == order
    ensures ReconciledCounter(StoredCounter(Encode(view, order, counter)),
                              StoredRecords(Encode(view, order, counter))) == counter
  {
    var doc := Encode(view, order, counter);
    var recs := SaveRecords(view, order);
    assert StoredRecords(doc) == recs && StoredCounter(doc) == counter;
    LoadSavedMap(view, order);
    LoadSavedOrder(view, order);
    SavedCounterKept(view, order, counter);
    var loaded := LoadMap(recs);
    forall k | k in view
      ensures k in loaded && loaded[k] == view[k]
    {
      var i :| 0 <= i < |order| && order[i] == k;
    }
    forall k | k in loaded
      ensures k in view
    {
      var i :| 0 <= i < |order| && order[i] == k;
    }
    assert loaded.Keys == view.Keys;
    assert loaded == view;
  }
}
