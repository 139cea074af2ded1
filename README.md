# Banking ledger in Dafny

This project models the core of a small Python banking ledger and proves
properties of it. The ledger keeps bank accounts in memory and persists
them to a JSON document. It has two classes:

- `Account` (`src/bank/account/account.py`) is one mutable account record.
  Its `deposit` and `withdraw` validate the amount before changing the
  balance. `to_dict`/`from_dict` convert it to and from a flat record.
- `Bank` (`src/bank/bank.py`) owns a dictionary from account number to
  account and a counter for the next account number. It creates accounts
  under fresh numbers, deposits, withdraws and transfers. After every
  successful change it writes its whole state as one document. At start-up
  it rebuilds itself from the stored document and moves the counter above
  every loaded number.

Modules, one per concept:

- `Outcomes` (`outcomes.dfy`): every cause of a `ValueError` in the source
  becomes an `Error` constructor. The three non-positive-amount messages share
  `InvalidAmount` and the two insufficient-funds messages share
  `InsufficientFunds`. Operations return `Result`/`Outcome` values instead of
  raising.
- `Whitespace` (`whitespace.dfy`): Python's `str.strip()` and `str.isspace()`,
  used by `create_account` to refuse blank owner names.
- `Accounts` (`account.dfy`): the `AccountRecord` value (the `to_dict` form)
  and the `Account` class.
- `Amounts` (`amounts.dfy`): amounts as Python floats with NaN and the
  infinities, to show what the amount checks let through (see "## Findings").
- `Numbering` (`numbering.dfy`): the pigeonhole fact that keeps the
  account-number search finite.
- `LedgerSpec` (`ledger_spec.dfy`): the ledger as values. It holds the map
  from number to record and the sum of balances. It defines the document
  `_save_accounts` writes (`Encode`, `SaveRecords`) and what `_load_accounts`
  rebuilds from one (`LoadMap`, `LoadOrder`, `ReconciledCounter`). It proves
  save→load is the identity.
- `Ledger` (`bank.dfy`): the `Bank` class.
  - The Python dictionary is the field `accounts: map<int, Account>`.
  - Its insertion order, which decides the order of the saved list, is the
    field `order`.
  - A ghost field `records` mirrors each account's `to_dict` record.
  - A ghost field `saved` holds the document last written to storage, or the
    one read at start-up.
  - The invariant `Valid()` holds three facts:
    - every account sits under its own number;
    - `order` lists each key once;
    - the counter is at least 1 and above every key.

Every `Bank` operation keeps `Valid()` and states its exact new state. Each
failure leaves everything unchanged, storage included. Each success ends
with `saved` equal to the snapshot of the new state.

## Model

| member | source | states |
|---|---|---|
| Accounts.Account.constructor | src/bank/account/account.py:5-8 | the account holds the given number, owner and balance; the balance defaults to 0.0 |
| Accounts.Account.Deposit | src/bank/account/account.py:10-26 | a non-positive amount fails with InvalidAmount and leaves the balance alone; otherwise the balance grows by exactly the amount and the new balance is returned; number and owner never change |
| Accounts.Account.Withdraw | src/bank/account/account.py:28-46 | a non-positive amount fails with InvalidAmount; an amount above the balance fails with InsufficientFunds; both leave the balance alone; otherwise the balance drops by exactly the amount, stays non-negative, and the new balance is returned |
| Accounts.Account.GetBalance | src/bank/account/account.py:48-50 | returns the current balance and changes nothing |
| Accounts.Account.ToDict | src/bank/account/account.py:58-64 | the record of the account's number, owner and balance |
| Accounts.Account.FromDict | src/bank/account/account.py:58-73 | builds a new account whose fields are the record's, with no validation, so that `to_dict` of it gives back the record |
| Accounts.CopyThroughRecord | src/bank/account/account.py:58-73 | `from_dict(to_dict(a))` is a new account with the number, owner and balance of `a` |
| Whitespace.StripLeftIsSuffix | src/bank/bank.py:41 | the left strip of `strip()` keeps a suffix that starts with a non-space, and every character it drops is white space |
| Whitespace.StripRightIsPrefix | src/bank/bank.py:41 | the right strip keeps a prefix that ends with a non-space, and every character it drops is white space |
| Whitespace.StripEmptyIffBlank | src/bank/bank.py:41-43 | `not owner_name.strip()` holds exactly when the name is empty or all white space (both directions) |
| Amounts.NonFiniteAmountsAccepted | src/bank/account/account.py:23-46 | as written, the amount checks accept NaN and infinity: a deposit of NaN or infinity into an empty account succeeds, withdrawing infinity from an infinite balance leaves NaN, and any withdrawal from a NaN balance passes the funds check; none of these balances is a finite non-negative number |
| Amounts.CheckedStaysSound | src/bank/account/account.py:23-46 | with amounts required to be finite and positive, a finite non-negative balance stays one: a deposit succeeds exactly for a valid amount and adds it, a withdrawal succeeds exactly for a valid amount no larger than the balance and subtracts it |
| Numbering.Range | src/bank/bank.py:22-27 | the integer interval searched for a free number has exactly `hi - lo` members |
| Numbering.FreeNumberExists | src/bank/bank.py:22-27 | with fewer than `hi - 1` accounts some number in `[1, hi)` is free, so the search ends |
| Ledger.Bank.constructor | src/bank/bank.py:15-18 | with no stored document the bank is empty with counter 1; otherwise it holds exactly what loading the document rebuilds; the invariant holds either way |
| Ledger.Bank.Load | src/bank/bank.py:168-182 | the accounts become exactly the rebuilt map and order of the stored records, and the counter becomes the larger of the stored counter and one more than the running maximum (the larger of 0 and the largest loaded number); the invariant is established |
| Ledger.Bank.Rebuild | src/bank/bank.py:172-177 | the loading loop leaves the rebuilt map and order of all records and the running maximum of their numbers, which bounds every key |
| Ledger.Bank.Restore | src/bank/bank.py:174-175 | one loop step stores the account rebuilt from the record under its number; a new number joins the end of the order and an existing one keeps its place |
| Ledger.Bank.GenerateAccountNumber | src/bank/bank.py:20-29 | returns a nonzero number that is not an account number and sets the counter just past it; it returns the counter itself when that is free and nonzero; otherwise the result is the first free nonzero number scanning up from the counter: either every number from the counter up to the result is taken (or 0), or the scan wrapped, so every number from the counter up to 2^32 − 1 and every number from 1 up to the result is taken |
| Ledger.Bank.Save | src/bank/bank.py:193-201 | storage afterwards holds the counter and every account record in dictionary order |
| Ledger.Bank.CreateAccount | src/bank/bank.py:31-53 | a blank owner name gives None and changes nothing, storage included; otherwise the counter's old value is returned, a fresh account with balance 0 is stored under it at the end of the order, the counter moves past it, nothing else changes, and the state is saved |
| Ledger.Bank.Insert | src/bank/bank.py:47-52 | a new account is stored under its number at the end of the order, the invariant is kept, and the state is saved |
| Ledger.Bank.Deposit | src/bank/bank.py:55-74 | an unknown number fails with AccountNotFound, a non-positive amount with InvalidAmount, and a failure changes nothing, storage included; on success only that account's balance grows by the amount, the new balance is returned, and the state is saved; no balance becomes negative |
| Ledger.Bank.Withdraw | src/bank/bank.py:76-95 | as Deposit, plus InsufficientFunds when the amount exceeds the balance; on success only that balance drops by the amount |
| Ledger.Bank.Transfer | src/bank/bank.py:97-130 | the checks run in the source's order: same account, amount, source, destination, funds; each failure changes nothing; when all five checks pass the transfer succeeds, and then the source loses and the destination gains the amount, nothing else changes, the total of all balances is unchanged, no balance becomes negative, and one save follows |
| Ledger.Bank.Move | src/bank/bank.py:127-130 | debits the source and credits the destination by the amount, keeps the invariant, and saves once |
| Ledger.Bank.CheckBalance | src/bank/bank.py:132-145 | finds the account's record exactly when the number is known; changes nothing |
| LedgerSpec.TotalCredit | src/bank/bank.py:72-73 | a deposit or withdrawal changes the sum of all balances by exactly the amount |
| LedgerSpec.TransferPreservesTotal | src/bank/bank.py:124-130 | a transfer between two distinct accounts keeps the sum of all balances; with a covered amount it creates no negative balance |
| LedgerSpec.MaxNumberIsMax | src/bank/bank.py:172-177 | the loop's running maximum is 0 or the largest loaded number, and no loaded number exceeds it |
| LedgerSpec.ReconciledCounterIsLeast | src/bank/bank.py:179-182 | the counter after a load is at least the stored counter and at least 1, above every loaded number, and is the least such value |
| LedgerSpec.LoadMapKeys | src/bank/bank.py:173-175 | the rebuilt map's keys are exactly the loaded account numbers, each mapped to a record carrying that number |
| LedgerSpec.LoadMapLatest | src/bank/bank.py:173-175 | when a number occurs more than once, the last record with it wins |
| LedgerSpec.LoadOrderKeys | src/bank/bank.py:173-175 | the rebuilt insertion order lists every key of the rebuilt map exactly once |
| LedgerSpec.LoadSavedMap | src/bank/bank.py:197-201 | loading a saved account list gives back exactly the saved keys, each with its record |
| LedgerSpec.LoadSavedOrder | src/bank/bank.py:197-201 | loading a saved account list gives back the saved dictionary order |
| LedgerSpec.SavedCounterKept | src/bank/bank.py:179-182 | reconciling a saved counter that already exceeds every saved number leaves it unchanged |
| LedgerSpec.LoadAfterSave | src/bank/bank.py:168-201 | save then load reproduces the map, the order and the counter of any valid state |

## Left out

- `src/main.py` (the menu loop) and `src/io/io_util.py` (console input helpers) are not part of this model.
- File and JSON I/O: the stored document is a value passed to the constructor (`None` when the data file does not exist). What `Save` would write is the ghost field `saved`.
- A load that fails (the source catches every exception and prints it). A read error, a JSON parse error, or a document that is not an object fails before `self.accounts.clear()` (`src/bank/bank.py:166-170`), so the bank keeps its empty starting state with counter 1. A record missing a field fails inside the loop (`src/bank/bank.py:173-177`), leaving the accounts rebuilt so far and the counter not reconciled. A stored counter that cannot be compared with an integer fails at the `max` (`src/bank/bank.py:179-182`), leaving every account loaded but the counter at 1. The model assumes a well-formed document. Missing top-level fields get the source's defaults (an empty list and counter 1).
- Write failures in `_save_accounts`, which the source catches and prints. Also a failure of `os.makedirs` (`src/bank/bank.py:195`), which runs outside the `try`: its exception leaves `create_account`, `deposit`, `withdraw` or `transfer` after the in-memory change has already happened. The model's save always succeeds.
- `display_info`, `list_all_accounts` and the printing in `check_balance` are console output. CheckBalance returns the record instead.
- The "range exhausted" warning printed by `_generate_account_number`.
- Floating point: amounts and balances are exact `real`s, so rounding in `+=`/`-=` is not modelled. Neither are NaN and the infinities, which Python's `float()` accepts from the console (`src/io/io_util.py:55`) and which the menu passes to `deposit`, `withdraw` and `transfer` (`src/main.py:80`, `:108`, `:141`). NaN passes every `amount <= 0` check and makes `amount > balance` false, and infinity passes the amount check too (see "## Findings"). So `Ledger.Bank.Deposit`, `Ledger.Bank.Withdraw`, `Ledger.Bank.Transfer`, `LedgerSpec.TotalCredit` and `LedgerSpec.TransferPreservesTotal` hold for finite amounts only. With a NaN balance a transfer passes the funds check and credits the destination out of nothing, and balances stop being non-negative, so neither the total nor `Solvent()` is kept. JSON keeps NaN through a save and a reload.
- Values of the wrong type in a stored record, which `from_dict` accepts unchecked. Records here have an `int` number, a `string` owner and a `real` balance.
- Ledger.Bank.GenerateAccountNumber: when the counter is 0 or already an account number, it requires fewer than 2^32 − 2 accounts. With every number in use, the source's search never ends. The bank's invariant keeps the counter free, so `create_account` never needs this bound.
- Ledger.Bank.Load: does not state that the rebuilt `Account` objects are new objects. It states the records they hold.
- Ledger.Bank.Deposit: states the new state through `Credit`. That the total grows by exactly the amount is proved separately, by LedgerSpec.TotalCredit, not on the method.
- Ledger.Bank.Withdraw: likewise, the total dropping by the amount is proved by LedgerSpec.TotalCredit.

## Findings

| source | as written | input that shows it | evidently intended | confidence | as-written member | corrected member |
|---|---|---|---|---|---|---|
| src/bank/account/account.py:23-46 (same checks in src/bank/bank.py:114-125) | only `amount <= 0` and `amount > balance` are refused; both comparisons are false for NaN, and infinity passes the first | `deposit(n, float("nan"))`, then `transfer(n, m, 1000.0)` succeeds and credits `m`; or `deposit(n, float("inf"))` then `withdraw(n, float("inf"))` leaves a NaN balance | only finite positive amounts are accepted, so balances stay finite and non-negative | medium, not executed | Amounts.NonFiniteAmountsAccepted | Amounts.CheckedStaysSound |

The rest of the model holds amounts as `real`s, which are always finite, so its `amount <= 0.0` checks are the corrected check.
