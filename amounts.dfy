/** Amounts as Python floats, with the non-finite values `float()` accepts
    ("nan", "inf", "-inf").  The rest of the model keeps balances as exact
    reals; this module only shows what the amount checks of
    src/bank/account/account.py do with the values a real cannot hold.
    Finite arithmetic is exact here too: only NaN and the infinities are
    added. */
module Amounts {
  import opened Outcomes

  datatype Float = Finite(v: real) | PosInf | NegInf | NaN

  /** IEEE 754 `a <= b`: false whenever either side is NaN. */
  predicate LessEq(a: Float, b: Float)
  {
    match (a, b)
    case (NaN, _) => false
    case (_, NaN) => false
    case (NegInf, _) => true
    case (_, PosInf) => true
    case (Finite(x), Finite(y)) => x <= y
    case (_, _) => false
  }

  /** IEEE 754 `a > b`: false whenever either side is NaN. */
  predicate Greater(a: Float, b: Float)
  {
    !a.NaN? && !b.NaN? && !LessEq(a, b)
  }

  /** IEEE 754 `a + b`; infinities of opposite sign give NaN. */
  function Add(a: Float, b: Float): Float
  {
    match (a, b)
    case (NaN, _) => NaN
    case (_, NaN) => NaN
    case (PosInf, NegInf) => NaN
    case (NegInf, PosInf) => NaN
    case (PosInf, _) => PosInf
    case (NegInf, _) => NegInf
    case (_, PosInf) => PosInf
    case (_, NegInf) => NegInf
    case (Finite(x), Finite(y)) => Finite(x + y)
  }

  function Negate(a: Float): Float
  {
    match a
    case Finite(x) => Finite(-x)
    case PosInf => NegInf
    case NegInf => PosInf
    case NaN => NaN
  }

  /** IEEE 754 `a - b`. */
  function Sub(a: Float, b: Float): Float
  {
    Add(a, Negate(b))
  }

  const Zero := Finite(0.0)

  /** A balance the rest of the model can hold: finite and not negative. */
  predicate Sound(b: Float)
  {
    b.Finite? && b.v >= 0.0
  }

  /** `deposit` as written: only `amount <= 0` is refused. */
  function DepositAsWritten(balance: Float, amount: Float): Result<Float>
  {
    if LessEq(amount, Zero) then Failure(InvalidAmount)
    else Success(Add(balance, amount))
  }

  /** `withdraw` as written: `amount <= 0`, then `amount > balance`, are refused.
      `transfer` runs the same two checks on the source balance. */
  function WithdrawAsWritten(balance: Float, amount: Float): Result<Float>
  {
    if LessEq(amount, Zero) then Failure(InvalidAmount)
    else if Greater(amount, balance) then Failure(InsufficientFunds)
    else Success(Sub(balance, amount))
  }

  /** Starting from an empty account, the checks as written let the balance
      stop being a non-negative number, and then let any withdrawal through:
      NaN passes `amount <= 0`, and `amount > balance` is false against a NaN
      balance.  Depositing infinity and withdrawing infinity reaches NaN too. */
  lemma NonFiniteAmountsAccepted()
    ensures DepositAsWritten(Zero, NaN) == Success(NaN)
    ensures DepositAsWritten(Zero, PosInf) == Success(PosInf)
    ensures WithdrawAsWritten(PosInf, PosInf) == Success(NaN)
    ensures WithdrawAsWritten(NaN, Finite(1000.0)) == Success(NaN)
    ensures !Sound(NaN) && !Sound(PosInf)
  {
  }

  /** The intended check: an amount must be a finite positive number. */
  predicate ValidAmount(amount: Float)
  {
    amount.Finite? && amount.v > 0.0
  }

  function Deposit(balance: Float, amount: Float): Result<Float>
  {
    if !ValidAmount(amount) then Failure(InvalidAmount)
    else Success(Add(balance, amount))
  }

  function Withdraw(balance: Float, amount: Float): Result<Float>
  {
    if !ValidAmount(amount) then Failure(InvalidAmount)
    else if Greater(amount, balance) then Failure(InsufficientFunds)
    else Success(Sub(balance, amount))
  }

  /** With the finite check, a sound balance stays sound, and each operation
      is exactly the real-valued one `Account.Deposit`/`Account.Withdraw`
      perform: refused unless the amount is a positive number (and, for a
      withdrawal, at most the balance), otherwise the exact sum or difference. */
  lemma CheckedStaysSound(balance: Float, amount: Float)
    requires Sound(balance)
    ensures Deposit(balance, amount).Success? <==> ValidAmount(amount)
    ensures Deposit(balance, amount).Success? ==>
              Deposit(balance, amount).value == Finite(balance.v + amount.v)
              && Sound(Deposit(balance, amount).value)
    ensures Withdraw(balance, amount).Success? <==>
              ValidAmount(amount) && amount.v <= balance.v
    ensures Withdraw(balance, amount).Success? ==>
              Withdraw(balance, amount).value == Finite(balance.v - amount.v)
              && Sound(Withdraw(balance, amount).value)
  {
  }
}
