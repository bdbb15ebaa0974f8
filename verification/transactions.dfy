/** Transactions (models.py `Transaction`) and the sign rule by which annuity activity moves an
    investment's value. Amounts are cents, share counts millionths of a share, times seconds. */
module Transactions {
  import opened Wrappers

  datatype TransactionType = Buy | Sell | Dividend | Split | Premium | Withdrawal | TaxWithholding | NetChange

  datatype Transaction = Transaction(
    investment: nat,
    kind: TransactionType,
    amount: Option<int>,   // cents, for lump-sum transactions
    shares: Option<int>,   // millionths of a share
    price: Option<int>,    // cents per share
    fee: int,              // cents
    time: int,             // seconds
    source: Option<nat>)   // the statement that generated it

  const SecondsPerDay := 86400

  /** The calendar day of a time (`datetime.date()`). */
  function Day(time: int): (d: int)
    ensures d * SecondsPerDay <= time < (d + 1) * SecondsPerDay
  {
    time / SecondsPerDay
  }

  /** One cent, in the micro-cent unit `total_amount` is computed in (shares have six decimals). */
  const MicroCents := 1000000

  /** `total_amount`: amount plus fee for a lump-sum transaction, otherwise shares times price
      plus fee, with missing shares or price counted as 0. In micro-cents. */
  function TotalAmount(t: Transaction): (total: int)
    ensures t.amount.Some? ==> total == (t.amount.value + t.fee) * MicroCents
    ensures t.amount.None? && (t.shares.None? || t.price.None?) ==> total == t.fee * MicroCents
    ensures t.amount.None? && t.shares.Some? && t.price.Some? ==>
      total == t.shares.value * t.price.value + t.fee * MicroCents
  {
    if t.amount.Some? then (t.amount.value + t.fee) * MicroCents
    else
      var shares := if t.shares.Some? then t.shares.value else 0;
      var price := if t.price.Some? then t.price.value else 0;
      shares * price + t.fee * MicroCents
  }

  /** A lump-sum amount takes precedence: shares and price do not matter once it is set. */
  lemma AmountOverridesShares(t: Transaction, shares: Option<int>, price: Option<int>)
    requires t.amount.Some?
    ensures TotalAmount(t.(shares := shares, price := price)) == TotalAmount(t)
  {
  }

  /** How a transaction moves an annuity's value: premiums and net changes add their amount,
      withdrawals and tax withholding subtract it, other types do nothing; a missing amount is 0. */
  function Signed(t: Transaction): (v: int)
    ensures t.amount.None? ==> v == 0
    ensures t.kind in {Premium, NetChange} && t.amount.Some? ==> v == t.amount.value
    ensures t.kind in {Withdrawal, TaxWithholding} && t.amount.Some? ==> v == -t.amount.value
    ensures t.kind in {Buy, Sell, Dividend, Split} ==> v == 0
  {
    var amount := if t.amount.Some? then t.amount.value else 0;
    match t.kind
    case Premium => amount
    case Withdrawal => -amount
    case TaxWithholding => -amount
    case NetChange => amount
    case _ => 0
  }

  /** The running total of a sequence of transactions under the sign rule. */
  function Total(ts: seq<Transaction>): int {
    if ts == [] then 0 else Total(ts[..|ts| - 1]) + Signed(ts[|ts| - 1])
  }

  lemma {:induction false} TotalAppend(a: seq<Transaction>, b: seq<Transaction>)
    ensures Total(a + b) == Total(a) + Total(b)
  {
    if b == [] {
      assert a + b == a;
    } else {
      assert (a + b)[..|a + b| - 1] == a + b[..|b| - 1];
      TotalAppend(a, b[..|b| - 1]);
    }
  }

  /** The sum of the amounts (missing ones as 0) of the transactions of one type: the
      `aggregate(Sum('amount')) or 0` of one transaction type. */
  function SumOfType(ts: seq<Transaction>, kind: TransactionType): int {
    if ts == [] then 0
    else
      var last := ts[|ts| - 1];
      SumOfType(ts[..|ts| - 1], kind) + (if last.kind == kind && last.amount.Some? then last.amount.value else 0)
  }

  /** The transaction fallback of `Annuity.current_value`: premiums - withdrawals - tax + net change. */
  function ActivityTotal(ts: seq<Transaction>): int {
    SumOfType(ts, Premium) - SumOfType(ts, Withdrawal) - SumOfType(ts, TaxWithholding) + SumOfType(ts, NetChange)
  }

  /** The per-type sums and the running total agree: both count the same four types with the
      same signs. */
  lemma {:induction false} ActivityTotalIsTotal(ts: seq<Transaction>)
    ensures ActivityTotal(ts) == Total(ts)
  {
    if ts != [] {
      ActivityTotalIsTotal(ts[..|ts| - 1]);
    }
  }
}
