/**
 * The data the dashboard derives from the user's transactions and budgets:
 * the recent-transactions list, the six-month income and expense chart, the
 * per-budget progress bars and the colour of the budget-used figure.
 *
 * Amounts are integer cents and a missing amount is `None`. A transaction's
 * date is reduced to its year and month, and `None` stands for a date string
 * that does not parse (its month matches no month). "Now" is a parameter.
 */
module Dashboard {
  import opened Common

  /** A calendar month: `month` counts from 0 (January) as `Date.getMonth` does. */
  datatype YearMonth = YearMonth(year: int, month: int)

  datatype Transaction = Transaction(
    id: nat,
    description: string,
    amount: Option<int>,
    category: string,
    date: Option<YearMonth>,
    kind: string)

  // ---------------------------------------------------------------------------
  // Recent transactions
  // ---------------------------------------------------------------------------

  /** An entry of the recent-transactions list. */
  datatype RecentEntry = RecentEntry(id: nat, description: string, amount: Option<int>, category: string, kind: string)

  /** Income keeps its amount, every other type is shown negated. */
  function Entry(t: Transaction): (e: RecentEntry)
    ensures e.id == t.id && e.description == t.description && e.category == t.category && e.kind == t.kind
    ensures e.amount.Some? <==> t.amount.Some?
    ensures t.amount.Some? && t.kind == "income" ==> e.amount.value == t.amount.value
    ensures t.amount.Some? && t.kind != "income" ==> e.amount.value == -t.amount.value
  {
    var amount := match t.amount
      case None => None
      case Some(a) => Some(if t.kind == "income" then a else -a);
    RecentEntry(t.id, t.description, amount, t.category, t.kind)
  }

  function Min(a: nat, b: nat): nat
  {
    if a <= b then a else b
  }

  /** `transactions.slice(0, 5).map(...)` */
  function RecentTransactions(txs: seq<Transaction>): (r: seq<RecentEntry>)
    ensures |r| == Min(5, |txs|)
    ensures forall i :: 0 <= i < |r| ==> r[i] == Entry(txs[i])
  {
    seq(Min(5, |txs|), i requires 0 <= i < Min(5, |txs|) => Entry(txs[i]))
  }

  /** The entry is shown with a `+` sign and in the success colour. */
  predicate ShownAsGain(e: RecentEntry)
  {
    e.amount.Some? && e.amount.value > 0
  }

  /** `Math.abs` of the shown amount. */
  function Magnitude(a: int): (m: nat)
    ensures m == a || m == -a
  {
    if a < 0 then -a else a
  }

  /**
   * A recent entry shows as a gain exactly when it is income with a positive
   * amount or another type with a negative one, and the figure shown is the
   * stored amount's magnitude either way.
   */
  lemma EntrySign(t: Transaction)
    requires t.amount.Some?
    ensures ShownAsGain(Entry(t)) <==>
      (t.kind == "income" && t.amount.value > 0) || (t.kind != "income" && t.amount.value < 0)
    ensures Magnitude(Entry(t).amount.value) == Magnitude(t.amount.value)
  {
  }

  /** The list only depends on the first five transactions. */
  lemma RecentIgnoresOlder(txs: seq<Transaction>, more: seq<Transaction>)
    requires |txs| >= 5
    ensures RecentTransactions(txs + more) == RecentTransactions(txs)
  {
    var a := RecentTransactions(txs + more);
    var b := RecentTransactions(txs);
    assert forall i :: 0 <= i < 5 ==> (txs + more)[i] == txs[i];
    assert forall i :: 0 <= i < 5 ==> a[i] == b[i];
  }

  // ---------------------------------------------------------------------------
  // Months
  // ---------------------------------------------------------------------------

  predicate ValidMonth(ym: YearMonth)
  {
    0 <= ym.month < 12
  }

  /** Months since January of year 0. */
  function MonthNumber(ym: YearMonth): int
  {
    ym.year * 12 + ym.month
  }

  /** `new Date(year, month - i, 1)`: i months before `now`, the month carried into the year. */
  function MonthsBefore(now: YearMonth, i: nat): (ym: YearMonth)
    requires ValidMonth(now)
    ensures ValidMonth(ym)
    ensures MonthNumber(ym) == MonthNumber(now) - i
  {
    var n := MonthNumber(now) - i;
    YearMonth(n / 12, n % 12)
  }

  /** Calendar months are determined by their month number. */
  lemma MonthNumberInjective(a: YearMonth, b: YearMonth)
    requires ValidMonth(a) && ValidMonth(b) && MonthNumber(a) == MonthNumber(b)
    ensures a == b
  {
  }

  /** Going back fewer months than the current month index stays in the year; more wraps into the year before. */
  lemma MonthsBeforeWraps(now: YearMonth, i: nat)
    requires ValidMonth(now) && i < 12
    ensures now.month >= i ==> MonthsBefore(now, i) == YearMonth(now.year, now.month - i)
    ensures now.month < i ==> MonthsBefore(now, i) == YearMonth(now.year - 1, now.month + 12 - i)
  {
    var ym := MonthsBefore(now, i);
    if now.month >= i {
      MonthNumberInjective(ym, YearMonth(now.year, now.month - i));
    } else {
      MonthNumberInjective(ym, YearMonth(now.year - 1, now.month + 12 - i));
    }
  }

  /** One step back from a month is the month before it. */
  lemma MonthsBeforeStep(now: YearMonth, i: nat)
    requires ValidMonth(now)
    ensures MonthNumber(MonthsBefore(now, i + 1)) + 1 == MonthNumber(MonthsBefore(now, i))
    ensures MonthsBefore(now, 0) == now
  {
    MonthNumberInjective(MonthsBefore(now, 0), now);
  }

  /** `toLocaleDateString('en-US', { month: 'short' })` */
  function MonthLabel(month: int): (name: string)
    requires 0 <= month < 12
    ensures |name| == 3
  {
    ["Jan", "Feb", "Mar", "Apr", "May", "Jun", "Jul", "Aug", "Sep", "Oct", "Nov", "Dec"][month]
  }

  // ---------------------------------------------------------------------------
  // Monthly totals
  // ---------------------------------------------------------------------------

  /** The transactions dated in month ym, in order. */
  function InMonth(txs: seq<Transaction>, ym: YearMonth): (r: seq<Transaction>)
    ensures forall t :: t in r <==> t in txs && t.date == Some(ym)
  {
    if txs == [] then []
    else (if txs[0].date == Some(ym) then [txs[0]] else []) + InMonth(txs[1..], ym)
  }

  /** The transactions of the given type, in order. */
  function OfKind(txs: seq<Transaction>, kind: string): (r: seq<Transaction>)
    ensures forall t :: t in r <==> t in txs && t.kind == kind
  {
    if txs == [] then []
    else (if txs[0].kind == kind then [txs[0]] else []) + OfKind(txs[1..], kind)
  }

  /** `parseFloat(t.amount || 0)` in cents: a missing amount counts as nothing. */
  function AmountOrZero(t: Transaction): int
  {
    if t.amount.Some? then t.amount.value else 0
  }

  /** `reduce((sum, t) => sum + ..., 0)` */
  function Sum(txs: seq<Transaction>): int
  {
    if txs == [] then 0 else AmountOrZero(txs[0]) + Sum(txs[1..])
  }

  /** The total of one type in one month, in cents. */
  function MonthTotal(txs: seq<Transaction>, ym: YearMonth, kind: string): int
  {
    Sum(OfKind(InMonth(txs, ym), kind))
  }

  lemma {:induction false} SumAppend(a: seq<Transaction>, b: seq<Transaction>)
    ensures Sum(a + b) == Sum(a) + Sum(b)
  {
    if a != [] {
      assert (a + b)[0] == a[0] && (a + b)[1..] == a[1..] + b;
      SumAppend(a[1..], b);
    } else {
      assert a + b == b;
    }
  }

  lemma {:induction false} InMonthAppend(a: seq<Transaction>, b: seq<Transaction>, ym: YearMonth)
    ensures InMonth(a + b, ym) == InMonth(a, ym) + InMonth(b, ym)
  {
    if a != [] {
      assert (a + b)[0] == a[0] && (a + b)[1..] == a[1..] + b;
      InMonthAppend(a[1..], b, ym);
    } else {
      assert a + b == b;
    }
  }

  lemma {:induction false} OfKindAppend(a: seq<Transaction>, b: seq<Transaction>, kind: string)
    ensures OfKind(a + b, kind) == OfKind(a, kind) + OfKind(b, kind)
  {
    if a != [] {
      assert (a + b)[0] == a[0] && (a + b)[1..] == a[1..] + b;
      OfKindAppend(a[1..], b, kind);
    } else {
      assert a + b == b;
    }
  }

  /** The month's total changes by one transaction's amount when it is of that month and type, and not otherwise. */
  lemma MonthTotalAppend(txs: seq<Transaction>, t: Transaction, ym: YearMonth, kind: string)
    ensures MonthTotal(txs + [t], ym, kind) ==
      MonthTotal(txs, ym, kind) + (if t.date == Some(ym) && t.kind == kind then AmountOrZero(t) else 0)
  {
    InMonthAppend(txs, [t], ym);
    OfKindAppend(InMonth(txs, ym), InMonth([t], ym), kind);
    SumAppend(OfKind(InMonth(txs, ym), kind), OfKind(InMonth([t], ym), kind));
    assert [t][1..] == [];
  }

  /** Filtering by month and by type in either order gives the same transactions. */
  lemma {:induction false} FiltersCommute(txs: seq<Transaction>, ym: YearMonth, kind: string)
    ensures OfKind(InMonth(txs, ym), kind) == InMonth(OfKind(txs, kind), ym)
  {
    if txs != [] {
      FiltersCommute(txs[1..], ym, kind);
      InMonthAppend([txs[0]], txs[1..], ym);
      OfKindAppend([txs[0]], txs[1..], kind);
      assert txs == [txs[0]] + txs[1..];
      OfKindAppend(InMonth([txs[0]], ym), InMonth(txs[1..], ym), kind);
      InMonthAppend(OfKind([txs[0]], kind), OfKind(txs[1..], kind), ym);
      assert [txs[0]][1..] == [];
    }
  }

  /** Transactions of a type other than "income" and "expense" count toward neither total. */
  lemma OtherKindsIgnored(txs: seq<Transaction>, t: Transaction, ym: YearMonth)
    requires t.kind != "income" && t.kind != "expense"
    ensures MonthTotal(txs + [t], ym, "income") == MonthTotal(txs, ym, "income")
    ensures MonthTotal(txs + [t], ym, "expense") == MonthTotal(txs, ym, "expense")
  {
    MonthTotalAppend(txs, t, ym, "income");
    MonthTotalAppend(txs, t, ym, "expense");
  }

  // ---------------------------------------------------------------------------
  // The chart
  // ---------------------------------------------------------------------------

  /** `Math.round` of an amount in cents, to whole currency units (halves round up). */
  function RoundToUnits(cents: int): (u: int)
    ensures u * 100 - 50 <= cents < u * 100 + 50
  {
    (cents + 50) / 100
  }

  /** The rounding is the only integer within half a unit. */
  lemma RoundToUnitsUnique(cents: int, u: int)
    requires u * 100 - 50 <= cents < u * 100 + 50
    ensures RoundToUnits(cents) == u
  {
  }

  /** A point of the income-versus-expenses chart. */
  datatype ChartPoint = ChartPoint(month: string, income: int, expenses: int)

  /** The chart point of month ym. */
  function PointFor(txs: seq<Transaction>, ym: YearMonth): (p: ChartPoint)
    requires ValidMonth(ym)
    ensures p.month == MonthLabel(ym.month)
    ensures p.income * 100 - 50 <= MonthTotal(txs, ym, "income") < p.income * 100 + 50
    ensures p.expenses * 100 - 50 <= MonthTotal(txs, ym, "expense") < p.expenses * 100 + 50
  {
    ChartPoint(MonthLabel(ym.month), RoundToUnits(MonthTotal(txs, ym, "income")), RoundToUnits(MonthTotal(txs, ym, "expense")))
  }

  /** The k-th month of the chart, counting from the oldest: `now` is the sixth. */
  function ChartMonth(now: YearMonth, k: nat): (ym: YearMonth)
    requires ValidMonth(now) && k < 6
    ensures ValidMonth(ym)
    ensures MonthNumber(ym) == MonthNumber(now) - 5 + k
  {
    MonthsBefore(now, 5 - k)
  }

  /**
   * `generateMonthlyData`: six points, oldest first, for the five months
   * before `now` and `now` itself.
   */
  method GenerateMonthlyData(txs: seq<Transaction>, now: YearMonth) returns (data: seq<ChartPoint>)
    requires ValidMonth(now)
    ensures |data| == 6
    ensures forall k :: 0 <= k < 6 ==> data[k] == PointFor(txs, ChartMonth(now, k))
  {
    data := [];
    var i := 5;
    while i >= 0
      invariant -1 <= i <= 5
      invariant |data| == 5 - i
      invariant forall k :: 0 <= k < |data| ==> data[k] == PointFor(txs, ChartMonth(now, k))
    {
      var ym := MonthsBefore(now, i);
      var monthTransactions := InMonth(txs, ym);
      var income := Sum(OfKind(monthTransactions, "income"));
      var expenses := Sum(OfKind(monthTransactions, "expense"));
      data := data + [ChartPoint(MonthLabel(ym.month), RoundToUnits(income), RoundToUnits(expenses))];
      i := i - 1;
    }
  }

  /** The six chart months are consecutive, the last one is `now`, and no month appears twice. */
  lemma ChartMonths(now: YearMonth)
    requires ValidMonth(now)
    ensures ChartMonth(now, 5) == now
    ensures forall k :: 0 <= k < 5 ==> MonthNumber(ChartMonth(now, k)) + 1 == MonthNumber(ChartMonth(now, k + 1))
    ensures forall j, k :: 0 <= j < k < 6 ==> ChartMonth(now, j) != ChartMonth(now, k)
  {
    MonthNumberInjective(ChartMonth(now, 5), now);
  }

  // ---------------------------------------------------------------------------
  // Budgets
  // ---------------------------------------------------------------------------

  /** A budget category: `spentAmount` and `budget_limit`, either of which may be missing. */
  datatype Budget = Budget(category: string, spentAmount: Option<real>, limit: Option<real>)

  /** `parseFloat(x || 0)` */
  function OrZero(x: Option<real>): real
  {
    if x.Some? then x.value else 0.0
  }

  /** Share of the limit spent, in percent; 0 without a positive limit. */
  function Percentage(spent: real, limit: real): (p: real)
    ensures limit <= 0.0 ==> p == 0.0
    ensures limit > 0.0 ==> p * limit == spent * 100.0
  {
    if limit > 0.0 then (spent / limit) * 100.0 else 0.0
  }

  /** What the progress bar of a budget shows. */
  datatype BudgetView = BudgetView(progress: real, overBudget: bool, overBy: real)

  /** The progress value, the over-budget flag and the excess shown with it. */
  function ViewOf(b: Budget): (v: BudgetView)
    ensures v.progress <= 100.0
    ensures v.progress == 100.0 || v.progress == Percentage(OrZero(b.spentAmount), OrZero(b.limit))
    ensures Percentage(OrZero(b.spentAmount), OrZero(b.limit)) <= 100.0 ==>
      v.progress == Percentage(OrZero(b.spentAmount), OrZero(b.limit))
    ensures v.overBudget <==> Percentage(OrZero(b.spentAmount), OrZero(b.limit)) > 100.0
    ensures v.overBy == OrZero(b.spentAmount) - OrZero(b.limit)
  {
    var spent := OrZero(b.spentAmount);
    var limit := OrZero(b.limit);
    var percentage := Percentage(spent, limit);
    BudgetView(if percentage < 100.0 then percentage else 100.0, percentage > 100.0, spent - limit)
  }

  /** A product with a positive factor has the sign of the other factor. */
  lemma SignOfProduct(x: real, y: real)
    requires y > 0.0
    ensures x > 0.0 <==> x * y > 0.0
  {
    if x > 0.0 {
      assert x * y > 0.0;
    } else {
      assert (-x) * y >= 0.0;
    }
  }

  /** Over budget means a positive limit exceeded, and then the excess shown is positive. */
  lemma OverBudgetMeansExceeded(b: Budget)
    ensures ViewOf(b).overBudget <==> OrZero(b.limit) > 0.0 && OrZero(b.spentAmount) > OrZero(b.limit)
    ensures ViewOf(b).overBudget ==> ViewOf(b).overBy > 0.0
    ensures !ViewOf(b).overBudget ==> ViewOf(b).progress == Percentage(OrZero(b.spentAmount), OrZero(b.limit))
  {
    var spent := OrZero(b.spentAmount);
    var limit := OrZero(b.limit);
    if limit > 0.0 {
      var p := Percentage(spent, limit);
      assert p * limit == spent * 100.0;
      assert (p - 100.0) * limit == (spent - limit) * 100.0;
      SignOfProduct(p - 100.0, limit);
      SignOfProduct(spent - limit, 100.0);
    }
  }

  // ---------------------------------------------------------------------------
  // The budget-used colour
  // ---------------------------------------------------------------------------

  datatype Tone = Accent | Warning | Destructive

  /** Ranks the tones from calm to alarming. */
  function Severity(t: Tone): nat
  {
    match t
    case Accent => 0
    case Warning => 1
    case Destructive => 2
  }

  /** The colour of the budget-used percentage. */
  function BudgetTone(percentage: real): (t: Tone)
    ensures t == Destructive <==> percentage > 90.0
    ensures t == Warning <==> 75.0 < percentage <= 90.0
    ensures t == Accent <==> percentage <= 75.0
  {
    if percentage > 90.0 then Destructive
    else if percentage > 75.0 then Warning
    else Accent
  }

  /** Spending more never calms the colour down. */
  lemma BudgetToneMonotone(p: real, q: real)
    requires p <= q
    ensures Severity(BudgetTone(p)) <= Severity(BudgetTone(q))
  {
  }
}
