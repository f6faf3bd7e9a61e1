/**
 * Derived figures shown on the dashboard, the sidebar and the budget and
 * goal pages: totals by type, balance, savings rate, budget progress and
 * goal progress.
 */
module Metrics {
  import opened Ledger

  function Min(x: real, y: real): real {
    if x <= y then x else y
  }

  /** A product of two positive reals is positive. */
  lemma PositiveProduct(x: real, c: real)
    requires x > 0.0 && c > 0.0
    ensures x * c > 0.0
  {
  }

  /** A ratio with `ratio * d == n` (for a positive `d`) compares with `t` as `n` compares with `t * d`. */
  lemma RatioCompare(ratio: real, n: real, d: real, t: real)
    requires d > 0.0
    requires ratio * d == n
    ensures ratio > t <==> n > t * d
    ensures ratio >= t <==> n >= t * d
  {
    if ratio > t {
      PositiveProduct(ratio - t, d);
      assert (ratio - t) * d == ratio * d - t * d;
    } else if ratio < t {
      PositiveProduct(t - ratio, d);
      assert (t - ratio) * d == t * d - ratio * d;
    }
  }

  // ----------------------------------------------------------------- totals

  /** `sum(t['amount'] for t in ts if t['type'] == kind)`. */
  function TotalOf(ts: seq<Transaction>, kind: Kind): real {
    if ts == [] then 0.0
    else (if ts[0].kind == kind then ts[0].amount else 0.0) + TotalOf(ts[1..], kind)
  }

  /** The amount of every record, whatever its type. */
  function SumAmounts(ts: seq<Transaction>): real {
    if ts == [] then 0.0 else ts[0].amount + SumAmounts(ts[1..])
  }

  /** The sidebar's balance: total income minus total expense. */
  function Balance(ts: seq<Transaction>): real {
    TotalOf(ts, Income) - TotalOf(ts, Expense)
  }

  /**
   * A total sums exactly the records of its type: records of the other type
   * add nothing, and when every record has the type it is the sum of all amounts.
   */
  lemma {:induction false} TotalCountsOnlyItsKind(ts: seq<Transaction>, kind: Kind)
    ensures (forall t | t in ts :: t.kind != kind) ==> TotalOf(ts, kind) == 0.0
    ensures (forall t | t in ts :: t.kind == kind) ==> TotalOf(ts, kind) == SumAmounts(ts)
  {
    if ts != [] {
      assert forall t | t in ts[1..] :: t in ts;
      assert ts[0] in ts;
      TotalCountsOnlyItsKind(ts[1..], kind);
    }
  }

  /** A ledger of income only has the sum of its amounts as balance; one of expenses only, its negation. */
  lemma SingleKindBalance(ts: seq<Transaction>)
    ensures (forall t | t in ts :: t.kind == Income) ==> Balance(ts) == SumAmounts(ts)
    ensures (forall t | t in ts :: t.kind == Expense) ==> Balance(ts) == -SumAmounts(ts)
  {
    TotalCountsOnlyItsKind(ts, Income);
    TotalCountsOnlyItsKind(ts, Expense);
  }

  /** Totals are additive over a split of the ledger. */
  lemma {:induction false} TotalOfAppend(a: seq<Transaction>, b: seq<Transaction>, kind: Kind)
    ensures TotalOf(a + b, kind) == TotalOf(a, kind) + TotalOf(b, kind)
  {
    if a == [] {
      assert a + b == b;
    } else {
      assert (a + b)[1..] == a[1..] + b;
      TotalOfAppend(a[1..], b, kind);
    }
  }

  /** Adding one record moves exactly the total of its own type, by its amount. */
  lemma AddMovesOneTotal(ts: seq<Transaction>, t: Transaction, kind: Kind)
    ensures TotalOf(ts + [t], kind) == TotalOf(ts, kind) + (if t.kind == kind then t.amount else 0.0)
    ensures Balance(ts + [t]) == Balance(ts) + (if t.kind == Income then t.amount else -t.amount)
  {
    TotalOfAppend(ts, [t], Income);
    TotalOfAppend(ts, [t], Expense);
    assert [t][1..] == [];
  }

  /** Every record is either income or expense, so the two totals partition the sum of all amounts. */
  lemma {:induction false} TotalsPartition(ts: seq<Transaction>)
    ensures TotalOf(ts, Income) + TotalOf(ts, Expense) == SumAmounts(ts)
  {
    if ts != [] {
      TotalsPartition(ts[1..]);
    }
  }

  /** With positive amounts, every total is non-negative. */
  lemma {:induction false} TotalNonNegative(ts: seq<Transaction>, kind: Kind)
    requires PositiveAmounts(ts)
    ensures TotalOf(ts, kind) >= 0.0
  {
    if ts != [] {
      assert ts[0] in ts;
      assert PositiveAmounts(ts[1..]) by {
        forall t | t in ts[1..] ensures t.amount > 0.0 { assert t in ts; }
      }
      TotalNonNegative(ts[1..], kind);
    }
  }

  /** Deleting records never raises a total when amounts are positive. */
  lemma {:induction false} RemoveNeverRaisesTotal(ts: seq<Transaction>, ids: set<int>, kind: Kind)
    requires PositiveAmounts(ts)
    ensures TotalOf(RemoveIds(ts, ids), kind) <= TotalOf(ts, kind)
  {
    if ts != [] {
      assert ts[0] in ts;
      assert PositiveAmounts(ts[1..]) by {
        forall t | t in ts[1..] ensures t.amount > 0.0 { assert t in ts; }
      }
      RemoveNeverRaisesTotal(ts[1..], ids, kind);
      var rest := RemoveIds(ts[1..], ids);
      if ts[0].id in ids {
        TotalNonNegative([ts[0]], kind);
        assert [ts[0]][1..] == [];
      } else {
        assert ([ts[0]] + rest)[1..] == rest;
      }
    }
  }

  // ----------------------------------------------------------- savings rate

  /** `balance / total_income * 100` when there is income, and 0 otherwise. */
  function SavingsRate(income: real, balance: real): (r: real)
    ensures income > 0.0 ==> r * income == balance * 100.0
    ensures income <= 0.0 ==> r == 0.0
  {
    if income > 0.0 then balance / income * 100.0 else 0.0
  }

  /** A ledger's savings rate never exceeds 100%, and is 0 when it has no income. */
  lemma LedgerSavingsRateAtMost100(ts: seq<Transaction>)
    requires PositiveAmounts(ts)
    ensures SavingsRate(TotalOf(ts, Income), Balance(ts)) <= 100.0
    ensures TotalOf(ts, Income) == 0.0 ==> SavingsRate(TotalOf(ts, Income), Balance(ts)) == 0.0
  {
    TotalNonNegative(ts, Expense);
    var income := TotalOf(ts, Income);
    var r := SavingsRate(income, Balance(ts));
    if income > 0.0 {
      RateAtMost100(r, Balance(ts), income);
    }
  }

  /** A rate with `rate * income == balance * 100` is at most 100 when the balance is at most the income. */
  lemma RateAtMost100(rate: real, balance: real, income: real)
    requires income > 0.0
    requires rate * income == balance * 100.0
    requires balance <= income
    ensures rate <= 100.0
  {
    RatioCompare(rate, balance * 100.0, income, 100.0);
    assert balance * 100.0 <= 100.0 * income;
  }

  // ---------------------------------------------------------------- budgets

  /** `sum(t['amount'] for t in ts if t['category'] == category and t['type'] == 'Expense')`. */
  function Spending(ts: seq<Transaction>, category: string): real {
    if ts == [] then 0.0
    else (if ts[0].category == category && ts[0].kind == Expense then ts[0].amount else 0.0)
         + Spending(ts[1..], category)
  }

  /**
   * Only expenses of the category count: with none of them the spending is 0,
   * and when every record is in the category it is the whole expense total.
   */
  lemma {:induction false} SpendingCountsOnlyCategoryExpenses(ts: seq<Transaction>, category: string)
    ensures (forall t | t in ts :: t.category != category || t.kind != Expense) ==> Spending(ts, category) == 0.0
    ensures (forall t | t in ts :: t.category == category) ==> Spending(ts, category) == TotalOf(ts, Expense)
  {
    if ts != [] {
      assert forall t | t in ts[1..] :: t in ts;
      assert ts[0] in ts;
      SpendingCountsOnlyCategoryExpenses(ts[1..], category);
    }
  }

  /** One category's spending is non-negative and never above total expense. */
  lemma {:induction false} SpendingWithinExpense(ts: seq<Transaction>, category: string)
    requires PositiveAmounts(ts)
    ensures 0.0 <= Spending(ts, category) <= TotalOf(ts, Expense)
  {
    if ts != [] {
      assert ts[0] in ts;
      assert PositiveAmounts(ts[1..]) by {
        forall t | t in ts[1..] ensures t.amount > 0.0 { assert t in ts; }
      }
      SpendingWithinExpense(ts[1..], category);
    }
  }

  /** How a ratio `spent / budget` compares with the two thresholds the budget page uses. */
  lemma RatioThresholds(ratio: real, spent: real, budget: real)
    requires budget > 0.0
    requires ratio * budget == spent
    ensures ratio > 0.8 <==> spent > 0.8 * budget
    ensures ratio >= 1.0 <==> spent >= budget
    ensures spent >= 0.0 ==> ratio >= 0.0
  {
    RatioCompare(ratio, spent, budget, 0.8);
    RatioCompare(ratio, spent, budget, 1.0);
    assert 1.0 * budget == budget;
    RatioCompare(ratio, spent, budget, 0.0);
    assert 0.0 * budget == 0.0;
  }

  /** What the budget page shows for one category. */
  datatype BudgetBar =
    | NoBar                                                 // budget 0: no progress bar
    | Bar(progress: real, overBudget: bool, nearLimit: bool)

  /**
   * Budget progress: a bar `min(spent / budget, 1)` when the budget is
   * positive, the over-budget error when spending exceeds it, and otherwise
   * the near-limit warning once progress passes 0.8.
   */
  function BudgetStatus(budget: real, spent: real): (r: BudgetBar)
    ensures r.Bar? <==> budget > 0.0
    ensures r.Bar? ==> (r.overBudget <==> spent > budget)
    ensures r.Bar? ==> (r.nearLimit <==> 0.8 * budget < spent <= budget)
    ensures r.Bar? ==> !(r.overBudget && r.nearLimit)
    ensures r.Bar? && spent >= 0.0 ==> 0.0 <= r.progress <= 1.0
    ensures r.Bar? ==> (r.progress == 1.0 <==> spent >= budget)
    ensures r.Bar? && spent <= budget ==> r.progress * budget == spent
  {
    if budget > 0.0 then
      var ratio := spent / budget;
      assert ratio * budget == spent;
      RatioThresholds(ratio, spent, budget);
      var progress := Min(ratio, 1.0);
      Bar(progress, spent > budget, !(spent > budget) && progress > 0.8)
    else
      NoBar
  }

  /** A positive budget over a ledger with positive amounts always shows a bar within [0, 1]. */
  lemma LedgerBudgetBarInRange(ts: seq<Transaction>, category: string, budget: real)
    requires PositiveAmounts(ts)
    requires budget > 0.0
    ensures BudgetStatus(budget, Spending(ts, category)).Bar?
    ensures 0.0 <= BudgetStatus(budget, Spending(ts, category)).progress <= 1.0
  {
    SpendingWithinExpense(ts, category);
  }

  /** A Food budget of 50.00 with 45.00 spent: progress 0.9, near the limit, not over. */
  lemma BudgetExample()
    ensures BudgetStatus(50.0, 45.0) == Bar(0.9, false, true)
  {
  }

  // ------------------------------------------------------------------ goals

  /** A savings goal; `current` grows only by explicit increments. */
  datatype Goal = Goal(name: string, target: real, current: real, deadline: Date, created: Date)

  /** `current / target` when the target is positive, 0 otherwise; unclamped, as in the "% complete" caption. */
  function GoalProgress(g: Goal): (r: real)
    ensures g.target > 0.0 ==> r * g.target == g.current
    ensures g.target <= 0.0 ==> r == 0.0
  {
    if g.target > 0.0 then g.current / g.target else 0.0
  }

  /** The progress bar: goal progress capped at 1. */
  function GoalBar(g: Goal): (r: real)
    ensures r <= 1.0
    ensures g.current >= 0.0 ==> r >= 0.0
    ensures r == 1.0 <==> g.target > 0.0 && g.current >= g.target
    ensures g.target > 0.0 && g.current <= g.target ==> r * g.target == g.current
    ensures g.target <= 0.0 ==> r == 0.0
  {
    var p := GoalProgress(g);
    assert g.target > 0.0 ==> (p >= 1.0 <==> g.current >= g.target) by {
      if g.target > 0.0 {
        RatioCompare(p, g.current, g.target, 1.0);
        assert 1.0 * g.target == g.target;
      }
    }
    Min(p, 1.0)
  }

  /** An increment of `amount` raises a goal's progress by `amount / target`. */
  lemma IncrementRaisesProgress(g: Goal, amount: real)
    requires g.target > 0.0
    requires amount > 0.0
    ensures GoalProgress(g.(current := g.current + amount)) == GoalProgress(g) + amount / g.target
    ensures GoalProgress(g.(current := g.current + amount)) > GoalProgress(g)
  {
    var g' := g.(current := g.current + amount);
    assert GoalProgress(g') * g.target == (GoalProgress(g) + amount / g.target) * g.target;
  }

  /** A goal of 1000 with 0 saved, after an increment of 250, is 25% complete. */
  lemma GoalExample(g: Goal)
    requires g.target == 1000.0 && g.current == 0.0
    ensures GoalProgress(g.(current := g.current + 250.0)) == 0.25
  {
  }
}
