/**
 * What the schedules of module LoanCalculator promise: row counts and
 * numbering, the principal/interest split, constant payments or constant
 * principal, balances that decline to exactly zero under exact arithmetic,
 * and how the fixed-then-variable schedules relate to the single-rate ones.
 */
module AmortizationTheory {
  import opened Wrappers
  import opened LoanCalculator

  // ---------------------------------------------------------------------------
  // Reading a schedule
  // ---------------------------------------------------------------------------

  /** The balance row `i` starts from: the previous row's remaining balance, or `start`. */
  function OpeningBalance(rows: seq<Row>, start: real, i: nat): real
    requires i <= |rows|
  {
    if i == 0 then start else rows[i - 1].remainingBalance
  }

  ghost predicate NumberedFrom(rows: seq<Row>, first: nat) {
    forall i :: 0 <= i < |rows| ==> rows[i].month == first + i
  }

  /** Each row's interest is its opening balance times the rate, and principal + interest = payment. */
  ghost predicate SplitsPayment(rows: seq<Row>, start: real, monthlyRate: real) {
    forall i :: 0 <= i < |rows| ==>
      rows[i].interest == Interest(monthlyRate, OpeningBalance(rows, start, i))
      && rows[i].principal + rows[i].interest == rows[i].payment
  }

  /** Remaining balances never go up and never go below zero. */
  ghost predicate BalancesDecline(rows: seq<Row>, start: real) {
    forall i :: 0 <= i < |rows| ==> 0.0 <= rows[i].remainingBalance <= OpeningBalance(rows, start, i)
  }

  /** The `max(0, ...)` floor never cuts in: each row lowers the balance by exactly its principal. */
  ghost predicate NeverFloored(rows: seq<Row>, start: real) {
    forall i :: 0 <= i < |rows| ==> rows[i].remainingBalance == OpeningBalance(rows, start, i) - rows[i].principal
  }

  function SumPrincipal(rows: seq<Row>): real {
    if rows == [] then 0.0 else SumPrincipal(rows[..|rows| - 1]) + rows[|rows| - 1].principal
  }

  function SumPayment(rows: seq<Row>): real {
    if rows == [] then 0.0 else SumPayment(rows[..|rows| - 1]) + rows[|rows| - 1].payment
  }

  function SumInterest(rows: seq<Row>): real {
    if rows == [] then 0.0 else SumInterest(rows[..|rows| - 1]) + rows[|rows| - 1].interest
  }

  // ---------------------------------------------------------------------------
  // The month recurrence, for any rule
  // ---------------------------------------------------------------------------

  /** Row `i` of a phase is month `first + i`, opened at the balance after `i` months. */
  lemma {:induction false} RowsAt(rule: Rule, monthlyRate: real, start: real, first: nat, k: nat)
    ensures |Rows(rule, monthlyRate, start, first, k)| == k
    ensures forall i :: 0 <= i < k ==>
      Rows(rule, monthlyRate, start, first, k)[i]
        == MonthRow(rule, monthlyRate, first + i, BalanceAfter(rule, monthlyRate, start, i))
  {
    if k > 0 {
      RowsAt(rule, monthlyRate, start, first, k - 1);
    }
  }

  /** Every phase is numbered consecutively, splits each payment, and ends at the balance after `k` months. */
  lemma PhaseShape(rule: Rule, monthlyRate: real, start: real, first: nat, k: nat)
    ensures var rows := Rows(rule, monthlyRate, start, first, k);
      && |rows| == k
      && NumberedFrom(rows, first)
      && SplitsPayment(rows, start, monthlyRate)
      && (forall i :: 0 <= i < k ==> rows[i].remainingBalance >= 0.0)
      && LastBalance(rows, start) == BalanceAfter(rule, monthlyRate, start, k)
  {
    var rows := Rows(rule, monthlyRate, start, first, k);
    RowsAt(rule, monthlyRate, start, first, k);
    forall i | 0 <= i < k
      ensures rows[i].month == first + i
      ensures rows[i].interest == Interest(monthlyRate, OpeningBalance(rows, start, i))
      ensures rows[i].principal + rows[i].interest == rows[i].payment
      ensures rows[i].remainingBalance >= 0.0
    {
      var b := BalanceAfter(rule, monthlyRate, start, i);
      assert OpeningBalance(rows, start, i) == b;
      MonthRowSplits(rule, monthlyRate, first + i, b);
    }
  }

  /** A phase ends at the balance after its `k` months. */
  lemma PhaseEnds(rule: Rule, monthlyRate: real, start: real, first: nat, k: nat)
    ensures LastBalance(Rows(rule, monthlyRate, start, first, k), start) == BalanceAfter(rule, monthlyRate, start, k)
  {
    RowsAt(rule, monthlyRate, start, first, k);
  }

  lemma MonthRowSplits(rule: Rule, monthlyRate: real, month: nat, balance: real)
    ensures var row := MonthRow(rule, monthlyRate, month, balance);
      row.interest == Interest(monthlyRate, balance)
      && row.principal + row.interest == row.payment
      && row.remainingBalance >= 0.0
  {
  }

  /** Running `j` months and then `k` more is running `j + k` months. */
  lemma {:induction false} BalanceAfterSplit(rule: Rule, monthlyRate: real, start: real, j: nat, k: nat)
    ensures BalanceAfter(rule, monthlyRate, BalanceAfter(rule, monthlyRate, start, j), k)
            == BalanceAfter(rule, monthlyRate, start, j + k)
  {
    if k > 0 {
      BalanceAfterSplit(rule, monthlyRate, start, j, k - 1);
    }
  }

  /** A phase of `j + k` months is its first `j` months followed by `k` months from where they left off. */
  lemma {:induction false} RowsSplit(rule: Rule, monthlyRate: real, start: real, first: nat, j: nat, k: nat)
    ensures Rows(rule, monthlyRate, start, first, j + k)
            == Rows(rule, monthlyRate, start, first, j)
               + Rows(rule, monthlyRate, BalanceAfter(rule, monthlyRate, start, j), first + j, k)
  {
    if k > 0 {
      RowsSplit(rule, monthlyRate, start, first, j, k - 1);
      BalanceAfterSplit(rule, monthlyRate, start, j, k - 1);
    }
  }

  /** Each of the first `k` months lowers the balance by exactly its principal, never below zero. */
  ghost predicate StepsDecline(rule: Rule, monthlyRate: real, start: real, k: nat) {
    forall j :: 0 <= j < k ==>
      var b := BalanceAfter(rule, monthlyRate, start, j);
      0.0 <= b - PrincipalPart(rule, monthlyRate, b) <= b
  }

  lemma PhaseDeclines(rule: Rule, monthlyRate: real, start: real, first: nat, k: nat)
    requires StepsDecline(rule, monthlyRate, start, k)
    ensures BalancesDecline(Rows(rule, monthlyRate, start, first, k), start)
    ensures NeverFloored(Rows(rule, monthlyRate, start, first, k), start)
  {
    var rows := Rows(rule, monthlyRate, start, first, k);
    RowsAt(rule, monthlyRate, start, first, k);
    forall i | 0 <= i < k
      ensures OpeningBalance(rows, start, i) == BalanceAfter(rule, monthlyRate, start, i)
    {
    }
  }

  /** When the floor never cuts in, the principal column adds up to what the balance went down by. */
  lemma {:induction false} PrincipalTelescopes(rows: seq<Row>, start: real)
    requires NeverFloored(rows, start)
    ensures SumPrincipal(rows) == start - LastBalance(rows, start)
  {
    if rows != [] {
      var init := rows[..|rows| - 1];
      assert NeverFloored(init, start) by {
        forall i | 0 <= i < |init|
          ensures init[i].remainingBalance == OpeningBalance(init, start, i) - init[i].principal
        {
          assert OpeningBalance(init, start, i) == OpeningBalance(rows, start, i);
        }
      }
      PrincipalTelescopes(init, start);
      assert OpeningBalance(rows, start, |rows| - 1) == LastBalance(init, start);
    }
  }

  /** When every row splits its payment, total interest is total payment less total principal. */
  lemma {:induction false} InterestIsPaymentLessPrincipal(rows: seq<Row>, start: real, monthlyRate: real)
    requires SplitsPayment(rows, start, monthlyRate)
    ensures SumInterest(rows) == SumPayment(rows) - SumPrincipal(rows)
  {
    if rows != [] {
      var init := rows[..|rows| - 1];
      assert SplitsPayment(init, start, monthlyRate) by {
        forall i | 0 <= i < |init|
          ensures init[i].interest == Interest(monthlyRate, OpeningBalance(init, start, i))
        {
          assert OpeningBalance(init, start, i) == OpeningBalance(rows, start, i);
        }
      }
      InterestIsPaymentLessPrincipal(init, start, monthlyRate);
    }
  }

  /** Rows that all pay the same amount sum to that amount times their number. */
  lemma {:induction false} ConstantPaymentSum(rows: seq<Row>, payment: real)
    requires forall i :: 0 <= i < |rows| ==> rows[i].payment == payment
    ensures SumPayment(rows) == |rows| as real * payment
  {
    if rows != [] {
      ConstantPaymentSum(rows[..|rows| - 1], payment);
    }
  }

  /** A phase at a fixed payment pays `k` times that payment. */
  lemma FixedPaymentPhaseSum(payment: real, monthlyRate: real, start: real, first: nat, k: nat)
    ensures SumPayment(Rows(FixedPayment(payment), monthlyRate, start, first, k)) == k as real * payment
  {
    FixedPaymentRows(payment, monthlyRate, start, first, k);
    ConstantPaymentTotal(Rows(FixedPayment(payment), monthlyRate, start, first, k), payment, k);
  }

  lemma ConstantPaymentTotal(rows: seq<Row>, payment: real, k: nat)
    requires |rows| == k
    requires forall i :: 0 <= i < k ==> rows[i].payment == payment
    ensures SumPayment(rows) == k as real * payment
  {
    ConstantPaymentSum(rows, payment);
  }

  /** Every row of a fixed-payment phase pays that payment. */
  lemma {:induction false} FixedPaymentRows(payment: real, monthlyRate: real, start: real, first: nat, k: nat)
    ensures |Rows(FixedPayment(payment), monthlyRate, start, first, k)| == k
    ensures forall i :: 0 <= i < k ==> Rows(FixedPayment(payment), monthlyRate, start, first, k)[i].payment == payment
  {
    if k > 0 {
      FixedPaymentRows(payment, monthlyRate, start, first, k - 1);
      var init := Rows(FixedPayment(payment), monthlyRate, start, first, k - 1);
      var last := MonthRow(FixedPayment(payment), monthlyRate, first + k - 1,
                           BalanceAfter(FixedPayment(payment), monthlyRate, start, k - 1));
      assert Rows(FixedPayment(payment), monthlyRate, start, first, k) == init + [last];
      assert last.payment == payment;
    }
  }

  // ---------------------------------------------------------------------------
  // Exact arithmetic of the annuity payment
  // ---------------------------------------------------------------------------

  lemma CancelFactor(u: real, v: real, d: real)
    requires d != 0.0 && u * d == v * d
    ensures u == v
  {
    assert (u - v) * d == 0.0;
  }

  lemma ScaleAtLeast(x: real, y: real)
    requires x >= 1.0 && y >= 0.0
    ensures x * y >= y
  {
    assert x * y - y == (x - 1.0) * y;
  }

  /** `amount * part / whole`: the share of `amount` that `part` is of `whole`. */
  function Share(amount: real, part: real, whole: real): real
    requires whole > 0.0
  {
    amount * part / whole
  }

  lemma ShareMonotone(amount: real, a: real, b: real, whole: real)
    requires amount >= 0.0 && a <= b && whole > 0.0
    ensures Share(amount, a, whole) <= Share(amount, b, whole)
  {
    assert Share(amount, b, whole) - Share(amount, a, whole) == amount * (b - a) / whole;
  }

  lemma ShareWhole(amount: real, whole: real)
    requires whole > 0.0
    ensures Share(amount, whole, whole) == amount
  {
  }

  lemma ShareNonNegative(amount: real, a: real, whole: real)
    requires amount >= 0.0 && a >= 0.0 && whole > 0.0
    ensures Share(amount, a, whole) >= 0.0
  {
  }

  lemma PowGrows(x: real, k: nat)
    requires x >= 1.0
    ensures Pow(x, k) <= Pow(x, k + 1)
  {
    PowAtLeastOne(x, k);
    ScaledAtLeast(x, Pow(x, k), Pow(x, k + 1));
  }

  lemma ScaledAtLeast(x: real, p: real, q: real)
    requires x >= 1.0 && p >= 0.0 && q == x * p
    ensures p <= q
  {
    ScaleAtLeast(x, p);
  }

  lemma {:induction false} PowMonotone(x: real, j: nat, k: nat)
    requires x >= 1.0 && j <= k
    ensures Pow(x, j) <= Pow(x, k)
  {
    if j < k {
      PowMonotone(x, j, k - 1);
      PowGrows(x, k - 1);
    }
  }

  lemma {:induction false} PowAdd(x: real, j: nat, k: nat)
    ensures Pow(x, j + k) == Pow(x, j) * Pow(x, k)
  {
    if k == 0 {
      TimesOne(Pow(x, j), Pow(x, 0));
    } else {
      PowAdd(x, j, k - 1);
      PowAddPeel(x, j, k);
      PowAddRegroup(x, j, k);
    }
  }

  /** One factor peeled off the left side of `PowAdd`, using the case k - 1. */
  lemma PowAddPeel(x: real, j: nat, k: nat)
    requires k > 0
    requires Pow(x, j + k - 1) == Pow(x, j) * Pow(x, k - 1)
    ensures Pow(x, j + k) == x * (Pow(x, j) * Pow(x, k - 1))
  {
    PowStep(x, j + k);
  }

  /** The peeled factor folded back into the right side of `PowAdd`. */
  lemma PowAddRegroup(x: real, j: nat, k: nat)
    requires k > 0
    ensures x * (Pow(x, j) * Pow(x, k - 1)) == Pow(x, j) * Pow(x, k)
  {
    PowStep(x, k);
    Commute(x, Pow(x, j), Pow(x, k - 1));
  }

  lemma PowStep(x: real, n: nat)
    requires n > 0
    ensures Pow(x, n) == x * Pow(x, n - 1)
  {
  }

  lemma Commute(x: real, p: real, q: real)
    ensures x * (p * q) == p * (x * q)
  {
  }

  lemma TimesOne(p: real, one: real)
    requires one == 1.0
    ensures p == p * one
  {
  }

  /**
   * The balance after `k` months of the annuity that repays `amount` over
   * `period` months: P((1+r)^n - (1+r)^k)/((1+r)^n - 1), or P - k(P/n) at rate zero.
   */
  function AnnuityBalance(amount: real, period: nat, monthlyRate: real, k: nat): real
    requires period > 0 && monthlyRate >= 0.0
  {
    if monthlyRate == 0.0 then
      amount - k as real * (amount / period as real)
    else
      var factor := Pow(1.0 + monthlyRate, period);
      PowAboveOne(1.0 + monthlyRate, period);
      Share(amount, factor - Pow(1.0 + monthlyRate, k), factor - 1.0)
  }

  /** One annuity month at a positive rate on the closed form, B(1+r) - M = B': pure algebra. */
  lemma AnnuityAlgebra(amount: real, monthlyRate: real, factor: real, power: real)
    requires factor > 1.0
    ensures var b := Share(amount, factor - power, factor - 1.0);
      var m := AnnuityPayment(amount, monthlyRate, factor);
      b - (m - Interest(monthlyRate, b)) == Share(amount, factor - (1.0 + monthlyRate) * power, factor - 1.0)
  {
    var d := factor - 1.0;
    var b := amount * (factor - power) / d;
    var m := amount * (monthlyRate * factor) / d;
    var c := amount * (factor - (1.0 + monthlyRate) * power) / d;
    assert b * d == amount * (factor - power);
    assert m * d == amount * (monthlyRate * factor);
    assert c * d == amount * (factor - (1.0 + monthlyRate) * power);
    calc {
      (b - (m - b * monthlyRate)) * d;
      b * d * (1.0 + monthlyRate) - m * d;
      amount * (factor - power) * (1.0 + monthlyRate) - amount * (monthlyRate * factor);
      amount * (factor - (1.0 + monthlyRate) * power);
      c * d;
    }
    CancelFactor(b - (m - b * monthlyRate), c, d);
  }

  /** At a positive rate the payment is P r F / (F - 1) with F = (1+r)^n > 1. */
  lemma AnnuityPaymentFormula(amount: real, period: nat, annualRate: real)
    requires amount > 0.0 && period > 0 && annualRate > 0.0
    ensures var monthlyRate := MonthlyRate(annualRate);
      var factor := Pow(1.0 + monthlyRate, period);
      && monthlyRate > 0.0 && factor > 1.0
      && CalculateMonthlyPayment(amount, period, annualRate).value == AnnuityPayment(amount, monthlyRate, factor)
  {
    PowAboveOne(1.0 + MonthlyRate(annualRate), period);
  }

  /** One month on the closed form, stated over plain numbers. */
  lemma AnnuityStepAt(amount: real, monthlyRate: real, factor: real, power: real, next: real, payment: real)
    requires amount > 0.0 && monthlyRate > 0.0 && factor > 1.0 && power >= 1.0
    requires next == (1.0 + monthlyRate) * power && next <= factor
    requires payment == AnnuityPayment(amount, monthlyRate, factor)
    ensures var b := Share(amount, factor - power, factor - 1.0);
      var c := Share(amount, factor - next, factor - 1.0);
      b - PrincipalPart(FixedPayment(payment), monthlyRate, b) == c && 0.0 <= c <= b
  {
    ScaleAtLeast(1.0 + monthlyRate, power);
    AnnuityAlgebra(amount, monthlyRate, factor, power);
    ShareMonotone(amount, factor - next, factor - power, factor - 1.0);
    ShareNonNegative(amount, factor - next, factor - 1.0);
  }

  lemma AnnuityStepPositiveRate(amount: real, period: nat, annualRate: real, k: nat)
    requires amount > 0.0 && period > 0 && annualRate > 0.0 && k < period
    ensures var monthlyRate := MonthlyRate(annualRate);
      var rule := FixedPayment(CalculateMonthlyPayment(amount, period, annualRate).value);
      var b := AnnuityBalance(amount, period, monthlyRate, k);
      && b - PrincipalPart(rule, monthlyRate, b) == AnnuityBalance(amount, period, monthlyRate, k + 1)
      && 0.0 <= AnnuityBalance(amount, period, monthlyRate, k + 1) <= b
  {
    var monthlyRate := MonthlyRate(annualRate);
    var g := 1.0 + monthlyRate;
    var factor := Pow(g, period);
    var power := Pow(g, k);
    var next := Pow(g, k + 1);
    AnnuityPaymentFormula(amount, period, annualRate);
    assert next == g * power;
    PowAtLeastOne(g, k);
    PowMonotone(g, k + 1, period);
    AnnuityStepAt(amount, monthlyRate, factor, power, next,
      CalculateMonthlyPayment(amount, period, annualRate).value);
  }

  lemma AnnuityStepZeroRate(amount: real, period: nat, k: nat)
    requires amount > 0.0 && period > 0 && k < period
    ensures var rule := FixedPayment(CalculateMonthlyPayment(amount, period, 0.0).value);
      var b := AnnuityBalance(amount, period, 0.0, k);
      && b - PrincipalPart(rule, 0.0, b) == AnnuityBalance(amount, period, 0.0, k + 1)
      && 0.0 <= AnnuityBalance(amount, period, 0.0, k + 1) <= b
  {
    var share := amount / period as real;
    assert share > 0.0;
    assert period as real * share == amount;
    assert (k + 1) as real * share <= period as real * share;
  }

  /** Under exact arithmetic the annuity balance follows the closed form for all `period` months. */
  lemma {:induction false} AnnuityBalanceClosedForm(amount: real, period: nat, annualRate: real, k: nat)
    requires amount > 0.0 && period > 0 && annualRate >= 0.0 && k <= period
    ensures var rule := FixedPayment(CalculateMonthlyPayment(amount, period, annualRate).value);
      BalanceAfter(rule, MonthlyRate(annualRate), amount, k) == AnnuityBalance(amount, period, MonthlyRate(annualRate), k)
  {
    if k > 0 {
      var monthlyRate := MonthlyRate(annualRate);
      var rule := FixedPayment(CalculateMonthlyPayment(amount, period, annualRate).value);
      AnnuityBalanceClosedForm(amount, period, annualRate, k - 1);
      var b := BalanceAfter(rule, monthlyRate, amount, k - 1);
      if annualRate == 0.0 {
        AnnuityStepZeroRate(amount, period, k - 1);
      } else {
        AnnuityStepPositiveRate(amount, period, annualRate, k - 1);
      }
      assert b - PrincipalPart(rule, monthlyRate, b) == AnnuityBalance(amount, period, monthlyRate, k) >= 0.0;
      assert BalanceAfter(rule, monthlyRate, amount, k) == MaxZero(b - PrincipalPart(rule, monthlyRate, b));
    } else {
      AnnuityBalanceStarts(amount, period, MonthlyRate(annualRate));
    }
  }

  /** The closed form starts at the borrowed amount. */
  lemma AnnuityBalanceStarts(amount: real, period: nat, monthlyRate: real)
    requires period > 0 && monthlyRate >= 0.0
    ensures AnnuityBalance(amount, period, monthlyRate, 0) == amount
  {
    if monthlyRate > 0.0 {
      var factor := Pow(1.0 + monthlyRate, period);
      PowAboveOne(1.0 + monthlyRate, period);
      assert Pow(1.0 + monthlyRate, 0) == 1.0;
      assert factor - Pow(1.0 + monthlyRate, 0) == factor - 1.0;
      ShareWhole(amount, factor - 1.0);
    }
  }

  /** The closed form reaches zero after the last month. */
  lemma AnnuityBalanceEnds(amount: real, period: nat, monthlyRate: real)
    requires period > 0 && monthlyRate >= 0.0
    ensures AnnuityBalance(amount, period, monthlyRate, period) == 0.0
  {
    if monthlyRate == 0.0 {
      assert period as real * (amount / period as real) == amount;
    } else {
      var factor := Pow(1.0 + monthlyRate, period);
      PowAboveOne(1.0 + monthlyRate, period);
      assert Share(amount, factor - factor, factor - 1.0) == 0.0;
    }
  }

  /**
   * The annuity payment amortizes exactly: every month lowers the balance by
   * its principal without touching the floor, and after `period` months the
   * balance is zero.
   */
  lemma AnnuityAmortizes(amount: real, period: nat, annualRate: real)
    requires amount > 0.0 && period > 0 && annualRate >= 0.0
    ensures var rule := FixedPayment(CalculateMonthlyPayment(amount, period, annualRate).value);
      && StepsDecline(rule, MonthlyRate(annualRate), amount, period)
      && BalanceAfter(rule, MonthlyRate(annualRate), amount, period) == 0.0
  {
    var monthlyRate := MonthlyRate(annualRate);
    var rule := FixedPayment(CalculateMonthlyPayment(amount, period, annualRate).value);
    forall j | 0 <= j < period
      ensures var b := BalanceAfter(rule, monthlyRate, amount, j);
        0.0 <= b - PrincipalPart(rule, monthlyRate, b) <= b
    {
      AnnuityBalanceClosedForm(amount, period, annualRate, j);
      if annualRate == 0.0 {
        AnnuityStepZeroRate(amount, period, j);
      } else {
        AnnuityStepPositiveRate(amount, period, annualRate, j);
      }
    }
    AnnuityBalanceClosedForm(amount, period, annualRate, period);
    AnnuityBalanceEnds(amount, period, monthlyRate);
  }

  // ---------------------------------------------------------------------------
  // The annuity schedule
  // ---------------------------------------------------------------------------

  /**
   * A phase whose every month lowers the balance by its principal and which ends
   * at zero declines monotonically to zero, and its principal column adds up to
   * the balance it started from.
   */
  lemma PhaseAmortizes(rule: Rule, monthlyRate: real, start: real, first: nat, k: nat)
    requires k > 0
    requires StepsDecline(rule, monthlyRate, start, k) && BalanceAfter(rule, monthlyRate, start, k) == 0.0
    ensures var rows := Rows(rule, monthlyRate, start, first, k);
      && BalancesDecline(rows, start)
      && NeverFloored(rows, start)
      && LastBalance(rows, start) == 0.0
      && SumPrincipal(rows) == start
  {
    var rows := Rows(rule, monthlyRate, start, first, k);
    PhaseShape(rule, monthlyRate, start, first, k);
    PhaseDeclines(rule, monthlyRate, start, first, k);
    PrincipalTelescopes(rows, start);
  }

  /** A successful annuity schedule is the one phase of `period` months at the computed payment. */
  lemma AnnuityScheduleRows(amount: real, period: nat, annualRate: real)
    requires AnnuitySchedule(amount, period, annualRate).Success?
    ensures CalculateMonthlyPayment(amount, period, annualRate).Success?
    ensures AnnuitySchedule(amount, period, annualRate).value
      == Rows(FixedPayment(CalculateMonthlyPayment(amount, period, annualRate).value),
              MonthlyRate(annualRate), amount, 1, period)
  {
  }

  /** A successful annuity schedule has one row per month, numbered from 1, all paying the same amount. */
  lemma AnnuityScheduleShape(amount: real, period: nat, annualRate: real)
    requires AnnuitySchedule(amount, period, annualRate).Success?
    ensures var rows := AnnuitySchedule(amount, period, annualRate).value;
      var payment := CalculateMonthlyPayment(amount, period, annualRate).value;
      && |rows| == period
      && NumberedFrom(rows, 1)
      && (forall i :: 0 <= i < |rows| ==> rows[i].payment == payment)
      && SplitsPayment(rows, amount, MonthlyRate(annualRate))
  {
    var monthlyRate := MonthlyRate(annualRate);
    var payment := CalculateMonthlyPayment(amount, period, annualRate).value;
    var rule := FixedPayment(payment);
    AnnuityScheduleRows(amount, period, annualRate);
    PhaseShape(rule, monthlyRate, amount, 1, period);
    RowsAt(rule, monthlyRate, amount, 1, period);
  }

  /**
   * Under exact arithmetic the annuity schedule repays the loan exactly: the
   * balance declines by the principal each month down to zero in the last row,
   * and the principal column adds up to the amount borrowed.
   */
  lemma AnnuityScheduleAmortizes(amount: real, period: nat, annualRate: real)
    requires AnnuitySchedule(amount, period, annualRate).Success?
    ensures var rows := AnnuitySchedule(amount, period, annualRate).value;
      && BalancesDecline(rows, amount)
      && NeverFloored(rows, amount)
      && rows[period - 1].remainingBalance == 0.0
      && SumPrincipal(rows) == amount
  {
    var monthlyRate := MonthlyRate(annualRate);
    var rule := FixedPayment(CalculateMonthlyPayment(amount, period, annualRate).value);
    AnnuityScheduleRows(amount, period, annualRate);
    AnnuityAmortizes(amount, period, annualRate);
    PhaseAmortizes(rule, monthlyRate, amount, 1, period);
  }

  /** The annuity schedule pays `period` times the engine's monthly payment in total. */
  lemma AnnuityScheduleTotalPaid(amount: real, period: nat, annualRate: real, payment: real)
    requires CalculateMonthlyPayment(amount, period, annualRate) == Success(payment)
    ensures AnnuitySchedule(amount, period, annualRate).Success?
    ensures SumPayment(AnnuitySchedule(amount, period, annualRate).value) == period as real * payment
  {
    AnnuityScheduleRows(amount, period, annualRate);
    FixedPaymentTotal(AnnuitySchedule(amount, period, annualRate).value, payment, MonthlyRate(annualRate), amount, period);
  }

  /** `FixedPaymentPhaseSum` for a whole schedule starting at month 1. */
  lemma FixedPaymentTotal(rows: seq<Row>, payment: real, monthlyRate: real, amount: real, period: nat)
    requires rows == Rows(FixedPayment(payment), monthlyRate, amount, 1, period)
    ensures SumPayment(rows) == period as real * payment
  {
    FixedPaymentPhaseSum(payment, monthlyRate, amount, 1, period);
  }

  /** Of the total an annuity schedule pays, everything beyond the amount borrowed is interest. */
  lemma AnnuityScheduleTotalInterest(amount: real, period: nat, annualRate: real)
    requires AnnuitySchedule(amount, period, annualRate).Success?
    ensures var rows := AnnuitySchedule(amount, period, annualRate).value;
      SumInterest(rows) == SumPayment(rows) - amount
  {
    var rows := AnnuitySchedule(amount, period, annualRate).value;
    AnnuityScheduleAmortizes(amount, period, annualRate);
    AnnuityScheduleShape(amount, period, annualRate);
    InterestIsPaymentLessPrincipal(rows, amount, MonthlyRate(annualRate));
  }

  // ---------------------------------------------------------------------------
  // The linear schedule
  // ---------------------------------------------------------------------------

  /** After `k` months of a linear plan the balance is P - k(P/n). */
  lemma {:induction false} LinearBalanceClosedForm(amount: real, period: nat, monthlyRate: real, k: nat)
    requires amount >= 0.0 && period > 0 && k <= period
    ensures BalanceAfter(FixedPrincipal(LinearPrincipal(amount, period)), monthlyRate, amount, k)
            == amount - k as real * (amount / period as real)
  {
    if k > 0 {
      LinearBalanceClosedForm(amount, period, monthlyRate, k - 1);
      LinearStep(amount, period, k - 1);
    }
  }

  lemma LinearStep(amount: real, period: nat, k: nat)
    requires amount >= 0.0 && period > 0 && k < period
    ensures var share := amount / period as real;
      var b := amount - k as real * share;
      0.0 <= b - share == amount - (k + 1) as real * share <= b
  {
    var share := amount / period as real;
    assert share >= 0.0;
    assert period as real * share == amount;
    assert (k + 1) as real * share <= period as real * share;
  }

  /** Each linear month lowers the balance by exactly `P/n`, and after `period` months it is zero. */
  lemma LinearAmortizes(amount: real, period: nat, monthlyRate: real)
    requires amount >= 0.0 && period > 0
    ensures var rule := FixedPrincipal(LinearPrincipal(amount, period));
      && StepsDecline(rule, monthlyRate, amount, period)
      && BalanceAfter(rule, monthlyRate, amount, period) == 0.0
  {
    var rule := FixedPrincipal(LinearPrincipal(amount, period));
    forall j | 0 <= j < period
      ensures var b := BalanceAfter(rule, monthlyRate, amount, j);
        0.0 <= b - PrincipalPart(rule, monthlyRate, b) <= b
    {
      LinearBalanceClosedForm(amount, period, monthlyRate, j);
      LinearStep(amount, period, j);
    }
    LinearBalanceClosedForm(amount, period, monthlyRate, period);
    assert period as real * (amount / period as real) == amount;
  }

  /**
   * The linear schedule has one row per month, numbered from 1; every row
   * repays the same principal `amount / period` and pays it plus the interest
   * on its opening balance.
   */
  lemma LinearScheduleShape(amount: real, period: nat, annualRate: real)
    ensures var rows := LinearSchedule(amount, period, annualRate);
      && |rows| == period
      && NumberedFrom(rows, 1)
      && (forall i :: 0 <= i < |rows| ==> rows[i].principal == amount / period as real)
      && SplitsPayment(rows, amount, MonthlyRate(annualRate))
  {
    var rule := FixedPrincipal(LinearPrincipal(amount, period));
    PhaseShape(rule, MonthlyRate(annualRate), amount, 1, period);
    RowsAt(rule, MonthlyRate(annualRate), amount, 1, period);
  }

  /**
   * For a non-negative amount the linear schedule repays it exactly: the
   * balance goes down by the principal each month to zero in the last row, and
   * the principal column adds up to the amount.
   */
  lemma LinearScheduleAmortizes(amount: real, period: nat, annualRate: real)
    requires amount >= 0.0 && period > 0
    ensures var rows := LinearSchedule(amount, period, annualRate);
      && BalancesDecline(rows, amount)
      && NeverFloored(rows, amount)
      && rows[period - 1].remainingBalance == 0.0
      && SumPrincipal(rows) == amount
  {
    var rule := FixedPrincipal(LinearPrincipal(amount, period));
    LinearAmortizes(amount, period, MonthlyRate(annualRate));
    PhaseAmortizes(rule, MonthlyRate(annualRate), amount, 1, period);
  }

  lemma InterestMonotone(monthlyRate: real, low: real, high: real)
    requires monthlyRate >= 0.0 && low <= high
    ensures Interest(monthlyRate, low) <= Interest(monthlyRate, high)
  {
    assert Interest(monthlyRate, high) - Interest(monthlyRate, low) == (high - low) * monthlyRate;
  }

  /** At a non-negative rate linear payments never go up from one month to the next, nor does the interest. */
  lemma LinearPaymentsNonIncreasing(amount: real, period: nat, annualRate: real)
    requires amount >= 0.0 && annualRate >= 0.0
    ensures var rows := LinearSchedule(amount, period, annualRate);
      forall i :: 0 < i < |rows| ==>
        rows[i].interest <= rows[i - 1].interest && rows[i].payment <= rows[i - 1].payment
  {
    var rows := LinearSchedule(amount, period, annualRate);
    var monthlyRate := MonthlyRate(annualRate);
    if period > 0 {
      LinearScheduleShape(amount, period, annualRate);
      LinearScheduleAmortizes(amount, period, annualRate);
      forall i | 0 < i < |rows|
        ensures rows[i].interest <= rows[i - 1].interest && rows[i].payment <= rows[i - 1].payment
      {
        assert OpeningBalance(rows, amount, i) <= OpeningBalance(rows, amount, i - 1);
        InterestMonotone(monthlyRate, OpeningBalance(rows, amount, i), OpeningBalance(rows, amount, i - 1));
      }
    }
  }

  // ---------------------------------------------------------------------------
  // Two phases one after the other
  // ---------------------------------------------------------------------------

  lemma OpeningBalanceAppend(first: seq<Row>, second: seq<Row>, start: real, i: nat)
    requires i <= |second|
    ensures OpeningBalance(first + second, start, |first| + i) == OpeningBalance(second, LastBalance(first, start), i)
  {
  }

  lemma LastBalanceAppend(first: seq<Row>, second: seq<Row>, start: real)
    ensures LastBalance(first + second, start) == LastBalance(second, LastBalance(first, start))
  {
  }

  lemma {:induction false} SumPrincipalAppend(first: seq<Row>, second: seq<Row>)
    ensures SumPrincipal(first + second) == SumPrincipal(first) + SumPrincipal(second)
  {
    if second != [] {
      var init := second[..|second| - 1];
      assert (first + second)[..|first + second| - 1] == first + init;
      SumPrincipalAppend(first, init);
    } else {
      assert first + second == first;
    }
  }

  /** Declining balances and an untouched floor carry over to the second phase when it starts where the first ended. */
  lemma PhasesChain(first: seq<Row>, second: seq<Row>, start: real)
    requires BalancesDecline(first, start) && NeverFloored(first, start)
    requires BalancesDecline(second, LastBalance(first, start)) && NeverFloored(second, LastBalance(first, start))
    ensures BalancesDecline(first + second, start) && NeverFloored(first + second, start)
  {
    var rows := first + second;
    forall i | 0 <= i < |rows|
      ensures 0.0 <= rows[i].remainingBalance <= OpeningBalance(rows, start, i)
      ensures rows[i].remainingBalance == OpeningBalance(rows, start, i) - rows[i].principal
    {
      if i < |first| {
        assert OpeningBalance(rows, start, i) == OpeningBalance(first, start, i);
      } else {
        OpeningBalanceAppend(first, second, start, i - |first|);
      }
    }
  }

  // ---------------------------------------------------------------------------
  // The fixed-then-variable annuity schedule
  // ---------------------------------------------------------------------------

  /** The balance left after the fixed months of a fixed-then-variable annuity. */
  function FixedPhaseBalance(amount: real, totalPeriod: nat, fixedRate: real, fixedMonths: nat): real
    requires CalculateMonthlyPayment(amount, totalPeriod, fixedRate).Success?
  {
    BalanceAfter(FixedPayment(CalculateMonthlyPayment(amount, totalPeriod, fixedRate).value),
                 MonthlyRate(fixedRate), amount, fixedMonths)
  }

  /** Whether the schedule goes on after the fixed months: months remain and more than 0.01 is still owed. */
  predicate Switches(amount: real, totalPeriod: nat, fixedRate: real, fixedMonths: nat)
    requires CalculateMonthlyPayment(amount, totalPeriod, fixedRate).Success?
  {
    totalPeriod > fixedMonths && FixedPhaseBalance(amount, totalPeriod, fixedRate, fixedMonths) > 0.01
  }

  /** The two phases of a successful fixed-then-variable annuity schedule. */
  lemma VariableAnnuityRows(amount: real, totalPeriod: nat, fixedRate: real, fixedMonths: nat, variableRate: real)
    requires VariableAnnuitySchedule(amount, totalPeriod, fixedRate, fixedMonths, variableRate).Success?
    ensures CalculateMonthlyPayment(amount, totalPeriod, fixedRate).Success?
    ensures var rule := FixedPayment(CalculateMonthlyPayment(amount, totalPeriod, fixedRate).value);
      var firstPhase := Rows(rule, MonthlyRate(fixedRate), amount, 1, fixedMonths);
      var balance := FixedPhaseBalance(amount, totalPeriod, fixedRate, fixedMonths);
      var rows := VariableAnnuitySchedule(amount, totalPeriod, fixedRate, fixedMonths, variableRate).value;
      if Switches(amount, totalPeriod, fixedRate, fixedMonths) then
        && CalculateMonthlyPayment(balance, totalPeriod - fixedMonths, variableRate).Success?
        && rows == firstPhase + Rows(FixedPayment(CalculateMonthlyPayment(balance, totalPeriod - fixedMonths, variableRate).value),
                                     MonthlyRate(variableRate), balance, fixedMonths + 1, totalPeriod - fixedMonths)
      else
        rows == firstPhase
  {
  }

  /**
   * The fixed months of a fixed-then-variable annuity are the first months of
   * the single-rate annuity schedule at the fixed rate over the whole period.
   */
  lemma VariableAnnuityFixedPhase(amount: real, totalPeriod: nat, fixedRate: real, fixedMonths: nat, variableRate: real)
    requires VariableAnnuitySchedule(amount, totalPeriod, fixedRate, fixedMonths, variableRate).Success?
    ensures var rows := VariableAnnuitySchedule(amount, totalPeriod, fixedRate, fixedMonths, variableRate).value;
      var m := if fixedMonths <= totalPeriod then fixedMonths else totalPeriod;
      var single := AnnuitySchedule(amount, totalPeriod, fixedRate);
      && single.Success?
      && |rows| >= m
      && rows[..m] == single.value[..m]
  {
    var rule := FixedPayment(CalculateMonthlyPayment(amount, totalPeriod, fixedRate).value);
    var monthlyRate := MonthlyRate(fixedRate);
    VariableAnnuityRows(amount, totalPeriod, fixedRate, fixedMonths, variableRate);
    var rows := VariableAnnuitySchedule(amount, totalPeriod, fixedRate, fixedMonths, variableRate).value;
    var firstPhase := Rows(rule, monthlyRate, amount, 1, fixedMonths);
    var single := Rows(rule, monthlyRate, amount, 1, totalPeriod);
    AnnuityScheduleRows(amount, totalPeriod, fixedRate);
    RowsLength(rule, monthlyRate, amount, 1, fixedMonths);
    assert rows[..|firstPhase|] == firstPhase;
    if fixedMonths <= totalPeriod {
      RowsSplit(rule, monthlyRate, amount, 1, fixedMonths, totalPeriod - fixedMonths);
      assert single[..fixedMonths] == firstPhase;
    } else {
      RowsSplit(rule, monthlyRate, amount, 1, totalPeriod, fixedMonths - totalPeriod);
      RowsLength(rule, monthlyRate, amount, 1, totalPeriod);
      assert firstPhase[..totalPeriod] == single;
    }
  }

  /**
   * After the fixed months a switching schedule runs to the end of the period,
   * numbered on from `fixedMonths + 1`, paying the payment re-solved for the
   * balance left, the remaining months and the variable rate, split into the
   * variable-rate interest on the opening balance and principal; a schedule
   * that does not switch stops after the fixed months.
   */
  lemma VariableAnnuityVariablePhase(amount: real, totalPeriod: nat, fixedRate: real, fixedMonths: nat, variableRate: real)
    requires VariableAnnuitySchedule(amount, totalPeriod, fixedRate, fixedMonths, variableRate).Success?
    ensures CalculateMonthlyPayment(amount, totalPeriod, fixedRate).Success?
    ensures var rows := VariableAnnuitySchedule(amount, totalPeriod, fixedRate, fixedMonths, variableRate).value;
      var balance := FixedPhaseBalance(amount, totalPeriod, fixedRate, fixedMonths);
      if Switches(amount, totalPeriod, fixedRate, fixedMonths) then
        var newPayment := CalculateMonthlyPayment(balance, totalPeriod - fixedMonths, variableRate);
        && newPayment.Success?
        && |rows| == totalPeriod
        && forall i :: fixedMonths <= i < |rows| ==>
             && rows[i].month == i + 1
             && rows[i].payment == newPayment.value
             && rows[i].interest == Interest(MonthlyRate(variableRate), OpeningBalance(rows, amount, i))
             && rows[i].principal + rows[i].interest == rows[i].payment
      else
        |rows| == fixedMonths
  {
    VariableAnnuityRows(amount, totalPeriod, fixedRate, fixedMonths, variableRate);
    var rule := FixedPayment(CalculateMonthlyPayment(amount, totalPeriod, fixedRate).value);
    var firstPhase := Rows(rule, MonthlyRate(fixedRate), amount, 1, fixedMonths);
    var balance := FixedPhaseBalance(amount, totalPeriod, fixedRate, fixedMonths);
    RowsLength(rule, MonthlyRate(fixedRate), amount, 1, fixedMonths);
    PhaseEnds(rule, MonthlyRate(fixedRate), amount, 1, fixedMonths);
    if Switches(amount, totalPeriod, fixedRate, fixedMonths) {
      var rows := VariableAnnuitySchedule(amount, totalPeriod, fixedRate, fixedMonths, variableRate).value;
      ResumedPhaseShape(firstPhase, amount, CalculateMonthlyPayment(balance, totalPeriod - fixedMonths, variableRate).value,
                        MonthlyRate(variableRate), balance, totalPeriod - fixedMonths, rows);
    }
  }

  /**
   * Rows appended after a first phase, at a fixed payment from the balance that
   * phase leaves: numbered on from it, each paying that payment, split into the
   * interest on its opening balance and principal.
   */
  lemma ResumedPhaseShape(firstPhase: seq<Row>, amount: real, payment: real, monthlyRate: real,
                          balance: real, rest: nat, rows: seq<Row>)
    requires LastBalance(firstPhase, amount) == balance
    requires rows == firstPhase + Rows(FixedPayment(payment), monthlyRate, balance, |firstPhase| + 1, rest)
    ensures |rows| == |firstPhase| + rest
    ensures forall i :: |firstPhase| <= i < |rows| ==>
      && rows[i].month == i + 1
      && rows[i].payment == payment
      && rows[i].interest == Interest(monthlyRate, OpeningBalance(rows, amount, i))
      && rows[i].principal + rows[i].interest == rows[i].payment
  {
    var fixedMonths := |firstPhase|;
    var newRule := FixedPayment(payment);
    var secondPhase := Rows(newRule, monthlyRate, balance, fixedMonths + 1, rest);
    PhaseShape(newRule, monthlyRate, balance, fixedMonths + 1, rest);
    RowsAt(newRule, monthlyRate, balance, fixedMonths + 1, rest);
    forall i | fixedMonths <= i < |rows|
      ensures rows[i] == secondPhase[i - fixedMonths]
      ensures OpeningBalance(rows, amount, i) == OpeningBalance(secondPhase, balance, i - fixedMonths)
    {
      OpeningBalanceAppend(firstPhase, secondPhase, amount, i - fixedMonths);
    }
  }

  /**
   * When the fixed months do not exceed the period, the fixed-then-variable
   * annuity lowers the balance by each month's principal without touching the
   * floor; a switching schedule ends at exactly zero, one that does not switch
   * leaves at most 0.01 unpaid, and the principal column adds up to the amount
   * less what is left.
   */
  lemma VariableAnnuityAmortizes(amount: real, totalPeriod: nat, fixedRate: real, fixedMonths: nat, variableRate: real)
    requires VariableAnnuitySchedule(amount, totalPeriod, fixedRate, fixedMonths, variableRate).Success?
    requires fixedMonths <= totalPeriod
    ensures CalculateMonthlyPayment(amount, totalPeriod, fixedRate).Success?
    ensures var rows := VariableAnnuitySchedule(amount, totalPeriod, fixedRate, fixedMonths, variableRate).value;
      && BalancesDecline(rows, amount)
      && NeverFloored(rows, amount)
      && SumPrincipal(rows) == amount - LastBalance(rows, amount)
      && (if Switches(amount, totalPeriod, fixedRate, fixedMonths) then LastBalance(rows, amount) == 0.0
          else LastBalance(rows, amount) <= 0.01)
  {
    VariableAnnuityRows(amount, totalPeriod, fixedRate, fixedMonths, variableRate);
    var rows := VariableAnnuitySchedule(amount, totalPeriod, fixedRate, fixedMonths, variableRate).value;
    var monthlyRate := MonthlyRate(fixedRate);
    var rule := FixedPayment(CalculateMonthlyPayment(amount, totalPeriod, fixedRate).value);
    var firstPhase := Rows(rule, monthlyRate, amount, 1, fixedMonths);
    var balance := FixedPhaseBalance(amount, totalPeriod, fixedRate, fixedMonths);
    AnnuityAmortizes(amount, totalPeriod, fixedRate);
    assert StepsDecline(rule, monthlyRate, amount, fixedMonths);
    if Switches(amount, totalPeriod, fixedRate, fixedMonths) {
      var newRule := FixedPayment(CalculateMonthlyPayment(balance, totalPeriod - fixedMonths, variableRate).value);
      AnnuityAmortizes(balance, totalPeriod - fixedMonths, variableRate);
      SwitchedPhasesAmortize(rule, monthlyRate, amount, fixedMonths, newRule, MonthlyRate(variableRate),
                             balance, totalPeriod - fixedMonths, rows);
    } else {
      FixedPhaseDeclines(rule, monthlyRate, amount, fixedMonths, rows);
    }
    PrincipalTelescopes(rows, amount);
  }

  /** A phase whose every month declines, on its own: it ends at the balance after its months. */
  lemma FixedPhaseDeclines(rule: Rule, monthlyRate: real, amount: real, fixedMonths: nat, rows: seq<Row>)
    requires StepsDecline(rule, monthlyRate, amount, fixedMonths)
    requires rows == Rows(rule, monthlyRate, amount, 1, fixedMonths)
    ensures BalancesDecline(rows, amount) && NeverFloored(rows, amount)
    ensures LastBalance(rows, amount) == BalanceAfter(rule, monthlyRate, amount, fixedMonths)
  {
    PhaseDeclines(rule, monthlyRate, amount, 1, fixedMonths);
    PhaseEnds(rule, monthlyRate, amount, 1, fixedMonths);
  }

  /**
   * A declining first phase followed by a second phase that starts from the
   * balance the first leaves and repays it exactly: the whole declines and ends at zero.
   */
  lemma SwitchedPhasesAmortize(rule: Rule, rate1: real, amount: real, fixedMonths: nat,
                               newRule: Rule, rate2: real, balance: real, rest: nat, rows: seq<Row>)
    requires rest > 0
    requires StepsDecline(rule, rate1, amount, fixedMonths)
    requires balance == BalanceAfter(rule, rate1, amount, fixedMonths)
    requires StepsDecline(newRule, rate2, balance, rest) && BalanceAfter(newRule, rate2, balance, rest) == 0.0
    requires rows == Rows(rule, rate1, amount, 1, fixedMonths) + Rows(newRule, rate2, balance, fixedMonths + 1, rest)
    ensures BalancesDecline(rows, amount) && NeverFloored(rows, amount)
    ensures LastBalance(rows, amount) == 0.0
  {
    var firstPhase := Rows(rule, rate1, amount, 1, fixedMonths);
    var secondPhase := Rows(newRule, rate2, balance, fixedMonths + 1, rest);
    FixedPhaseDeclines(rule, rate1, amount, fixedMonths, firstPhase);
    PhaseAmortizes(newRule, rate2, balance, fixedMonths + 1, rest);
    PhasesChain(firstPhase, secondPhase, amount);
    LastBalanceAppend(firstPhase, secondPhase, amount);
  }

  lemma PowGrowsStrictly(x: real, k: nat)
    requires x > 1.0
    ensures Pow(x, k) < Pow(x, k + 1)
  {
    PowAtLeastOne(x, k);
    ScaledAbove(x, Pow(x, k), Pow(x, k + 1));
  }

  lemma ScaledAbove(x: real, p: real, q: real)
    requires x > 1.0 && p >= 1.0 && q == x * p
    ensures p < q
  {
    assert q - p == (x - 1.0) * p;
    PositiveProduct(x - 1.0, p);
  }

  lemma PositiveProduct(a: real, b: real)
    requires a > 0.0 && b > 0.0
    ensures a * b > 0.0
  {
  }

  lemma {:induction false} PowStrictlyMonotone(x: real, j: nat, k: nat)
    requires x > 1.0 && j < k
    ensures Pow(x, j) < Pow(x, k)
  {
    if j < k - 1 {
      PowStrictlyMonotone(x, j, k - 1);
    }
    PowGrowsStrictly(x, k - 1);
  }

  lemma SharePositive(amount: real, part: real, whole: real)
    requires amount > 0.0 && part > 0.0 && whole > 0.0
    ensures Share(amount, part, whole) > 0.0
  {
  }

  /** Before the last month the exact annuity balance is still positive. */
  lemma AnnuityBalancePositive(amount: real, period: nat, annualRate: real, k: nat)
    requires amount > 0.0 && period > 0 && annualRate >= 0.0 && k < period
    ensures FixedPhaseBalance(amount, period, annualRate, k) > 0.0
  {
    var monthlyRate := MonthlyRate(annualRate);
    AnnuityBalanceClosedForm(amount, period, annualRate, k);
    if annualRate == 0.0 {
      var share := amount / period as real;
      assert period as real * share == amount;
      assert k as real * share < period as real * share;
    } else {
      var g := 1.0 + monthlyRate;
      PowStrictlyMonotone(g, k, period);
      PowAboveOne(g, period);
      SharePositive(amount, Pow(g, period) - Pow(g, k), Pow(g, period) - 1.0);
    }
  }

  /** Re-solving the annuity on what is left, over the months left, at the same rate: the payment does not change. */
  lemma ResolveAlgebra(amount: real, monthlyRate: real, power: real, rest: real)
    requires amount > 0.0 && monthlyRate > 0.0 && power >= 1.0 && rest > 1.0
    ensures power * rest > 1.0
    ensures AnnuityPayment(Share(amount, power * rest - power, power * rest - 1.0), monthlyRate, rest)
            == AnnuityPayment(amount, monthlyRate, power * rest)
  {
    var factor := power * rest;
    ScaleAtLeast(power, rest);
    var d := factor - 1.0;
    var e := rest - 1.0;
    var b := Share(amount, factor - power, d);
    assert b * d == amount * (factor - power);
    assert factor - power == power * e;
    var resolved := AnnuityPayment(b, monthlyRate, rest);
    var payment := AnnuityPayment(amount, monthlyRate, factor);
    assert resolved * e == b * (monthlyRate * rest);
    assert payment * d == amount * (monthlyRate * factor);
    calc {
      resolved * (e * d);
      (resolved * e) * d;
      (b * d) * (monthlyRate * rest);
      amount * (power * e) * (monthlyRate * rest);
      (amount * (monthlyRate * factor)) * e;
      (payment * d) * e;
      payment * (e * d);
    }
    CancelFactor(resolved, payment, e * d);
  }

  lemma ResolvedPaymentZeroRate(amount: real, period: nat, k: nat)
    requires amount > 0.0 && period > 0 && k < period
    ensures var balance := FixedPhaseBalance(amount, period, 0.0, k);
      CalculateMonthlyPayment(balance, period - k, 0.0) == CalculateMonthlyPayment(amount, period, 0.0)
  {
    var balance := FixedPhaseBalance(amount, period, 0.0, k);
    AnnuityBalancePositive(amount, period, 0.0, k);
    AnnuityBalanceClosedForm(amount, period, 0.0, k);
    var share := amount / period as real;
    assert balance == amount - k as real * share;
    assert period as real * share == amount;
    assert balance == (period - k) as real * share;
    assert balance / (period - k) as real == share;
  }

  lemma ResolvedPaymentPositiveRate(amount: real, period: nat, annualRate: real, k: nat)
    requires amount > 0.0 && period > 0 && annualRate > 0.0 && k < period
    ensures var balance := FixedPhaseBalance(amount, period, annualRate, k);
      CalculateMonthlyPayment(balance, period - k, annualRate) == CalculateMonthlyPayment(amount, period, annualRate)
  {
    var balance := FixedPhaseBalance(amount, period, annualRate, k);
    var monthlyRate := MonthlyRate(annualRate);
    var g := 1.0 + monthlyRate;
    AnnuityBalancePositive(amount, period, annualRate, k);
    FixedPhaseBalanceShare(amount, period, annualRate, k);
    PowAdd(g, k, period - k);
    PowAtLeastOne(g, k);
    PowAboveOne(g, period - k);
    PowAboveOne(g, period);
    ResolveAt(amount, monthlyRate, Pow(g, k), Pow(g, period - k), Pow(g, period), balance);
    AnnuityPaymentFormula(amount, period, annualRate);
    AnnuityPaymentFormula(balance, period - k, annualRate);
  }

  /** At a positive rate the balance after the fixed months is the closed form P(F - (1+r)^k)/(F - 1). */
  lemma FixedPhaseBalanceShare(amount: real, period: nat, annualRate: real, k: nat)
    requires amount > 0.0 && period > 0 && annualRate > 0.0 && k < period
    ensures var g := 1.0 + MonthlyRate(annualRate);
      && Pow(g, period) > 1.0
      && FixedPhaseBalance(amount, period, annualRate, k) == Share(amount, Pow(g, period) - Pow(g, k), Pow(g, period) - 1.0)
  {
    PowAboveOne(1.0 + MonthlyRate(annualRate), period);
    AnnuityBalanceClosedForm(amount, period, annualRate, k);
  }

  /** `ResolveAlgebra` with the powers and the balance passed in. */
  lemma ResolveAt(amount: real, monthlyRate: real, power: real, rest: real, factor: real, balance: real)
    requires amount > 0.0 && monthlyRate > 0.0 && power >= 1.0 && rest > 1.0
    requires factor == power * rest && factor > 1.0
    requires balance == Share(amount, factor - power, factor - 1.0)
    ensures AnnuityPayment(balance, monthlyRate, rest) == AnnuityPayment(amount, monthlyRate, factor)
  {
    ResolveAlgebra(amount, monthlyRate, power, rest);
  }

  /** At the same rate, the payment re-solved after `k` months is the original payment. */
  lemma ResolvedPaymentUnchanged(amount: real, period: nat, annualRate: real, k: nat)
    requires amount > 0.0 && period > 0 && annualRate >= 0.0 && k < period
    ensures var balance := FixedPhaseBalance(amount, period, annualRate, k);
      CalculateMonthlyPayment(balance, period - k, annualRate) == CalculateMonthlyPayment(amount, period, annualRate)
  {
    if annualRate == 0.0 {
      ResolvedPaymentZeroRate(amount, period, k);
    } else {
      ResolvedPaymentPositiveRate(amount, period, annualRate, k);
    }
  }

  /**
   * With the same fixed and variable rate, a fixed-then-variable annuity is
   * the single-rate annuity schedule, provided it switches (or the fixed
   * months cover the whole period).
   */
  lemma VariableAnnuitySameRate(amount: real, totalPeriod: nat, rate: real, fixedMonths: nat)
    requires amount > 0.0 && totalPeriod > 0 && rate >= 0.0 && fixedMonths <= totalPeriod
    requires fixedMonths == totalPeriod || FixedPhaseBalance(amount, totalPeriod, rate, fixedMonths) > 0.01
    ensures VariableAnnuitySchedule(amount, totalPeriod, rate, fixedMonths, rate) == AnnuitySchedule(amount, totalPeriod, rate)
  {
    var rule := FixedPayment(CalculateMonthlyPayment(amount, totalPeriod, rate).value);
    var monthlyRate := MonthlyRate(rate);
    if fixedMonths < totalPeriod {
      ResolvedPaymentUnchanged(amount, totalPeriod, rate, fixedMonths);
      RowsSplit(rule, monthlyRate, amount, 1, fixedMonths, totalPeriod - fixedMonths);
    }
  }

  /**
   * When the fixed months cover the whole period the variable rate is never
   * used: the fixed-then-variable annuity is the single-rate annuity at the
   * fixed rate, whatever the variable rate is.
   */
  lemma VariableAnnuityNoSwitch(amount: real, totalPeriod: nat, fixedRate: real, variableRate: real)
    requires VariableAnnuitySchedule(amount, totalPeriod, fixedRate, totalPeriod, variableRate).Success?
    ensures VariableAnnuitySchedule(amount, totalPeriod, fixedRate, totalPeriod, variableRate)
            == AnnuitySchedule(amount, totalPeriod, fixedRate)
  {
    var rows := VariableAnnuitySchedule(amount, totalPeriod, fixedRate, totalPeriod, variableRate).value;
    VariableAnnuityFixedPhase(amount, totalPeriod, fixedRate, totalPeriod, variableRate);
    VariableAnnuityVariablePhase(amount, totalPeriod, fixedRate, totalPeriod, variableRate);
    var single := AnnuitySchedule(amount, totalPeriod, fixedRate);
    assert rows == rows[..totalPeriod] == single.value[..totalPeriod] == single.value;
  }

  // ---------------------------------------------------------------------------
  // The fixed-then-variable linear schedule
  // ---------------------------------------------------------------------------

  /** With a fixed principal the balances do not depend on the rate. */
  lemma {:induction false} FixedPrincipalIgnoresRate(principal: real, rate1: real, rate2: real, start: real, k: nat)
    ensures BalanceAfter(FixedPrincipal(principal), rate1, start, k) == BalanceAfter(FixedPrincipal(principal), rate2, start, k)
  {
    if k > 0 {
      FixedPrincipalIgnoresRate(principal, rate1, rate2, start, k - 1);
    }
  }

  /** When the fixed months cover the whole period, the fixed-then-variable linear schedule is the fixed-rate linear one. */
  lemma VariableLinearNoSwitch(amount: real, totalPeriod: nat, fixedRate: real, fixedMonths: nat, variableRate: real)
    requires fixedMonths >= totalPeriod
    ensures VariableLinearSchedule(amount, totalPeriod, fixedRate, fixedMonths, variableRate)
            == LinearSchedule(amount, totalPeriod, fixedRate)
  {
    var full := LinearSchedule(amount, totalPeriod, fixedRate);
    assert full[..|full|] == full;
  }

  /** Before the last month of a linear plan over a positive amount something is still owed. */
  lemma LinearBalancePositive(amount: real, period: nat, monthlyRate: real, k: nat)
    requires amount > 0.0 && k < period
    ensures BalanceAfter(FixedPrincipal(LinearPrincipal(amount, period)), monthlyRate, amount, k) > 0.0
  {
    LinearBalanceClosedForm(amount, period, monthlyRate, k);
    var share := amount / period as real;
    assert period as real * share == amount;
    assert k as real * share < period as real * share;
  }

  /** The first `k` months of the linear schedule, and the positive balance they leave. */
  lemma LinearPrefix(amount: real, totalPeriod: nat, fixedRate: real, k: nat)
    requires amount > 0.0 && k < totalPeriod
    ensures var rule := FixedPrincipal(LinearPrincipal(amount, totalPeriod));
      var firstPhase := Rows(rule, MonthlyRate(fixedRate), amount, 1, k);
      && LinearSchedule(amount, totalPeriod, fixedRate)[..k] == firstPhase
      && LastBalance(firstPhase, amount) == BalanceAfter(rule, MonthlyRate(fixedRate), amount, k)
      && BalanceAfter(rule, MonthlyRate(fixedRate), amount, k) > 0.0
  {
    var rule := FixedPrincipal(LinearPrincipal(amount, totalPeriod));
    var monthlyRate := MonthlyRate(fixedRate);
    RowsSplit(rule, monthlyRate, amount, 1, k, totalPeriod - k);
    RowsLength(rule, monthlyRate, amount, 1, k);
    PhaseEnds(rule, monthlyRate, amount, 1, k);
    LinearBalancePositive(amount, totalPeriod, monthlyRate, k);
  }

  /** For a positive amount and fewer fixed months than the period, the two phases of the linear schedule. */
  lemma VariableLinearRows(amount: real, totalPeriod: nat, fixedRate: real, fixedMonths: nat, variableRate: real)
    requires amount > 0.0 && fixedMonths < totalPeriod
    ensures var rule := FixedPrincipal(LinearPrincipal(amount, totalPeriod));
      var balance := BalanceAfter(rule, MonthlyRate(fixedRate), amount, fixedMonths);
      && balance > 0.0
      && VariableLinearSchedule(amount, totalPeriod, fixedRate, fixedMonths, variableRate)
         == Rows(rule, MonthlyRate(fixedRate), amount, 1, fixedMonths)
            + Rows(rule, MonthlyRate(variableRate), balance, fixedMonths + 1, totalPeriod - fixedMonths)
  {
    LinearPrefix(amount, totalPeriod, fixedRate, fixedMonths);
    assert LinearPrincipal(amount, totalPeriod) == amount / totalPeriod as real;
  }

  /**
   * Row `j` of a fixed-principal phase resumed after `fixedMonths` months at
   * another rate has the month, principal and balance of row
   * `fixedMonths + j` of the whole `total`-month phase at the first rate.
   */
  lemma ResumedRow(principal: real, rate1: real, rate2: real, start: real, fixedMonths: nat, total: nat, j: nat)
    requires fixedMonths + j < total
    ensures var rule := FixedPrincipal(principal);
      var resumed := Rows(rule, rate2, BalanceAfter(rule, rate1, start, fixedMonths), fixedMonths + 1, total - fixedMonths);
      var whole := Rows(rule, rate1, start, 1, total);
      && |resumed| == total - fixedMonths && |whole| == total
      && resumed[j].month == whole[fixedMonths + j].month
      && resumed[j].principal == whole[fixedMonths + j].principal
      && resumed[j].remainingBalance == whole[fixedMonths + j].remainingBalance
  {
    var rule := FixedPrincipal(principal);
    var balance := BalanceAfter(rule, rate1, start, fixedMonths);
    RowsAt(rule, rate2, balance, fixedMonths + 1, total - fixedMonths);
    RowsAt(rule, rate1, start, 1, total);
    BalanceAfterSplit(rule, rate1, start, fixedMonths, j);
    FixedPrincipalIgnoresRate(principal, rate2, rate1, balance, j);
  }

  /** The fixed months of the fixed-then-variable linear schedule are those of the fixed-rate linear schedule. */
  lemma VariableLinearFixedPhase(amount: real, totalPeriod: nat, fixedRate: real, fixedMonths: nat, variableRate: real)
    requires amount > 0.0 && fixedMonths < totalPeriod
    ensures var rows := VariableLinearSchedule(amount, totalPeriod, fixedRate, fixedMonths, variableRate);
      var full := LinearSchedule(amount, totalPeriod, fixedRate);
      && |rows| == |full| == totalPeriod
      && rows[..fixedMonths] == full[..fixedMonths]
  {
    var rule := FixedPrincipal(LinearPrincipal(amount, totalPeriod));
    VariableLinearRows(amount, totalPeriod, fixedRate, fixedMonths, variableRate);
    LinearPrefix(amount, totalPeriod, fixedRate, fixedMonths);
    RowsLength(rule, MonthlyRate(fixedRate), amount, 1, fixedMonths);
    RowsLength(rule, MonthlyRate(variableRate), BalanceAfter(rule, MonthlyRate(fixedRate), amount, fixedMonths),
               fixedMonths + 1, totalPeriod - fixedMonths);
  }

  lemma VariableLinearRowAt(amount: real, totalPeriod: nat, fixedRate: real, fixedMonths: nat, variableRate: real, i: nat)
    requires amount > 0.0 && fixedMonths <= i < totalPeriod
    ensures var rows := VariableLinearSchedule(amount, totalPeriod, fixedRate, fixedMonths, variableRate);
      var full := LinearSchedule(amount, totalPeriod, fixedRate);
      && |rows| == |full| == totalPeriod
      && rows[i].month == full[i].month
      && rows[i].principal == full[i].principal
      && rows[i].remainingBalance == full[i].remainingBalance
      && rows[i].interest == Interest(MonthlyRate(variableRate), OpeningBalance(rows, amount, i))
      && rows[i].payment == rows[i].principal + rows[i].interest
  {
    var principal := LinearPrincipal(amount, totalPeriod);
    var rule := FixedPrincipal(principal);
    var fixedMonthly := MonthlyRate(fixedRate);
    var variableMonthly := MonthlyRate(variableRate);
    var balance := BalanceAfter(rule, fixedMonthly, amount, fixedMonths);
    var firstPhase := Rows(rule, fixedMonthly, amount, 1, fixedMonths);
    var secondPhase := Rows(rule, variableMonthly, balance, fixedMonths + 1, totalPeriod - fixedMonths);
    var j := i - fixedMonths;
    VariableLinearFixedPhase(amount, totalPeriod, fixedRate, fixedMonths, variableRate);
    VariableLinearRows(amount, totalPeriod, fixedRate, fixedMonths, variableRate);
    RowsLength(rule, fixedMonthly, amount, 1, fixedMonths);
    PhaseShape(rule, variableMonthly, balance, fixedMonths + 1, totalPeriod - fixedMonths);
    ResumedRow(principal, fixedMonthly, variableMonthly, amount, fixedMonths, totalPeriod, j);
    OpeningBalanceAppend(firstPhase, secondPhase, amount, j);
  }

  /**
   * After the fixed months the fixed-then-variable linear schedule keeps the
   * months, the principal `amount / totalPeriod` and the balances of the
   * fixed-rate linear schedule, and recomputes only the interest, at the
   * variable rate on the opening balance, and so the payment.
   */
  lemma VariableLinearVariablePhase(amount: real, totalPeriod: nat, fixedRate: real, fixedMonths: nat, variableRate: real)
    requires amount > 0.0 && fixedMonths < totalPeriod
    ensures var rows := VariableLinearSchedule(amount, totalPeriod, fixedRate, fixedMonths, variableRate);
      var full := LinearSchedule(amount, totalPeriod, fixedRate);
      && |rows| == |full| == totalPeriod
      && forall i :: fixedMonths <= i < totalPeriod ==>
           && rows[i].month == full[i].month
           && rows[i].principal == full[i].principal
           && rows[i].remainingBalance == full[i].remainingBalance
           && rows[i].interest == Interest(MonthlyRate(variableRate), OpeningBalance(rows, amount, i))
           && rows[i].payment == rows[i].principal + rows[i].interest
  {
    VariableLinearFixedPhase(amount, totalPeriod, fixedRate, fixedMonths, variableRate);
    forall i | fixedMonths <= i < totalPeriod {
      VariableLinearRowAt(amount, totalPeriod, fixedRate, fixedMonths, variableRate, i);
    }
  }

  /**
   * For a positive amount the fixed-then-variable linear schedule repays it
   * exactly, whatever the variable rate: the balance goes down by the
   * principal each month to zero in the last row, and the principal column
   * adds up to the amount.
   */
  lemma VariableLinearAmortizes(amount: real, totalPeriod: nat, fixedRate: real, fixedMonths: nat, variableRate: real)
    requires amount > 0.0 && totalPeriod > 0
    ensures var rows := VariableLinearSchedule(amount, totalPeriod, fixedRate, fixedMonths, variableRate);
      && |rows| == totalPeriod
      && BalancesDecline(rows, amount)
      && NeverFloored(rows, amount)
      && rows[totalPeriod - 1].remainingBalance == 0.0
      && SumPrincipal(rows) == amount
  {
    var rows := VariableLinearSchedule(amount, totalPeriod, fixedRate, fixedMonths, variableRate);
    var full := LinearSchedule(amount, totalPeriod, fixedRate);
    LinearScheduleAmortizes(amount, totalPeriod, fixedRate);
    if fixedMonths >= totalPeriod {
      VariableLinearNoSwitch(amount, totalPeriod, fixedRate, fixedMonths, variableRate);
    } else {
      VariableLinearFixedPhase(amount, totalPeriod, fixedRate, fixedMonths, variableRate);
      VariableLinearVariablePhase(amount, totalPeriod, fixedRate, fixedMonths, variableRate);
      forall i | 0 <= i < fixedMonths
        ensures rows[i] == full[i]
      {
        assert rows[..fixedMonths][i] == full[..fixedMonths][i];
      }
      forall i | 0 <= i < |rows|
        ensures OpeningBalance(rows, amount, i) == OpeningBalance(full, amount, i)
      {
        if i > 0 {
          assert rows[i - 1].remainingBalance == full[i - 1].remainingBalance;
        }
      }
      SamePrincipalColumn(rows, full);
    }
  }

  /** Rows with the same principal column add up to the same principal. */
  lemma {:induction false} SamePrincipalColumn(rows: seq<Row>, other: seq<Row>)
    requires |rows| == |other| && forall i :: 0 <= i < |rows| ==> rows[i].principal == other[i].principal
    ensures SumPrincipal(rows) == SumPrincipal(other)
  {
    if rows != [] {
      SamePrincipalColumn(rows[..|rows| - 1], other[..|other| - 1]);
    }
  }

  /** With the same fixed and variable rate, the fixed-then-variable linear schedule of a positive amount is the linear schedule. */
  lemma VariableLinearSameRate(amount: real, totalPeriod: nat, rate: real, fixedMonths: nat)
    requires amount > 0.0
    ensures VariableLinearSchedule(amount, totalPeriod, rate, fixedMonths, rate) == LinearSchedule(amount, totalPeriod, rate)
  {
    if fixedMonths >= totalPeriod {
      VariableLinearNoSwitch(amount, totalPeriod, rate, fixedMonths, rate);
    } else {
      var rule := FixedPrincipal(LinearPrincipal(amount, totalPeriod));
      VariableLinearRows(amount, totalPeriod, rate, fixedMonths, rate);
      RowsSplit(rule, MonthlyRate(rate), amount, 1, fixedMonths, totalPeriod - fixedMonths);
    }
  }

  /**
   * Inputs the calculators accept never reach the 'Invalid loan parameters' guard: a positive amount over a
   * positive period at non-negative rates yields an annuity schedule, and the fixed-then-variable schedule
   * re-solves its second phase from a positive balance over the months that remain.
   */
  lemma ValidInputsNeverFail(amount: real, totalPeriod: nat, fixedRate: real, fixedMonths: nat, variableRate: real)
    requires amount > 0.0 && totalPeriod > 0 && fixedRate >= 0.0 && variableRate >= 0.0
    ensures AnnuitySchedule(amount, totalPeriod, fixedRate).Success?
    ensures VariableAnnuitySchedule(amount, totalPeriod, fixedRate, fixedMonths, variableRate).Success?
  {
    if Switches(amount, totalPeriod, fixedRate, fixedMonths) {
      var balance := FixedPhaseBalance(amount, totalPeriod, fixedRate, fixedMonths);
      assert CalculateMonthlyPayment(balance, totalPeriod - fixedMonths, variableRate).Success?;
    }
  }
}
