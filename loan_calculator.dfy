/**
 * The amortization engine of the loan simulator: the annuity payment formula,
 * the single-rate annuity and linear schedules, the dispatcher between them and
 * the two fixed-then-variable schedules.
 *
 * Amounts and rates are exact reals; a period is a whole number of months.
 * Every generator is a method with the month loop of the service, proved equal
 * to a specification function built from `Rows` below. What those functions
 * promise (row counts, the payment split, full amortization, ...) is proved in
 * module AmortizationTheory.
 */
module LoanCalculator {
  import opened Wrappers

  /** One month of a repayment plan as the service produces it. */
  datatype Row = Row(month: nat, payment: real, principal: real, interest: real, remainingBalance: real)

  datatype RepaymentType = Annuity | Linear

  /** The single error the engine raises: 'Invalid loan parameters'. */
  datatype CalcError = InvalidLoanParameters

  /** The monthly rate as a fraction, from a yearly percentage. */
  function MonthlyRate(annualRate: real): (r: real)
    ensures r == 0.0 <==> annualRate == 0.0
    ensures r >= 0.0 <==> annualRate >= 0.0
  {
    annualRate / 100.0 / 12.0
  }

  /** `Math.pow(x, n)` for a whole exponent. */
  function Pow(x: real, n: nat): real
  {
    if n == 0 then 1.0 else x * Pow(x, n - 1)
  }

  /** A base of at least 1 gives a power of at least 1. */
  lemma {:induction false} PowAtLeastOne(x: real, n: nat)
    requires x >= 1.0
    ensures Pow(x, n) >= 1.0
  {
    if n > 0 {
      PowAtLeastOne(x, n - 1);
      ProductAtLeastOne(x, Pow(x, n - 1), Pow(x, n));
    }
  }

  /** A base above 1 and a positive exponent give a power above 1. */
  lemma {:induction false} PowAboveOne(x: real, n: nat)
    requires x > 1.0 && n > 0
    ensures Pow(x, n) > 1.0
  {
    PowAtLeastOne(x, n - 1);
    ProductAboveOne(x, Pow(x, n - 1), Pow(x, n));
  }

  lemma ProductAtLeastOne(a: real, b: real, c: real)
    requires a >= 1.0 && b >= 1.0 && c == a * b
    ensures c >= 1.0
  {
    assert c - b == (a - 1.0) * b;
  }

  lemma ProductAboveOne(a: real, b: real, c: real)
    requires a > 1.0 && b >= 1.0 && c == a * b
    ensures c > 1.0
  {
    assert c - b == (a - 1.0) * b;
  }

  /** `Math.max(0, x)`. */
  function MaxZero(x: real): (r: real)
    ensures r >= 0.0 && r >= x
    ensures r == x || r == 0.0
  {
    if 0.0 >= x then 0.0 else x
  }

  /**
   * The constant annuity payment M = P * r(1+r)^n / ((1+r)^n - 1), or the flat
   * share P/n when the rate is zero. Fails exactly on the parameters the
   * service rejects.
   */
  function CalculateMonthlyPayment(amount: real, period: nat, annualRate: real): (r: Result<real, CalcError>)
    ensures r.Failure? <==> amount <= 0.0 || period == 0 || annualRate < 0.0
    ensures r.Success? && annualRate == 0.0 ==> r.value == amount / period as real
    ensures r.Success? ==> r.value > amount * MonthlyRate(annualRate)
  {
    if amount <= 0.0 || period == 0 || annualRate < 0.0 then
      Failure(InvalidLoanParameters)
    else
      var monthlyRate := MonthlyRate(annualRate);
      if monthlyRate == 0.0 then
        Success(amount / period as real)
      else
        var factor := Pow(1.0 + monthlyRate, period);
        PowAboveOne(1.0 + monthlyRate, period);
        AnnuityPaymentExceedsInterest(amount, monthlyRate, factor);
        Success(AnnuityPayment(amount, monthlyRate, factor))
  }

  /** The annuity formula P r F / (F - 1), where F = (1 + r)^n. */
  function AnnuityPayment(amount: real, monthlyRate: real, factor: real): real
    requires factor > 1.0
  {
    amount * (monthlyRate * factor) / (factor - 1.0)
  }

  /** The annuity payment is more than one month's interest on the principal. */
  lemma AnnuityPaymentExceedsInterest(amount: real, monthlyRate: real, factor: real)
    requires amount > 0.0 && monthlyRate > 0.0 && factor > 1.0
    ensures AnnuityPayment(amount, monthlyRate, factor) > amount * monthlyRate
  {
    var interest := amount * monthlyRate;
    var payment := amount * (monthlyRate * factor) / (factor - 1.0);
    assert payment * (factor - 1.0) == interest * factor;
    assert (payment - interest) * (factor - 1.0) == interest > 0.0;
    PositiveFactor(payment - interest, factor - 1.0);
  }

  /** A product with one positive factor is positive only if the other one is. */
  lemma PositiveFactor(x: real, y: real)
    requires y > 0.0 && x * y > 0.0
    ensures x > 0.0
  {
  }

  /**
   * The payment of the first month of a linear plan. The service divides by the
   * period; a zero period gives a non-finite number there, `None` here.
   */
  function CalculateFirstLinearPayment(amount: real, period: nat, annualRate: real): (r: Option<real>)
    ensures r.None? <==> period == 0
    ensures r.Some? ==> |LinearSchedule(amount, period, annualRate)| > 0
                        && r.value == LinearSchedule(amount, period, annualRate)[0].payment
  {
    if period == 0 then None
    else
      var principalPayment := amount / period as real;
      var monthlyRate := MonthlyRate(annualRate);
      var firstInterest := amount * monthlyRate;
      FirstRowOfRows(FixedPrincipal(LinearPrincipal(amount, period)), monthlyRate, amount, 1, period);
      Some(principalPayment + firstInterest)
  }

  // ---------------------------------------------------------------------------
  // The month recurrence shared by every generator
  // ---------------------------------------------------------------------------

  /**
   * What stays constant through one phase of a plan: the whole payment
   * (annuity) or the principal part (linear).
   */
  datatype Rule = FixedPayment(payment: real) | FixedPrincipal(principal: real)

  function Interest(monthlyRate: real, balance: real): real {
    balance * monthlyRate
  }

  function PrincipalPart(rule: Rule, monthlyRate: real, balance: real): real {
    match rule
    case FixedPayment(payment) => payment - Interest(monthlyRate, balance)
    case FixedPrincipal(principal) => principal
  }

  function PaymentPart(rule: Rule, monthlyRate: real, balance: real): real {
    match rule
    case FixedPayment(payment) => payment
    case FixedPrincipal(principal) => principal + Interest(monthlyRate, balance)
  }

  /** The balance after one month, floored at zero as the service does. */
  function NextBalance(rule: Rule, monthlyRate: real, balance: real): real {
    MaxZero(balance - PrincipalPart(rule, monthlyRate, balance))
  }

  /** The balance after `k` months starting from `start`. */
  function BalanceAfter(rule: Rule, monthlyRate: real, start: real, k: nat): real {
    if k == 0 then start else NextBalance(rule, monthlyRate, BalanceAfter(rule, monthlyRate, start, k - 1))
  }

  /** The row the service pushes for one month whose opening balance is `balance`. */
  function MonthRow(rule: Rule, monthlyRate: real, month: nat, balance: real): Row {
    Row(month, PaymentPart(rule, monthlyRate, balance), PrincipalPart(rule, monthlyRate, balance),
        Interest(monthlyRate, balance), NextBalance(rule, monthlyRate, balance))
  }

  /** The `k` rows of one phase, numbered `first`, `first + 1`, ... */
  function Rows(rule: Rule, monthlyRate: real, start: real, first: nat, k: nat): seq<Row> {
    if k == 0 then []
    else Rows(rule, monthlyRate, start, first, k - 1)
         + [MonthRow(rule, monthlyRate, first + k - 1, BalanceAfter(rule, monthlyRate, start, k - 1))]
  }

  lemma {:induction false} RowsLength(rule: Rule, monthlyRate: real, start: real, first: nat, k: nat)
    ensures |Rows(rule, monthlyRate, start, first, k)| == k
  {
    if k > 0 {
      RowsLength(rule, monthlyRate, start, first, k - 1);
    }
  }

  lemma {:induction false} FirstRowOfRows(rule: Rule, monthlyRate: real, start: real, first: nat, k: nat)
    requires k > 0
    ensures |Rows(rule, monthlyRate, start, first, k)| == k
    ensures Rows(rule, monthlyRate, start, first, k)[0] == MonthRow(rule, monthlyRate, first, start)
  {
    if k > 1 {
      FirstRowOfRows(rule, monthlyRate, start, first, k - 1);
    }
  }

  /** `amount / period`, the linear principal share (the source's Infinity for a zero period is never used). */
  function LinearPrincipal(amount: real, period: nat): real {
    if period == 0 then 0.0 else amount / period as real
  }

  // ---------------------------------------------------------------------------
  // The schedules, as specification functions
  // ---------------------------------------------------------------------------

  function AnnuitySchedule(amount: real, period: nat, annualRate: real): (r: Result<seq<Row>, CalcError>)
    ensures r.Failure? <==> amount <= 0.0 || period == 0 || annualRate < 0.0
    ensures r.Success? ==> |r.value| == period
  {
    var monthlyPayment :- CalculateMonthlyPayment(amount, period, annualRate);
    RowsLength(FixedPayment(monthlyPayment), MonthlyRate(annualRate), amount, 1, period);
    Success(Rows(FixedPayment(monthlyPayment), MonthlyRate(annualRate), amount, 1, period))
  }

  function LinearSchedule(amount: real, period: nat, annualRate: real): (r: seq<Row>)
    ensures |r| == period
  {
    RowsLength(FixedPrincipal(LinearPrincipal(amount, period)), MonthlyRate(annualRate), amount, 1, period);
    Rows(FixedPrincipal(LinearPrincipal(amount, period)), MonthlyRate(annualRate), amount, 1, period)
  }

  function VariableAnnuitySchedule(amount: real, totalPeriod: nat, fixedRate: real, fixedMonths: nat,
                                   variableRate: real): Result<seq<Row>, CalcError>
  {
    var paymentFixed :- CalculateMonthlyPayment(amount, totalPeriod, fixedRate);
    var fixedRule := FixedPayment(paymentFixed);
    var firstPhase := Rows(fixedRule, MonthlyRate(fixedRate), amount, 1, fixedMonths);
    var balance := BalanceAfter(fixedRule, MonthlyRate(fixedRate), amount, fixedMonths);
    if totalPeriod > fixedMonths && balance > 0.01 then
      var newPayment :- CalculateMonthlyPayment(balance, totalPeriod - fixedMonths, variableRate);
      Success(firstPhase + Rows(FixedPayment(newPayment), MonthlyRate(variableRate), balance,
                                fixedMonths + 1, totalPeriod - fixedMonths))
    else
      Success(firstPhase)
  }

  /** The balance the linear second phase starts from: the last fixed-phase balance, or the amount. */
  function LastBalance(rows: seq<Row>, start: real): real {
    if |rows| > 0 then rows[|rows| - 1].remainingBalance else start
  }

  function VariableLinearSchedule(amount: real, totalPeriod: nat, fixedRate: real, fixedMonths: nat,
                                  variableRate: real): seq<Row>
  {
    var full := LinearSchedule(amount, totalPeriod, fixedRate);
    var firstPeriod := full[..if fixedMonths <= |full| then fixedMonths else |full|];
    var remainingBalance := LastBalance(firstPeriod, amount);
    if totalPeriod > fixedMonths && remainingBalance > 0.0 then
      firstPeriod + Rows(FixedPrincipal(amount / totalPeriod as real), MonthlyRate(variableRate),
                         remainingBalance, fixedMonths + 1, totalPeriod - fixedMonths)
    else
      firstPeriod
  }

  // ---------------------------------------------------------------------------
  // The month loops of the service
  // ---------------------------------------------------------------------------

  /**
   * The annuity month loop: pushes months `first`, ..., `first + count - 1`
   * paying `payment` each, starting from `start`, and returns the rows and the
   * balance left.
   */
  method AnnuityMonths(payment: real, monthlyRate: real, start: real, first: nat, count: nat)
    returns (schedule: seq<Row>, balance: real)
    ensures schedule == Rows(FixedPayment(payment), monthlyRate, start, first, count)
    ensures balance == BalanceAfter(FixedPayment(payment), monthlyRate, start, count)
  {
    ghost var rule := FixedPayment(payment);
    balance := start;
    schedule := [];
    var month: nat := first;
    while month < first + count
      invariant first <= month <= first + count
      invariant balance == BalanceAfter(rule, monthlyRate, start, month - first)
      invariant schedule == Rows(rule, monthlyRate, start, first, month - first)
    {
      ghost var opening := balance;
      var interest := balance * monthlyRate;
      var principal := payment - interest;
      balance := MaxZero(balance - principal);
      assert interest == Interest(monthlyRate, opening);
      assert principal == PrincipalPart(rule, monthlyRate, opening);
      assert balance == NextBalance(rule, monthlyRate, opening);
      schedule := schedule + [Row(month, payment, principal, interest, balance)];
      month := month + 1;
    }
  }

  /**
   * The linear month loop: pushes months `first`, ..., `first + count - 1`
   * repaying `principal` each, starting from `start`.
   */
  method LinearMonths(principal: real, monthlyRate: real, start: real, first: nat, count: nat)
    returns (schedule: seq<Row>, balance: real)
    ensures schedule == Rows(FixedPrincipal(principal), monthlyRate, start, first, count)
    ensures balance == BalanceAfter(FixedPrincipal(principal), monthlyRate, start, count)
  {
    ghost var rule := FixedPrincipal(principal);
    balance := start;
    schedule := [];
    var month: nat := first;
    while month < first + count
      invariant first <= month <= first + count
      invariant balance == BalanceAfter(rule, monthlyRate, start, month - first)
      invariant schedule == Rows(rule, monthlyRate, start, first, month - first)
    {
      ghost var opening := balance;
      var interest := balance * monthlyRate;
      var payment := principal + interest;
      balance := MaxZero(balance - principal);
      assert interest == Interest(monthlyRate, opening);
      assert payment == PaymentPart(rule, monthlyRate, opening);
      assert balance == NextBalance(rule, monthlyRate, opening);
      schedule := schedule + [Row(month, payment, principal, interest, balance)];
      month := month + 1;
    }
  }

  // ---------------------------------------------------------------------------
  // The generators
  // ---------------------------------------------------------------------------

  /** Picks the annuity or the linear generator; annuity when no type is given. */
  method GenerateAmortizationSchedule(amount: real, period: nat, annualRate: real,
                                      repaymentType: RepaymentType := Annuity)
    returns (r: Result<seq<Row>, CalcError>)
    ensures repaymentType == Annuity ==> r == AnnuitySchedule(amount, period, annualRate)
    ensures repaymentType == Linear ==> r == Success(LinearSchedule(amount, period, annualRate))
  {
    if repaymentType == Annuity {
      r := GenerateAnnuitySchedule(amount, period, annualRate);
    } else {
      var schedule := GenerateLinearSchedule(amount, period, annualRate);
      r := Success(schedule);
    }
  }

  /** Equal monthly payments. */
  method GenerateAnnuitySchedule(amount: real, period: nat, annualRate: real)
    returns (r: Result<seq<Row>, CalcError>)
    ensures r == AnnuitySchedule(amount, period, annualRate)
  {
    var paymentOrError := CalculateMonthlyPayment(amount, period, annualRate);
    if paymentOrError.Failure? {
      return Failure(paymentOrError.error);
    }
    var monthlyPayment := paymentOrError.value;
    var monthlyRate := MonthlyRate(annualRate);
    var schedule, _ := AnnuityMonths(monthlyPayment, monthlyRate, amount, 1, period);
    return Success(schedule);
  }

  /** Equal principal, decreasing total payment. */
  method GenerateLinearSchedule(amount: real, period: nat, annualRate: real) returns (schedule: seq<Row>)
    ensures schedule == LinearSchedule(amount, period, annualRate)
  {
    var principalPayment := LinearPrincipal(amount, period);
    var monthlyRate := MonthlyRate(annualRate);
    var balance;
    schedule, balance := LinearMonths(principalPayment, monthlyRate, amount, 1, period);
  }

  /**
   * The first `fixedMonths` payments at the fixed rate, then, if months and
   * more than 0.01 of balance remain, a new annuity at the variable rate over
   * the remaining balance and months.
   */
  method GenerateVariableAnnuitySchedule(amount: real, totalPeriod: nat, fixedRate: real, fixedMonths: nat,
                                         variableRate: real)
    returns (r: Result<seq<Row>, CalcError>)
    ensures r == VariableAnnuitySchedule(amount, totalPeriod, fixedRate, fixedMonths, variableRate)
  {
    var monthlyFixedRate := MonthlyRate(fixedRate);
    var monthlyVariableRate := MonthlyRate(variableRate);
    var fixedOrError := CalculateMonthlyPayment(amount, totalPeriod, fixedRate);
    if fixedOrError.Failure? {
      return Failure(fixedOrError.error);
    }
    var paymentFixed := fixedOrError.value;
    var schedule, balance := AnnuityMonths(paymentFixed, monthlyFixedRate, amount, 1, fixedMonths);

    if totalPeriod > fixedMonths && balance > 0.01 {
      var remainingMonths: nat := totalPeriod - fixedMonths;
      var newOrError := CalculateMonthlyPayment(balance, remainingMonths, variableRate);
      if newOrError.Failure? {
        return Failure(newOrError.error);
      }
      var newPayment := newOrError.value;
      var secondPhase, _ := AnnuityMonths(newPayment, monthlyVariableRate, balance, fixedMonths + 1, remainingMonths);
      schedule := schedule + secondPhase;
    }
    return Success(schedule);
  }

  /**
   * A linear plan whose principal share stays amount / totalPeriod throughout;
   * only the rate that prices the interest changes after `fixedMonths`.
   */
  method GenerateVariableLinearSchedule(amount: real, totalPeriod: nat, fixedRate: real, fixedMonths: nat,
                                        variableRate: real)
    returns (schedule: seq<Row>)
    ensures schedule == VariableLinearSchedule(amount, totalPeriod, fixedRate, fixedMonths, variableRate)
  {
    var full := GenerateLinearSchedule(amount, totalPeriod, fixedRate);
    var firstPeriod := full[..if fixedMonths <= |full| then fixedMonths else |full|];

    var remainingBalance := if |firstPeriod| > 0 then firstPeriod[|firstPeriod| - 1].remainingBalance else amount;

    var secondPeriod: seq<Row> := [];
    if totalPeriod > fixedMonths && remainingBalance > 0.0 {
      var secondPeriodMonths: nat := totalPeriod - fixedMonths;
      var principalPayment := amount / totalPeriod as real;
      var balance;
      secondPeriod, balance := LinearMonths(principalPayment, MonthlyRate(variableRate), remainingBalance,
                                            fixedMonths + 1, secondPeriodMonths);
    }
    schedule := firstPeriod + secondPeriod;
  }
}
