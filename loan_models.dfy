/**
 * The shared shapes of the loan simulator's screens: the schedule row the calculator service hands to the
 * components, the six-field loan state, the schedule-mode switch, and the folds the components run over a
 * schedule to display totals.
 */
module LoanModels {
  import opened Wrappers
  import opened LoanCalculator

  /** One month of a displayed schedule; `insurance` is `number | null`. */
  datatype ScheduleRow = ScheduleRow(month: nat, payment: real, principal: real, interest: real,
                                     insurance: Option<real>, remainingBalance: real)

  /** The loan parameters shared between the screens; every field may be null. */
  datatype LoanData = LoanData(amount: Option<real>, period: Option<real>, rate: Option<real>,
                               fixedPeriod: Option<real>, variableRate: Option<real>,
                               insuranceRate: Option<real>)

  /** What the simple input form emits on every change. */
  datatype SimpleInput = SimpleInput(amount: Option<real>, period: Option<real>, rate: Option<real>,
                                     insuranceRate: Option<real>)

  /** What the fixed-then-variable input form emits on every change. */
  datatype AdvancedInput = AdvancedInput(amount: Option<real>, totalPeriod: Option<real>,
                                         fixedMonths: Option<real>, fixedRate: Option<real>,
                                         variableRate: Option<real>, insuranceRate: Option<real>)

  /** Which schedules a screen shows: 'annuity', 'linear' or 'both'. */
  datatype ScheduleMode = AnnuityOnly | LinearOnly | Both

  predicate ShowsAnnuity(mode: ScheduleMode) {
    mode == AnnuityOnly || mode == Both
  }

  predicate ShowsLinear(mode: ScheduleMode) {
    mode == LinearOnly || mode == Both
  }

  /** The two visibility flags a mode sets always show something, and they tell the mode apart. */
  lemma ModeFlagsDetermineMode(m1: ScheduleMode, m2: ScheduleMode)
    ensures ShowsAnnuity(m1) || ShowsLinear(m1)
    ensures ShowsAnnuity(m1) == ShowsAnnuity(m2) && ShowsLinear(m1) == ShowsLinear(m2) ==> m1 == m2
  {
  }

  /**
   * The schedule generators as the components call them: amount, period and rate(s) as plain numbers plus
   * the nullable insurance rate, with 'Invalid loan parameters' as a failure.  The generators themselves are
   * modelled in the LoanCalculator module; here they are parameters of the components.
   */
  datatype CalculatorService = CalculatorService(
    amortization: (real, real, real, Option<real>, RepaymentType) -> Result<seq<ScheduleRow>, CalcError>,
    variableAnnuity: (real, real, real, real, real, Option<real>) -> Result<seq<ScheduleRow>, CalcError>,
    variableLinear: (real, real, real, real, real, Option<real>) -> Result<seq<ScheduleRow>, CalcError>)

  /** `Number(val)` guarded by the empty-string test the input handlers run first; `toNumber` gives None for NaN. */
  function ParseNumber(val: string, toNumber: string -> Option<real>): Option<real> {
    if val == "" then None else toNumber(val)
  }

  /** The left fold `reduce((sum, row) => sum + row.payment, 0)`. */
  function SumPayments(rows: seq<ScheduleRow>): real {
    if rows == [] then 0.0 else SumPayments(rows[..|rows| - 1]) + rows[|rows| - 1].payment
  }

  /** The left fold `reduce((sum, row) => sum + row.interest, 0)`. */
  function SumInterest(rows: seq<ScheduleRow>): real {
    if rows == [] then 0.0 else SumInterest(rows[..|rows| - 1]) + rows[|rows| - 1].interest
  }

  function SumPrincipal(rows: seq<ScheduleRow>): real {
    if rows == [] then 0.0 else SumPrincipal(rows[..|rows| - 1]) + rows[|rows| - 1].principal
  }

  /** `sum + row.insurance!` adds nothing for a null insurance, since null converts to 0. */
  function InsuranceOrZero(row: ScheduleRow): real {
    if row.insurance.Some? then row.insurance.value else 0.0
  }

  /** The left fold `reduce((sum, row) => sum + row.insurance!, 0)`. */
  function SumInsurance(rows: seq<ScheduleRow>): real {
    if rows == [] then 0.0 else SumInsurance(rows[..|rows| - 1]) + InsuranceOrZero(rows[|rows| - 1])
  }

  /** `schedule[0]?.payment ?? null`. */
  function FirstPaymentOrNull(rows: seq<ScheduleRow>): (r: Option<real>)
    ensures r.None? <==> rows == []
    ensures r.Some? ==> r.value == rows[0].payment
  {
    if rows == [] then None else Some(rows[0].payment)
  }

  /** The payment total of a schedule is the total of any split of it into two parts. */
  lemma {:induction false} SumPaymentsAppend(first: seq<ScheduleRow>, second: seq<ScheduleRow>)
    ensures SumPayments(first + second) == SumPayments(first) + SumPayments(second)
  {
    if second == [] {
      assert first + second == first;
    } else {
      assert (first + second)[..|first + second| - 1] == first + second[..|second| - 1];
      SumPaymentsAppend(first, second[..|second| - 1]);
    }
  }

  /** When every row's payment is its principal plus its interest, so are the totals. */
  lemma {:induction false} SumPaymentsSplit(rows: seq<ScheduleRow>)
    requires forall i :: 0 <= i < |rows| ==> rows[i].payment == rows[i].principal + rows[i].interest
    ensures SumPayments(rows) == SumPrincipal(rows) + SumInterest(rows)
  {
    if rows != [] {
      SumPaymentsSplit(rows[..|rows| - 1]);
    }
  }

  /** A schedule without insurance amounts adds up to zero insurance. */
  lemma {:induction false} SumInsuranceWithoutInsurance(rows: seq<ScheduleRow>)
    requires forall i :: 0 <= i < |rows| ==> rows[i].insurance.None?
    ensures SumInsurance(rows) == 0.0
  {
    if rows != [] {
      SumInsuranceWithoutInsurance(rows[..|rows| - 1]);
    }
  }

  /** A schedule of `n` equal payments adds up to `n` times that payment. */
  lemma {:induction false} SumPaymentsConstant(rows: seq<ScheduleRow>, payment: real)
    requires forall i :: 0 <= i < |rows| ==> rows[i].payment == payment
    ensures SumPayments(rows) == |rows| as real * payment
  {
    if rows != [] {
      SumPaymentsConstant(rows[..|rows| - 1], payment);
    }
  }
}
