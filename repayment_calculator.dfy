/**
 * The repayment scenario screen: it keeps the inputs of either form, checks them, asks the calculator
 * service for one schedule (plain in 'simple' mode, fixed-then-variable in 'advanced' mode, annuity or
 * linear by the loan type) and shows that schedule with its first payment and its payment total.
 */
module RepaymentCalculator {
  import opened Wrappers
  import opened LoanCalculator
  import opened LoanModels
  import opened LoanDataService
  import AmortizationTheory

  datatype ScenarioMode = Simple | Advanced

  /** How a handler ended: normally, or with the service's exception escaping it (there is no catch). */
  datatype Outcome = Completed | Threw(error: CalcError)

  /**
   * `isValid`: in 'simple' mode a positive amount and period and a non-negative rate; in 'advanced' mode
   * also a fixed period within the total and a non-negative variable rate.  Null fails every test.
   */
  predicate IsValid(mode: ScenarioMode, inputs: AdvancedInput) {
    && inputs.amount.Some? && inputs.amount.value > 0.0
    && inputs.totalPeriod.Some? && inputs.totalPeriod.value > 0.0
    && inputs.fixedRate.Some? && inputs.fixedRate.value >= 0.0
    && (mode == Advanced ==>
          && inputs.fixedMonths.Some? && inputs.fixedMonths.value > 0.0
          && inputs.fixedMonths.value <= inputs.totalPeriod.value
          && inputs.variableRate.Some? && inputs.variableRate.value >= 0.0)
  }

  /**
   * The schedule `recalculateScenario` obtains: none for invalid inputs, otherwise the service's answer for
   * the mode and the loan type.
   */
  function Scenario(mode: ScenarioMode, loanType: RepaymentType, inputs: AdvancedInput,
                    service: CalculatorService): Result<seq<ScheduleRow>, CalcError>
  {
    if !IsValid(mode, inputs) then
      Success([])
    else if mode == Simple then
      service.amortization(inputs.amount.value, inputs.totalPeriod.value, inputs.fixedRate.value,
                           inputs.insuranceRate, loanType)
    else if loanType == Annuity then
      service.variableAnnuity(inputs.amount.value, inputs.totalPeriod.value, inputs.fixedRate.value,
                              inputs.fixedMonths.value, inputs.variableRate.value, inputs.insuranceRate)
    else
      service.variableLinear(inputs.amount.value, inputs.totalPeriod.value, inputs.fixedRate.value,
                             inputs.fixedMonths.value, inputs.variableRate.value, inputs.insuranceRate)
  }

  /** The first payment shown for a schedule; 0 when it is empty. */
  function FirstPaymentOrZero(rows: seq<ScheduleRow>): real {
    if rows == [] then 0.0 else rows[0].payment
  }

  /** Inputs valid in 'advanced' mode are valid in 'simple' mode, and validity never looks at insurance. */
  lemma AdvancedValidityIsStricter(inputs: AdvancedInput, insuranceRate: Option<real>)
    ensures IsValid(Advanced, inputs) ==> IsValid(Simple, inputs)
    ensures IsValid(Simple, inputs) == IsValid(Simple, inputs.(insuranceRate := insuranceRate))
    ensures IsValid(Advanced, inputs) == IsValid(Advanced, inputs.(insuranceRate := insuranceRate))
  {
  }

  /**
   * Valid inputs with whole-month periods never reach the engine's 'Invalid loan parameters' guard: in
   * 'simple' mode the payment is solvable, in 'advanced' mode the fixed-then-variable annuity is.
   */
  lemma ValidScenarioPassesEngineGuard(mode: ScenarioMode, inputs: AdvancedInput, totalPeriod: nat,
                                       fixedMonths: nat)
    requires IsValid(mode, inputs)
    requires inputs.totalPeriod.value == totalPeriod as real
    requires mode == Advanced ==> inputs.fixedMonths.value == fixedMonths as real
    ensures CalculateMonthlyPayment(inputs.amount.value, totalPeriod, inputs.fixedRate.value).Success?
    ensures mode == Advanced ==>
      VariableAnnuitySchedule(inputs.amount.value, totalPeriod, inputs.fixedRate.value, fixedMonths,
                              inputs.variableRate.value).Success?
  {
    var variableRate := if mode == Advanced then inputs.variableRate.value else 0.0;
    AmortizationTheory.ValidInputsNeverFail(inputs.amount.value, totalPeriod, inputs.fixedRate.value,
                                            fixedMonths, variableRate);
  }

  class RepaymentCalculatorComponent {
    var mode: ScenarioMode
    var loanType: RepaymentType
    var amount: Option<real>
    var totalPeriod: Option<real>
    var fixedMonths: Option<real>
    var fixedRate: Option<real>
    var insuranceRate: Option<real>
    var variableRate: Option<real>
    var scenarioSchedule: seq<ScheduleRow>
    var scenarioTotal: real
    var scenarioFirstPayment: real
    const store: LoanDataStore
    const service: CalculatorService

    function Inputs(): AdvancedInput
      reads this
    {
      AdvancedInput(amount, totalPeriod, fixedMonths, fixedRate, variableRate, insuranceRate)
    }

    /** The scenario fields describe `rows`: the rows, their first payment (or 0) and their payment total. */
    predicate Shows(rows: seq<ScheduleRow>)
      reads this
    {
      scenarioSchedule == rows && scenarioFirstPayment == FirstPaymentOrZero(rows) && scenarioTotal == SumPayments(rows)
    }

    /**
     * The scenario fields after an attempt to show `result`: its rows when it succeeded; when the service
     * threw, the fields as they were, with the error escaping.
     */
    predicate Applied(result: Result<seq<ScheduleRow>, CalcError>, outcome: Outcome,
                      schedule0: seq<ScheduleRow>, total0: real, first0: real)
      reads this
    {
      if result.Success? then
        outcome == Completed && Shows(result.value)
      else
        outcome == Threw(result.error)
        && scenarioSchedule == schedule0 && scenarioTotal == total0 && scenarioFirstPayment == first0
    }

    constructor(store: LoanDataStore, service: CalculatorService)
      ensures this.store == store && this.service == service
      ensures mode == Simple && loanType == Annuity
      ensures Inputs() == AdvancedInput(None, None, None, None, None, None)
      ensures Shows([])
    {
      this.store := store;
      this.service := service;
      mode := Simple;
      loanType := Annuity;
      amount, totalPeriod, fixedMonths, fixedRate, insuranceRate, variableRate := None, None, None, None, None, None;
      scenarioSchedule, scenarioTotal, scenarioFirstPayment := [], 0.0, 0.0;
    }

    /** `ngOnInit`: pre-fill the inputs from the store; a null stored insurance rate keeps the current one. */
    method NgOnInit()
      modifies this
      ensures var data := store.current;
        && amount == data.amount && totalPeriod == data.period && fixedRate == data.rate
        && variableRate == data.variableRate && fixedMonths == data.fixedPeriod
        && insuranceRate == (if data.insuranceRate.Some? then data.insuranceRate else old(insuranceRate))
      ensures mode == old(mode) && loanType == old(loanType)
      ensures scenarioSchedule == old(scenarioSchedule) && scenarioTotal == old(scenarioTotal)
      ensures scenarioFirstPayment == old(scenarioFirstPayment)
    {
      var data := store.current;
      amount := data.amount;
      totalPeriod := data.period;
      fixedRate := data.rate;
      variableRate := data.variableRate;
      fixedMonths := data.fixedPeriod;
      if data.insuranceRate.Some? {
        insuranceRate := data.insuranceRate;
      }
    }

    /** `onSimpleInputChanged`: take the four simple inputs, store them, recalculate. */
    method OnSimpleInputChanged(data: SimpleInput) returns (outcome: Outcome)
      modifies this, store
      ensures amount == data.amount && totalPeriod == data.period && fixedRate == data.rate
      ensures insuranceRate == data.insuranceRate
      ensures fixedMonths == old(fixedMonths) && variableRate == old(variableRate)
      ensures mode == old(mode) && loanType == old(loanType)
      ensures store.current == Merge(old(store.current), SimplePatch(data))
      ensures Applied(Scenario(mode, loanType, Inputs(), service), outcome,
                      old(scenarioSchedule), old(scenarioTotal), old(scenarioFirstPayment))
    {
      amount := data.amount;
      totalPeriod := data.period;
      fixedRate := data.rate;
      insuranceRate := data.insuranceRate;
      store.UpdateLoanData(SimplePatch(data));
      outcome := RecalculateScenario();
    }

    /** `onAdvancedInputChanged`: take all six inputs, store them under the shared names, recalculate. */
    method OnAdvancedInputChanged(data: AdvancedInput) returns (outcome: Outcome)
      modifies this, store
      ensures Inputs() == data
      ensures mode == old(mode) && loanType == old(loanType)
      ensures store.current == Merge(old(store.current), AdvancedPatch(data))
      ensures Applied(Scenario(mode, loanType, data, service), outcome,
                      old(scenarioSchedule), old(scenarioTotal), old(scenarioFirstPayment))
    {
      amount := data.amount;
      fixedMonths := data.fixedMonths;
      fixedRate := data.fixedRate;
      variableRate := data.variableRate;
      totalPeriod := data.totalPeriod;
      insuranceRate := data.insuranceRate;
      store.UpdateLoanData(AdvancedPatch(data));
      outcome := RecalculateScenario();
    }

    /** `onModeChanged`: switch between 'simple' and 'advanced', recalculate. */
    method OnModeChanged(newMode: ScenarioMode) returns (outcome: Outcome)
      modifies this
      ensures mode == newMode && loanType == old(loanType) && Inputs() == old(Inputs())
      ensures Applied(Scenario(newMode, loanType, Inputs(), service), outcome,
                      old(scenarioSchedule), old(scenarioTotal), old(scenarioFirstPayment))
    {
      mode := newMode;
      outcome := RecalculateScenario();
    }

    /** `onLoanTypeChanged`: switch between annuity and linear, recalculate. */
    method OnLoanTypeChanged(newType: RepaymentType) returns (outcome: Outcome)
      modifies this
      ensures loanType == newType && mode == old(mode) && Inputs() == old(Inputs())
      ensures Applied(Scenario(mode, newType, Inputs(), service), outcome,
                      old(scenarioSchedule), old(scenarioTotal), old(scenarioFirstPayment))
    {
      loanType := newType;
      outcome := RecalculateScenario();
    }

    /** `recalculateScenario`: clear on invalid inputs, otherwise dispatch on the mode. */
    method RecalculateScenario() returns (outcome: Outcome)
      modifies this
      ensures mode == old(mode) && loanType == old(loanType) && Inputs() == old(Inputs())
      ensures Applied(Scenario(mode, loanType, Inputs(), service), outcome,
                      old(scenarioSchedule), old(scenarioTotal), old(scenarioFirstPayment))
    {
      var valid := IsValidNow();
      if !valid {
        ClearScenario();
        return Completed;
      }
      if mode == Simple {
        outcome := CalculateSimpleScenario();
      } else {
        outcome := CalculateAdvancedScenario();
      }
    }

    /** `calculateSimpleScenario`: the plain schedule of the loan type. */
    method CalculateSimpleScenario() returns (outcome: Outcome)
      requires amount.Some? && totalPeriod.Some? && fixedRate.Some?
      modifies this
      ensures mode == old(mode) && loanType == old(loanType) && Inputs() == old(Inputs())
      ensures Applied(service.amortization(amount.value, totalPeriod.value, fixedRate.value, insuranceRate, loanType),
                      outcome, old(scenarioSchedule), old(scenarioTotal), old(scenarioFirstPayment))
    {
      var schedule := service.amortization(amount.value, totalPeriod.value, fixedRate.value, insuranceRate, loanType);
      if schedule.Failure? {
        return Threw(schedule.error);
      }
      SetScenarioFromSchedule(schedule.value);
      outcome := Completed;
    }

    /** `calculateAdvancedScenario`: the fixed-then-variable schedule of the loan type. */
    method CalculateAdvancedScenario() returns (outcome: Outcome)
      requires amount.Some? && totalPeriod.Some? && fixedRate.Some? && fixedMonths.Some? && variableRate.Some?
      modifies this
      ensures mode == old(mode) && loanType == old(loanType) && Inputs() == old(Inputs())
      ensures Applied(if loanType == Annuity
                      then service.variableAnnuity(amount.value, totalPeriod.value, fixedRate.value,
                                                   fixedMonths.value, variableRate.value, insuranceRate)
                      else service.variableLinear(amount.value, totalPeriod.value, fixedRate.value,
                                                  fixedMonths.value, variableRate.value, insuranceRate),
                      outcome, old(scenarioSchedule), old(scenarioTotal), old(scenarioFirstPayment))
    {
      var schedule;
      if loanType == Annuity {
        schedule := service.variableAnnuity(amount.value, totalPeriod.value, fixedRate.value, fixedMonths.value,
                                            variableRate.value, insuranceRate);
      } else {
        schedule := service.variableLinear(amount.value, totalPeriod.value, fixedRate.value, fixedMonths.value,
                                           variableRate.value, insuranceRate);
      }
      if schedule.Failure? {
        return Threw(schedule.error);
      }
      SetScenarioFromSchedule(schedule.value);
      outcome := Completed;
    }

    /** `setScenarioFromSchedule`: show the rows, their first payment and their payment total (0 and 0 when empty). */
    method SetScenarioFromSchedule(schedule: seq<ScheduleRow>)
      modifies this
      ensures Shows(schedule)
      ensures mode == old(mode) && loanType == old(loanType) && Inputs() == old(Inputs())
    {
      scenarioSchedule := schedule;
      if |schedule| == 0 {
        scenarioTotal := 0.0;
        scenarioFirstPayment := 0.0;
        return;
      }
      scenarioFirstPayment := schedule[0].payment;
      scenarioTotal := SumPayments(schedule);
    }

    /** `clearScenario`: no rows, total 0, first payment 0. */
    method ClearScenario()
      modifies this
      ensures Shows([])
      ensures mode == old(mode) && loanType == old(loanType) && Inputs() == old(Inputs())
    {
      scenarioSchedule := [];
      scenarioTotal := 0.0;
      scenarioFirstPayment := 0.0;
    }

    /** `isValid` on the current mode and inputs. */
    method IsValidNow() returns (valid: bool)
      ensures valid == IsValid(mode, Inputs())
    {
      valid := amount.Some? && amount.value > 0.0 && totalPeriod.Some? && totalPeriod.value > 0.0
        && fixedRate.Some? && fixedRate.value >= 0.0;
      if mode == Advanced {
        valid := valid && fixedMonths.Some? && fixedMonths.value > 0.0 && fixedMonths.value <= totalPeriod.value
          && variableRate.Some? && variableRate.value >= 0.0;
      }
    }
  }
}
