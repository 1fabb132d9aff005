/**
 * The fixed-then-variable calculator screen: it asks the calculator service for the annuity and/or the
 * linear fixed-then-variable schedule, as the schedule mode selects, and shows each with its first payment
 * and its payment, interest and insurance totals.  Invalid inputs, or an error from either generator, reset
 * every result.
 */
module AdvancedCalculator {
  import opened Wrappers
  import opened LoanCalculator
  import opened LoanModels
  import opened LoanDataService
  import AmortizationTheory
  import RepaymentCalculator

  /** `isValid`: positive amount and total period, a fixed period within the total, non-negative rates, none null. */
  predicate IsValid(inputs: AdvancedInput) {
    && inputs.amount.Some? && inputs.amount.value > 0.0
    && inputs.totalPeriod.Some? && inputs.totalPeriod.value > 0.0
    && inputs.fixedMonths.Some? && inputs.fixedMonths.value > 0.0
    && inputs.fixedMonths.value <= inputs.totalPeriod.value
    && inputs.fixedRate.Some? && inputs.fixedRate.value >= 0.0
    && inputs.variableRate.Some? && inputs.variableRate.value >= 0.0
  }

  /**
   * This screen's `isValid` accepts exactly what the repayment calculator's `isValid` accepts in its
   * 'advanced' mode: the two screens agree on which fixed-then-variable inputs they compute.
   */
  lemma ValidityMatchesScenarioAdvanced(inputs: AdvancedInput)
    ensures IsValid(inputs) <==> RepaymentCalculator.IsValid(RepaymentCalculator.Advanced, inputs)
  {
  }

  /** The fixed-then-variable annuity schedule of valid inputs. */
  function AnnuityOf(inputs: AdvancedInput, service: CalculatorService): Result<seq<ScheduleRow>, CalcError>
    requires IsValid(inputs)
  {
    service.variableAnnuity(inputs.amount.value, inputs.totalPeriod.value, inputs.fixedRate.value,
                            inputs.fixedMonths.value, inputs.variableRate.value, inputs.insuranceRate)
  }

  /** The fixed-then-variable linear schedule of valid inputs. */
  function LinearOf(inputs: AdvancedInput, service: CalculatorService): Result<seq<ScheduleRow>, CalcError>
    requires IsValid(inputs)
  {
    service.variableLinear(inputs.amount.value, inputs.totalPeriod.value, inputs.fixedRate.value,
                           inputs.fixedMonths.value, inputs.variableRate.value, inputs.insuranceRate)
  }

  /**
   * Whether `recalculateSchedules` ends in `resetResults`: on invalid inputs, or when a selected generator
   * throws and the catch resets.
   */
  predicate EndsInReset(inputs: AdvancedInput, mode: ScheduleMode, service: CalculatorService) {
    !IsValid(inputs)
    || (ShowsAnnuity(mode) && AnnuityOf(inputs, service).Failure?)
    || (ShowsLinear(mode) && LinearOf(inputs, service).Failure?)
  }

  /**
   * Valid inputs with whole-month periods never make the engine's fixed-then-variable annuity throw, so with
   * the engine as the service the catch-and-reset branch is unreachable for the annuity side (the linear
   * generator has no guard).
   */
  lemma ValidInputsPassEngineGuard(inputs: AdvancedInput, totalPeriod: nat, fixedMonths: nat)
    requires IsValid(inputs)
    requires inputs.totalPeriod.value == totalPeriod as real && inputs.fixedMonths.value == fixedMonths as real
    ensures 0 < fixedMonths <= totalPeriod
    ensures VariableAnnuitySchedule(inputs.amount.value, totalPeriod, inputs.fixedRate.value, fixedMonths,
                                    inputs.variableRate.value).Success?
  {
    AmortizationTheory.ValidInputsNeverFail(inputs.amount.value, totalPeriod, inputs.fixedRate.value,
                                            fixedMonths, inputs.variableRate.value);
  }

  class AdvancedCalculatorComponent {
    var annuitySchedule: seq<ScheduleRow>
    var linearSchedule: seq<ScheduleRow>
    var annuityPayment: Option<real>
    var annuityTotal: Option<real>
    var linearPayment: Option<real>
    var linearTotal: Option<real>
    var amount: Option<real>
    var totalPeriod: Option<real>
    var fixedRate: Option<real>
    var variableRate: Option<real>
    var fixedMonths: Option<real>
    var insuranceRate: Option<real>
    var showAnnuity: bool
    var showLinear: bool
    var annuityInsuranceTotal: real
    var annuityInterestTotal: real
    var linearInsuranceTotal: real
    var linearInterestTotal: real
    var scheduleMode: ScheduleMode
    const store: LoanDataStore
    const service: CalculatorService

    function Inputs(): AdvancedInput
      reads this
    {
      AdvancedInput(amount, totalPeriod, fixedMonths, fixedRate, variableRate, insuranceRate)
    }

    /** The state `resetResults` leaves: no schedules, null payments and totals, zero interest and insurance. */
    predicate IsReset()
      reads this
    {
      && annuitySchedule == [] && linearSchedule == []
      && annuityPayment == None && linearPayment == None && annuityTotal == None && linearTotal == None
      && annuityInsuranceTotal == 0.0 && annuityInterestTotal == 0.0
      && linearInsuranceTotal == 0.0 && linearInterestTotal == 0.0
    }

    /**
     * The annuity results show `rows`: the rows, their first payment (null when empty), payment and interest
     * totals, and the insurance total when an insurance rate is set (otherwise `insurance0`, the old one).
     */
    predicate ShowsAnnuityRows(rows: seq<ScheduleRow>, insurance0: real)
      reads this
    {
      && annuitySchedule == rows && annuityPayment == FirstPaymentOrNull(rows)
      && annuityTotal == Some(SumPayments(rows)) && annuityInterestTotal == SumInterest(rows)
      && annuityInsuranceTotal == (if insuranceRate.Some? then SumInsurance(rows) else insurance0)
    }

    predicate ShowsLinearRows(rows: seq<ScheduleRow>, insurance0: real)
      reads this
    {
      && linearSchedule == rows && linearPayment == FirstPaymentOrNull(rows)
      && linearTotal == Some(SumPayments(rows)) && linearInterestTotal == SumInterest(rows)
      && linearInsuranceTotal == (if insuranceRate.Some? then SumInsurance(rows) else insurance0)
    }

    /** An unselected side: no rows, null payment and total; its interest and insurance totals are kept. */
    predicate HidesAnnuity(interest0: real, insurance0: real)
      reads this
    {
      annuitySchedule == [] && annuityPayment == None && annuityTotal == None
      && annuityInterestTotal == interest0 && annuityInsuranceTotal == insurance0
    }

    predicate HidesLinear(interest0: real, insurance0: real)
      reads this
    {
      linearSchedule == [] && linearPayment == None && linearTotal == None
      && linearInterestTotal == interest0 && linearInsuranceTotal == insurance0
    }

    /** The inputs, the mode flags and the collaborators, which recalculation never changes. */
    predicate SameSettings(inputs: AdvancedInput, mode: ScheduleMode, annuityShown: bool, linearShown: bool)
      reads this
    {
      Inputs() == inputs && scheduleMode == mode && showAnnuity == annuityShown && showLinear == linearShown
    }

    /**
     * Everything `recalculateSchedules` promises, given the results before the call: either the reset state,
     * or each selected side showing its schedule and each other side hidden.
     */
    predicate Recalculated(annuityInterest0: real, annuityInsurance0: real,
                           linearInterest0: real, linearInsurance0: real)
      reads this
    {
      if EndsInReset(Inputs(), scheduleMode, service) then
        IsReset()
      else
        && (if ShowsAnnuity(scheduleMode) then ShowsAnnuityRows(AnnuityOf(Inputs(), service).value, annuityInsurance0)
            else HidesAnnuity(annuityInterest0, annuityInsurance0))
        && (if ShowsLinear(scheduleMode) then ShowsLinearRows(LinearOf(Inputs(), service).value, linearInsurance0)
            else HidesLinear(linearInterest0, linearInsurance0))
    }

    constructor(store: LoanDataStore, service: CalculatorService)
      ensures this.store == store && this.service == service
      ensures Inputs() == AdvancedInput(None, None, None, None, None, None)
      ensures scheduleMode == Both && showAnnuity && showLinear
      ensures IsReset()
    {
      this.store := store;
      this.service := service;
      annuitySchedule, linearSchedule := [], [];
      annuityPayment, annuityTotal, linearPayment, linearTotal := None, None, None, None;
      amount, totalPeriod, fixedRate, variableRate, fixedMonths, insuranceRate := None, None, None, None, None, None;
      showAnnuity, showLinear := true, true;
      annuityInsuranceTotal, annuityInterestTotal, linearInsuranceTotal, linearInterestTotal := 0.0, 0.0, 0.0, 0.0;
      scheduleMode := Both;
    }

    /** `ngOnInit`: pre-fill the inputs from the store (a null insurance rate keeps the current one), recalculate. */
    method NgOnInit()
      modifies this
      ensures var data := store.current;
        && amount == data.amount && totalPeriod == data.period && fixedRate == data.rate
        && variableRate == data.variableRate && fixedMonths == data.fixedPeriod
        && insuranceRate == (if data.insuranceRate.Some? then data.insuranceRate else old(insuranceRate))
      ensures scheduleMode == old(scheduleMode) && showAnnuity == old(showAnnuity) && showLinear == old(showLinear)
      ensures Recalculated(old(annuityInterestTotal), old(annuityInsuranceTotal),
                           old(linearInterestTotal), old(linearInsuranceTotal))
    {
      var data := store.current;
      amount := data.amount;
      totalPeriod := data.period;
      fixedRate := data.rate;
      variableRate := data.variableRate;
      fixedMonths := data.fixedPeriod;
      if data.insuranceRate.Some? {
        insuranceRate := data.insuranceRate;
      }
      RecalculateSchedules();
    }

    /** `onInputChanged`: take all six inputs, store them under the shared names, recalculate. */
    method OnInputChanged(data: AdvancedInput)
      modifies this, store
      ensures Inputs() == data
      ensures scheduleMode == old(scheduleMode) && showAnnuity == old(showAnnuity) && showLinear == old(showLinear)
      ensures store.current == Merge(old(store.current), AdvancedPatch(data))
      ensures Recalculated(old(annuityInterestTotal), old(annuityInsuranceTotal),
                           old(linearInterestTotal), old(linearInsuranceTotal))
    {
      amount := data.amount;
      fixedMonths := data.fixedMonths;
      fixedRate := data.fixedRate;
      variableRate := data.variableRate;
      totalPeriod := data.totalPeriod;
      insuranceRate := data.insuranceRate;
      store.UpdateLoanData(AdvancedPatch(data));
      RecalculateSchedules();
    }

    /** `onVisibilityChanged`: copy the two flags; nothing is recalculated. */
    method OnVisibilityChanged(annuityShown: bool, linearShown: bool)
      modifies this
      ensures showAnnuity == annuityShown && showLinear == linearShown
      ensures Inputs() == old(Inputs()) && scheduleMode == old(scheduleMode)
      ensures annuitySchedule == old(annuitySchedule) && linearSchedule == old(linearSchedule)
      ensures annuityPayment == old(annuityPayment) && annuityTotal == old(annuityTotal)
      ensures linearPayment == old(linearPayment) && linearTotal == old(linearTotal)
      ensures annuityInterestTotal == old(annuityInterestTotal) && annuityInsuranceTotal == old(annuityInsuranceTotal)
      ensures linearInterestTotal == old(linearInterestTotal) && linearInsuranceTotal == old(linearInsuranceTotal)
    {
      showAnnuity := annuityShown;
      showLinear := linearShown;
    }

    /** `onScheduleModeChanged`: record the mode, derive the flags from it, recalculate. */
    method OnScheduleModeChanged(mode: ScheduleMode)
      modifies this
      ensures scheduleMode == mode && showAnnuity == ShowsAnnuity(mode) && showLinear == ShowsLinear(mode)
      ensures Inputs() == old(Inputs())
      ensures Recalculated(old(annuityInterestTotal), old(annuityInsuranceTotal),
                           old(linearInterestTotal), old(linearInsuranceTotal))
    {
      scheduleMode := mode;
      showAnnuity := mode == AnnuityOnly || mode == Both;
      showLinear := mode == LinearOnly || mode == Both;
      RecalculateSchedules();
    }

    /** `isValid` on the current inputs: every one present, both periods positive, rates non-negative. */
    method IsValidNow() returns (valid: bool)
      ensures valid == IsValid(Inputs())
    {
      valid := amount.Some? && amount.value > 0.0 && totalPeriod.Some? && totalPeriod.value > 0.0
        && fixedMonths.Some? && fixedMonths.value > 0.0 && fixedMonths.value <= totalPeriod.value
        && fixedRate.Some? && fixedRate.value >= 0.0 && variableRate.Some? && variableRate.value >= 0.0;
    }

    /** `resetResults`. */
    method ResetResults()
      modifies this
      ensures IsReset()
      ensures SameSettings(old(Inputs()), old(scheduleMode), old(showAnnuity), old(showLinear))
    {
      ResetAnnuity();
      ResetLinear();
    }

    /** The annuity half of `resetResults`; the linear side is left alone. */
    method ResetAnnuity()
      modifies this
      ensures annuitySchedule == [] && annuityPayment == None && annuityTotal == None
      ensures annuityInsuranceTotal == 0.0 && annuityInterestTotal == 0.0
      ensures SameSettings(old(Inputs()), old(scheduleMode), old(showAnnuity), old(showLinear))
      ensures linearSchedule == old(linearSchedule) && linearPayment == old(linearPayment)
      ensures linearTotal == old(linearTotal) && linearInterestTotal == old(linearInterestTotal)
      ensures linearInsuranceTotal == old(linearInsuranceTotal)
    {
      annuityPayment, annuityTotal, annuitySchedule := None, None, [];
      annuityInsuranceTotal, annuityInterestTotal := 0.0, 0.0;
    }

    /** The linear half of `resetResults`; the annuity side is left alone. */
    method ResetLinear()
      modifies this
      ensures linearSchedule == [] && linearPayment == None && linearTotal == None
      ensures linearInsuranceTotal == 0.0 && linearInterestTotal == 0.0
      ensures SameSettings(old(Inputs()), old(scheduleMode), old(showAnnuity), old(showLinear))
      ensures annuitySchedule == old(annuitySchedule) && annuityPayment == old(annuityPayment)
      ensures annuityTotal == old(annuityTotal) && annuityInterestTotal == old(annuityInterestTotal)
      ensures annuityInsuranceTotal == old(annuityInsuranceTotal)
    {
      linearPayment, linearTotal, linearSchedule := None, None, [];
      linearInsuranceTotal, linearInterestTotal := 0.0, 0.0;
    }

    /**
     * `recalculateSchedules`: reset on invalid inputs; otherwise fill or hide each side in turn, and reset
     * everything when a generator throws.
     */
    method RecalculateSchedules()
      modifies this
      ensures SameSettings(old(Inputs()), old(scheduleMode), old(showAnnuity), old(showLinear))
      ensures Recalculated(old(annuityInterestTotal), old(annuityInsuranceTotal),
                           old(linearInterestTotal), old(linearInsuranceTotal))
    {
      var valid := IsValidNow();
      if !valid {
        ResetResults();
        return;
      }
      if ShowsAnnuity(scheduleMode) {
        var schedule := AnnuityOf(Inputs(), service);
        if schedule.Failure? {
          ResetResults();
          return;
        }
        FillAnnuity(schedule.value);
      } else {
        ClearAnnuity();
      }
      if ShowsLinear(scheduleMode) {
        var schedule := LinearOf(Inputs(), service);
        if schedule.Failure? {
          ResetResults();
          return;
        }
        FillLinear(schedule.value);
      } else {
        ClearLinear();
      }
    }

    /** The annuity side of a successful recalculation. */
    method FillAnnuity(rows: seq<ScheduleRow>)
      modifies this
      ensures ShowsAnnuityRows(rows, old(annuityInsuranceTotal))
      ensures SameSettings(old(Inputs()), old(scheduleMode), old(showAnnuity), old(showLinear))
      ensures linearSchedule == old(linearSchedule) && linearPayment == old(linearPayment)
      ensures linearTotal == old(linearTotal) && linearInterestTotal == old(linearInterestTotal)
      ensures linearInsuranceTotal == old(linearInsuranceTotal)
    {
      annuitySchedule := rows;
      annuityPayment := FirstPaymentOrNull(rows);
      annuityTotal := Some(SumPayments(rows));
      annuityInterestTotal := SumInterest(rows);
      if insuranceRate.Some? {
        annuityInsuranceTotal := SumInsurance(rows);
      }
    }

    /** The annuity side when the mode does not select it. */
    method ClearAnnuity()
      modifies this
      ensures HidesAnnuity(old(annuityInterestTotal), old(annuityInsuranceTotal))
      ensures SameSettings(old(Inputs()), old(scheduleMode), old(showAnnuity), old(showLinear))
      ensures linearSchedule == old(linearSchedule) && linearPayment == old(linearPayment)
      ensures linearTotal == old(linearTotal) && linearInterestTotal == old(linearInterestTotal)
      ensures linearInsuranceTotal == old(linearInsuranceTotal)
    {
      annuitySchedule := [];
      annuityPayment := None;
      annuityTotal := None;
    }

    /** The linear side of a successful recalculation. */
    method FillLinear(rows: seq<ScheduleRow>)
      modifies this
      ensures ShowsLinearRows(rows, old(linearInsuranceTotal))
      ensures SameSettings(old(Inputs()), old(scheduleMode), old(showAnnuity), old(showLinear))
      ensures annuitySchedule == old(annuitySchedule) && annuityPayment == old(annuityPayment)
      ensures annuityTotal == old(annuityTotal) && annuityInterestTotal == old(annuityInterestTotal)
      ensures annuityInsuranceTotal == old(annuityInsuranceTotal)
    {
      linearSchedule := rows;
      linearPayment := FirstPaymentOrNull(rows);
      linearTotal := Some(SumPayments(rows));
      linearInterestTotal := SumInterest(rows);
      if insuranceRate.Some? {
        linearInsuranceTotal := SumInsurance(rows);
      }
    }

    /** The linear side when the mode does not select it. */
    method ClearLinear()
      modifies this
      ensures HidesLinear(old(linearInterestTotal), old(linearInsuranceTotal))
      ensures SameSettings(old(Inputs()), old(scheduleMode), old(showAnnuity), old(showLinear))
      ensures annuitySchedule == old(annuitySchedule) && annuityPayment == old(annuityPayment)
      ensures annuityTotal == old(annuityTotal) && annuityInterestTotal == old(annuityInterestTotal)
      ensures annuityInsuranceTotal == old(annuityInsuranceTotal)
    {
      linearSchedule := [];
      linearPayment := None;
      linearTotal := None;
    }
  }
}
