/**
 * The fixed-then-variable calculator's input form: six text fields sanitised into nullable numbers with no
 * cap, the insurance toggle, and the schedule mode with its visibility flags.  Every handler reports the
 * payload it emits on `inputChanged` (or `scheduleSelectionChange`).
 */
module AdvancedLoanInput {
  import opened Wrappers
  import opened LoanModels

  class AdvancedLoanInputForm {
    var amount: Option<real>
    var totalPeriod: Option<real>
    var fixedMonths: Option<real>
    var fixedRate: Option<real>
    var variableRate: Option<real>
    var insuranceRate: Option<real>
    var isScheduleVisible: bool
    var isInsuranceRateEnabled: bool
    var showAnnuity: bool
    var showLinear: bool
    var scheduleMode: ScheduleMode

    /** The `inputChanged` payload the current fields make. */
    function Payload(): AdvancedInput
      reads this
    {
      AdvancedInput(amount, totalPeriod, fixedMonths, fixedRate, variableRate, insuranceRate)
    }

    /** The flags and mode the field handlers leave alone. */
    predicate SameView(enabled: bool, visible: bool, mode: ScheduleMode, annuityShown: bool, linearShown: bool)
      reads this
    {
      isInsuranceRateEnabled == enabled && isScheduleVisible == visible && scheduleMode == mode
      && showAnnuity == annuityShown && showLinear == linearShown
    }

    constructor()
      ensures Payload() == AdvancedInput(None, None, None, None, None, None)
      ensures !isInsuranceRateEnabled && isScheduleVisible
      ensures scheduleMode == Both && showAnnuity && showLinear
    {
      amount, totalPeriod, fixedMonths, fixedRate, variableRate, insuranceRate := None, None, None, None, None, None;
      isScheduleVisible := true;
      isInsuranceRateEnabled := false;
      showAnnuity, showLinear := true, true;
      scheduleMode := Both;
    }

    /** `ngOnChanges`: a changed, non-null insurance rate switches the toggle on; nothing switches it off. */
    method NgOnChanges(insuranceRateChanged: bool)
      modifies this
      ensures isInsuranceRateEnabled == (old(isInsuranceRateEnabled) || (insuranceRateChanged && insuranceRate.Some?))
      ensures Payload() == old(Payload())
      ensures isScheduleVisible == old(isScheduleVisible) && scheduleMode == old(scheduleMode)
      ensures showAnnuity == old(showAnnuity) && showLinear == old(showLinear)
    {
      if insuranceRateChanged {
        if insuranceRate.Some? && !isInsuranceRateEnabled {
          isInsuranceRateEnabled := true;
        }
      }
    }

    /** `onAmountChange`: '' or a NaN parse gives null, anything else its number. */
    method OnAmountChange(val: string, toNumber: string -> Option<real>) returns (emitted: AdvancedInput)
      modifies this
      ensures Payload() == old(Payload()).(amount := ParseNumber(val, toNumber))
      ensures SameView(old(isInsuranceRateEnabled), old(isScheduleVisible), old(scheduleMode),
                       old(showAnnuity), old(showLinear))
      ensures emitted == Payload()
    {
      if val == "" {
        amount := None;
      } else {
        amount := toNumber(val);
      }
      emitted := Payload();
    }

    /** `onTotalPeriodChange`: as the amount, with no upper cap. */
    method OnTotalPeriodChange(val: string, toNumber: string -> Option<real>) returns (emitted: AdvancedInput)
      modifies this
      ensures Payload() == old(Payload()).(totalPeriod := ParseNumber(val, toNumber))
      ensures SameView(old(isInsuranceRateEnabled), old(isScheduleVisible), old(scheduleMode),
                       old(showAnnuity), old(showLinear))
      ensures emitted == Payload()
    {
      if val == "" {
        totalPeriod := None;
      } else {
        totalPeriod := toNumber(val);
      }
      emitted := Payload();
    }

    /** `onFixedMonthsChange`: as the amount. */
    method OnFixedMonthsChange(val: string, toNumber: string -> Option<real>) returns (emitted: AdvancedInput)
      modifies this
      ensures Payload() == old(Payload()).(fixedMonths := ParseNumber(val, toNumber))
      ensures SameView(old(isInsuranceRateEnabled), old(isScheduleVisible), old(scheduleMode),
                       old(showAnnuity), old(showLinear))
      ensures emitted == Payload()
    {
      if val == "" {
        fixedMonths := None;
      } else {
        fixedMonths := toNumber(val);
      }
      emitted := Payload();
    }

    /** `onFixedRateChange`: as the amount. */
    method OnFixedRateChange(val: string, toNumber: string -> Option<real>) returns (emitted: AdvancedInput)
      modifies this
      ensures Payload() == old(Payload()).(fixedRate := ParseNumber(val, toNumber))
      ensures SameView(old(isInsuranceRateEnabled), old(isScheduleVisible), old(scheduleMode),
                       old(showAnnuity), old(showLinear))
      ensures emitted == Payload()
    {
      if val == "" {
        fixedRate := None;
      } else {
        fixedRate := toNumber(val);
      }
      emitted := Payload();
    }

    /** `onVariableRateChange`: as the amount. */
    method OnVariableRateChange(val: string, toNumber: string -> Option<real>) returns (emitted: AdvancedInput)
      modifies this
      ensures Payload() == old(Payload()).(variableRate := ParseNumber(val, toNumber))
      ensures SameView(old(isInsuranceRateEnabled), old(isScheduleVisible), old(scheduleMode),
                       old(showAnnuity), old(showLinear))
      ensures emitted == Payload()
    {
      if val == "" {
        variableRate := None;
      } else {
        variableRate := toNumber(val);
      }
      emitted := Payload();
    }

    /** `onInsuranceRateInputChange`: as the amount; a non-null rate also switches the toggle on. */
    method OnInsuranceRateInputChange(val: string, toNumber: string -> Option<real>) returns (emitted: AdvancedInput)
      modifies this
      ensures Payload() == old(Payload()).(insuranceRate := ParseNumber(val, toNumber))
      ensures isInsuranceRateEnabled == (old(isInsuranceRateEnabled) || insuranceRate.Some?)
      ensures isScheduleVisible == old(isScheduleVisible) && scheduleMode == old(scheduleMode)
      ensures showAnnuity == old(showAnnuity) && showLinear == old(showLinear)
      ensures emitted == Payload()
    {
      if val == "" {
        insuranceRate := None;
      } else {
        insuranceRate := toNumber(val);
      }
      if insuranceRate.Some? {
        isInsuranceRateEnabled := true;
      }
      emitted := Payload();
    }

    /**
     * `onLifeInsuranceToggle`, run after the toggle has written `isInsuranceRateEnabled`: a disabled toggle
     * clears the insurance rate, an enabled one keeps it.
     */
    method OnLifeInsuranceToggle() returns (emitted: AdvancedInput)
      modifies this
      ensures Payload() == old(Payload()).(insuranceRate := if old(isInsuranceRateEnabled) then old(insuranceRate) else None)
      ensures SameView(old(isInsuranceRateEnabled), old(isScheduleVisible), old(scheduleMode),
                       old(showAnnuity), old(showLinear))
      ensures emitted == Payload()
    {
      if !isInsuranceRateEnabled {
        insuranceRate := None;
      }
      emitted := Payload();
    }

    /** `onScheduleSelectionChange`: the `scheduleSelectionChange` payload, the two flags as they are. */
    method OnScheduleSelectionChange() returns (annuityShown: bool, linearShown: bool)
      ensures annuityShown == showAnnuity && linearShown == showLinear
    {
      annuityShown, linearShown := showAnnuity, showLinear;
    }

    /** `onScheduleModeChange`: record the mode and derive the flags, then emit them. */
    method OnScheduleModeChange(mode: ScheduleMode) returns (annuityShown: bool, linearShown: bool)
      modifies this
      ensures scheduleMode == mode && showAnnuity == ShowsAnnuity(mode) && showLinear == ShowsLinear(mode)
      ensures annuityShown == showAnnuity && linearShown == showLinear
      ensures Payload() == old(Payload())
      ensures isInsuranceRateEnabled == old(isInsuranceRateEnabled) && isScheduleVisible == old(isScheduleVisible)
    {
      scheduleMode := mode;
      showAnnuity := mode == AnnuityOnly || mode == Both;
      showLinear := mode == LinearOnly || mode == Both;
      annuityShown, linearShown := OnScheduleSelectionChange();
    }
  }
}
