/**
 * The simple calculator's input form: each text field is sanitised into a nullable number (the period is
 * capped at 480 months), the insurance toggle follows the insurance field, the schedule mode sets the two
 * visibility flags, and a key filter lets only editing keys and digits through.  Every handler reports the
 * payload it emits on `inputChanged` (or `scheduleSelectionChange`).
 */
module LoanInput {
  import opened Wrappers
  import opened LoanModels

  /** The longest period the simple form accepts, in months. */
  const MaxPeriod: real := 480.0

  /** The cap `onPeriodChange` puts on a parsed period; there is no lower bound. */
  function ClampPeriod(period: Option<real>): (r: Option<real>)
    ensures r.None? <==> period.None?
    ensures r.Some? ==> r.value <= MaxPeriod
    ensures period.Some? && period.value <= MaxPeriod ==> r == period
  {
    if period.Some? && period.value > MaxPeriod then Some(MaxPeriod) else period
  }

  /** Capping is idempotent, and anything over the cap becomes exactly the cap. */
  lemma ClampPeriodIdempotent(period: Option<real>)
    ensures ClampPeriod(ClampPeriod(period)) == ClampPeriod(period)
    ensures period.Some? && period.value > MaxPeriod ==> ClampPeriod(period) == Some(MaxPeriod)
  {
  }

  /** The editing keys `onlyNumbers` lets through besides digits. */
  const AllowedKeys: seq<string> := ["Backspace", "Tab", "ArrowLeft", "ArrowRight", "Delete"]

  predicate IsAsciiDigit(c: char) {
    '0' <= c <= '9'
  }

  /** `onlyNumbers`: an allowed editing key, or a key that is exactly one digit (`/^\d$/`). */
  predicate AcceptsKey(key: string) {
    key in AllowedKeys || (|key| == 1 && IsAsciiDigit(key[0]))
  }

  /**
   * The filter by key length: no accepted key is empty, the one-character keys accepted are exactly the
   * digits, and a longer key is accepted only when it is one of the named editing keys.
   */
  lemma AcceptedKeys(key: string)
    ensures AcceptsKey(key) ==> |key| > 0
    ensures |key| == 1 ==> (AcceptsKey(key) <==> IsAsciiDigit(key[0]))
    ensures |key| > 1 ==> (AcceptsKey(key) <==> key in AllowedKeys)
  {
  }

  class LoanInputForm {
    var amount: Option<real>
    var period: Option<real>
    var rate: Option<real>
    var insuranceRate: Option<real>
    var isInsuranceRateEnabled: bool
    var isScheduleVisible: bool
    var scheduleMode: ScheduleMode
    var showAnnuity: bool
    var showLinear: bool

    /** The `inputChanged` payload the current fields make. */
    function Payload(): SimpleInput
      reads this
    {
      SimpleInput(amount, period, rate, insuranceRate)
    }

    /** The flags and mode the field handlers leave alone. */
    predicate SameView(enabled: bool, visible: bool, mode: ScheduleMode, annuityShown: bool, linearShown: bool)
      reads this
    {
      isInsuranceRateEnabled == enabled && isScheduleVisible == visible && scheduleMode == mode
      && showAnnuity == annuityShown && showLinear == linearShown
    }

    constructor()
      ensures Payload() == SimpleInput(None, None, None, None)
      ensures !isInsuranceRateEnabled && isScheduleVisible
      ensures scheduleMode == Both && showAnnuity && showLinear
    {
      amount, period, rate, insuranceRate := None, None, None, None;
      isInsuranceRateEnabled := false;
      isScheduleVisible := true;
      scheduleMode := Both;
      showAnnuity, showLinear := true, true;
    }

    /** `ngOnChanges`: a changed, non-null insurance rate switches the toggle on; nothing switches it off. */
    method NgOnChanges(insuranceRateChanged: bool)
      modifies this
      ensures isInsuranceRateEnabled == (old(isInsuranceRateEnabled) || (insuranceRateChanged && insuranceRate.Some?))
      ensures Payload() == old(Payload())
      ensures isScheduleVisible == old(isScheduleVisible) && scheduleMode == old(scheduleMode)
      ensures showAnnuity == old(showAnnuity) && showLinear == old(showLinear)
    {
      if insuranceRateChanged {
        if insuranceRate.Some? && !isInsuranceRateEnabled {
          isInsuranceRateEnabled := true;
        }
      }
    }

    /** `onAmountChange`: '' or a NaN parse gives null, anything else its number. */
    method OnAmountChange(val: string, toNumber: string -> Option<real>) returns (emitted: SimpleInput)
      modifies this
      ensures amount == ParseNumber(val, toNumber)
      ensures period == old(period) && rate == old(rate) && insuranceRate == old(insuranceRate)
      ensures SameView(old(isInsuranceRateEnabled), old(isScheduleVisible), old(scheduleMode),
                       old(showAnnuity), old(showLinear))
      ensures emitted == Payload()
    {
      if val == "" {
        amount := None;
      } else {
        amount := toNumber(val);
      }
      emitted := Payload();
    }

    /** `onPeriodChange`: as the amount, then capped at 480 months. */
    method OnPeriodChange(val: string, toNumber: string -> Option<real>) returns (emitted: SimpleInput)
      modifies this
      ensures period == ClampPeriod(ParseNumber(val, toNumber))
      ensures amount == old(amount) && rate == old(rate) && insuranceRate == old(insuranceRate)
      ensures SameView(old(isInsuranceRateEnabled), old(isScheduleVisible), old(scheduleMode),
                       old(showAnnuity), old(showLinear))
      ensures emitted == Payload()
    {
      if val == "" {
        period := None;
      } else {
        period := toNumber(val);
        if period.Some? && period.value > MaxPeriod {
          period := Some(MaxPeriod);
        }
      }
      emitted := Payload();
    }

    /** `onRateChange`: as the amount. */
    method OnRateChange(val: string, toNumber: string -> Option<real>) returns (emitted: SimpleInput)
      modifies this
      ensures rate == ParseNumber(val, toNumber)
      ensures amount == old(amount) && period == old(period) && insuranceRate == old(insuranceRate)
      ensures SameView(old(isInsuranceRateEnabled), old(isScheduleVisible), old(scheduleMode),
                       old(showAnnuity), old(showLinear))
      ensures emitted == Payload()
    {
      if val == "" {
        rate := None;
      } else {
        rate := toNumber(val);
      }
      emitted := Payload();
    }

    /** `onInsuranceChange`: as the amount; a non-null rate also switches the toggle on. */
    method OnInsuranceChange(val: string, toNumber: string -> Option<real>) returns (emitted: SimpleInput)
      modifies this
      ensures insuranceRate == ParseNumber(val, toNumber)
      ensures isInsuranceRateEnabled == (old(isInsuranceRateEnabled) || insuranceRate.Some?)
      ensures amount == old(amount) && period == old(period) && rate == old(rate)
      ensures isScheduleVisible == old(isScheduleVisible) && scheduleMode == old(scheduleMode)
      ensures showAnnuity == old(showAnnuity) && showLinear == old(showLinear)
      ensures emitted == Payload()
    {
      if val == "" {
        insuranceRate := None;
      } else {
        insuranceRate := toNumber(val);
      }
      if insuranceRate.Some? {
        isInsuranceRateEnabled := true;
      }
      emitted := Payload();
    }

    /**
     * `onLifeInsuranceToggle`, run after the toggle has written `isInsuranceRateEnabled`: a disabled toggle
     * clears the insurance rate, an enabled one keeps it.
     */
    method OnLifeInsuranceToggle() returns (emitted: SimpleInput)
      modifies this
      ensures insuranceRate == if old(isInsuranceRateEnabled) then old(insuranceRate) else None
      ensures amount == old(amount) && period == old(period) && rate == old(rate)
      ensures SameView(old(isInsuranceRateEnabled), old(isScheduleVisible), old(scheduleMode),
                       old(showAnnuity), old(showLinear))
      ensures emitted == Payload()
    {
      if !isInsuranceRateEnabled {
        insuranceRate := None;
      }
      emitted := Payload();
    }

    /** `onScheduleModeChange`: record the mode and derive the flags; the `scheduleSelectionChange` payload. */
    method OnScheduleModeChange(mode: ScheduleMode) returns (annuityShown: bool, linearShown: bool)
      modifies this
      ensures scheduleMode == mode && showAnnuity == ShowsAnnuity(mode) && showLinear == ShowsLinear(mode)
      ensures annuityShown == showAnnuity && linearShown == showLinear
      ensures Payload() == old(Payload())
      ensures isInsuranceRateEnabled == old(isInsuranceRateEnabled) && isScheduleVisible == old(isScheduleVisible)
    {
      scheduleMode := mode;
      showAnnuity := mode == AnnuityOnly || mode == Both;
      showLinear := mode == LinearOnly || mode == Both;
      annuityShown, linearShown := showAnnuity, showLinear;
    }

    /** `onlyNumbers`: whether the key goes through; a rejected key has its default action prevented. */
    method OnlyNumbers(key: string) returns (accepted: bool, defaultPrevented: bool)
      ensures accepted == AcceptsKey(key) && defaultPrevented == !accepted
    {
      if key in AllowedKeys || (|key| == 1 && '0' <= key[0] <= '9') {
        return true, false;
      }
      return false, true;
    }
  }
}
