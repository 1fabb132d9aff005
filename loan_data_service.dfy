/**
 * The store the two calculator screens share: a single six-field loan state that starts all-null and is
 * replaced on every update by the old state overlaid with a partial one (`{ ...current, ...partial }`).
 */
module LoanDataService {
  import opened Wrappers
  import opened LoanModels

  /** A key of a `Partial<LoanData>`: absent, or present with its (possibly null) value. */
  datatype Field<T> = Absent | Present(value: T)

  /** A `Partial<LoanData>`. */
  datatype LoanDataPatch = LoanDataPatch(amount: Field<Option<real>>, period: Field<Option<real>>,
                                         rate: Field<Option<real>>, fixedPeriod: Field<Option<real>>,
                                         variableRate: Field<Option<real>>,
                                         insuranceRate: Field<Option<real>>)

  /** The six fields, to speak of them one at a time. */
  datatype LoanField = Amount | Period | Rate | FixedPeriod | VariableRate | InsuranceRate

  function Get(data: LoanData, key: LoanField): Option<real> {
    match key
    case Amount => data.amount
    case Period => data.period
    case Rate => data.rate
    case FixedPeriod => data.fixedPeriod
    case VariableRate => data.variableRate
    case InsuranceRate => data.insuranceRate
  }

  function Lookup(patch: LoanDataPatch, key: LoanField): Field<Option<real>> {
    match key
    case Amount => patch.amount
    case Period => patch.period
    case Rate => patch.rate
    case FixedPeriod => patch.fixedPeriod
    case VariableRate => patch.variableRate
    case InsuranceRate => patch.insuranceRate
  }

  /** The state the store starts with: every field null. */
  const InitialLoanData := LoanData(None, None, None, None, None, None)

  const EmptyPatch := LoanDataPatch(Absent, Absent, Absent, Absent, Absent, Absent)

  function Pick<T>(current: T, field: Field<T>): T {
    if field.Present? then field.value else current
  }

  /** `{ ...current, ...patch }`. */
  function Merge(current: LoanData, patch: LoanDataPatch): LoanData {
    LoanData(Pick(current.amount, patch.amount), Pick(current.period, patch.period),
             Pick(current.rate, patch.rate), Pick(current.fixedPeriod, patch.fixedPeriod),
             Pick(current.variableRate, patch.variableRate),
             Pick(current.insuranceRate, patch.insuranceRate))
  }

  /** `{ ...first, ...second }` on two partials: the keys of either, with `second` winning. */
  function Override(first: LoanDataPatch, second: LoanDataPatch): LoanDataPatch {
    LoanDataPatch(if second.amount.Present? then second.amount else first.amount,
                  if second.period.Present? then second.period else first.period,
                  if second.rate.Present? then second.rate else first.rate,
                  if second.fixedPeriod.Present? then second.fixedPeriod else first.fixedPeriod,
                  if second.variableRate.Present? then second.variableRate else first.variableRate,
                  if second.insuranceRate.Present? then second.insuranceRate else first.insuranceRate)
  }

  /** The initial state has every field null. */
  lemma InitialStateIsNull(key: LoanField)
    ensures Get(InitialLoanData, key) == None
  {
  }

  /** After a merge, a field present in the patch has the patch's value and any other field its old value. */
  lemma MergeField(current: LoanData, patch: LoanDataPatch, key: LoanField)
    ensures Lookup(patch, key).Present? ==> Get(Merge(current, patch), key) == Lookup(patch, key).value
    ensures Lookup(patch, key).Absent? ==> Get(Merge(current, patch), key) == Get(current, key)
  {
  }

  /** Merging the empty partial changes nothing. */
  lemma MergeEmpty(current: LoanData)
    ensures Merge(current, EmptyPatch) == current
  {
  }

  /** Merging the same partial twice is merging it once. */
  lemma MergeIdempotent(current: LoanData, patch: LoanDataPatch)
    ensures Merge(Merge(current, patch), patch) == Merge(current, patch)
  {
  }

  /** Two merges in a row are one merge of the second partial laid over the first. */
  lemma MergeCompose(current: LoanData, first: LoanDataPatch, second: LoanDataPatch)
    ensures Merge(Merge(current, first), second) == Merge(current, Override(first, second))
  {
  }

  /** The partial the simple form's payload is stored as: its four keys, `period` and `rate` included. */
  function SimplePatch(data: SimpleInput): LoanDataPatch {
    LoanDataPatch(Present(data.amount), Present(data.period), Present(data.rate), Absent, Absent,
                  Present(data.insuranceRate))
  }

  /** The partial the fixed-then-variable payload is stored as: totalPeriod as period, fixedRate as rate, fixedMonths as fixedPeriod. */
  function AdvancedPatch(data: AdvancedInput): LoanDataPatch {
    LoanDataPatch(Present(data.amount), Present(data.totalPeriod), Present(data.fixedRate),
                  Present(data.fixedMonths), Present(data.variableRate), Present(data.insuranceRate))
  }

  /** Storing a simple payload sets its four fields and keeps the fixed period and the variable rate. */
  lemma SimplePatchKeepsVariableFields(current: LoanData, data: SimpleInput)
    ensures var stored := Merge(current, SimplePatch(data));
      && stored.amount == data.amount && stored.period == data.period && stored.rate == data.rate
      && stored.insuranceRate == data.insuranceRate
      && stored.fixedPeriod == current.fixedPeriod && stored.variableRate == current.variableRate
  {
  }

  /** Storing a fixed-then-variable payload replaces the whole state, whatever it was. */
  lemma AdvancedPatchReplacesState(current: LoanData, data: AdvancedInput)
    ensures Merge(current, AdvancedPatch(data))
         == LoanData(data.amount, data.totalPeriod, data.fixedRate, data.fixedMonths, data.variableRate,
                     data.insuranceRate)
  {
  }

  /** The store behind `currentLoanData`. */
  class LoanDataStore {
    var current: LoanData

    constructor()
      ensures current == InitialLoanData
    {
      current := InitialLoanData;
    }

    /** `updateLoanData`: the new state is the old one overlaid with the partial. */
    method UpdateLoanData(patch: LoanDataPatch)
      modifies this
      ensures current == Merge(old(current), patch)
    {
      current := Merge(current, patch);
    }
  }
}
