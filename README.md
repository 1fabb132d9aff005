# LoanSimulator in Dafny

This project models the loan simulator's amortization engine and the Angular components and services around it.

The engine is `LoanCalculatorService`. It has:

- the annuity payment formula, with its parameter guard and its zero-rate case;
- the first linear payment;
- the annuity and linear schedule generators;
- the dispatcher that picks a generator by repayment type;
- the two fixed-then-variable generators:
  - the annuity one restarts the annuity at the rate switch;
  - the linear one keeps the principal of the whole loan.

Around the engine, the model covers:

- the loan-data store's record merge;
- the two calculator components (the repayment scenario and the advanced calculator): validation, dispatch, and the folds over the schedule;
- the two input forms' sanitising handlers, including the simple form's 480-month cap;
- the schedule table's twelve-row view;
- the cookie service's cookie-string reader and writer;
- the sidebar's language switch;
- the application shell's two sidebar flags.

## Modules

- `LoanCalculator` (`loan_calculator.dfy`): the engine.
  - Each generator is a `method` with the source's month loop over a `balance` accumulator.
  - Each is proved equal to a specification function.
  - The specification functions are built from one month recurrence, `Rows(rule, rate, start, first, k)`, whose rule is either a fixed payment (annuity) or a fixed principal (linear).
  - The guard that throws `'Invalid loan parameters'` is a `Failure(InvalidLoanParameters)` result. A failure inside a generator propagates as the source's exception would.
- `AmortizationTheory` (`amortization_theory.dfy`): what the schedules mean.
  - Row counts and numbering, and the principal + interest split.
  - Balances never rising and never negative, and the `max(0, ...)` floor never cutting in.
  - Full amortization to exactly 0 under exact arithmetic, with total principal equal to the amount.
  - Total payment and total interest.
  - How the two-phase schedules relate to the single-rate ones.
- `LoanModels` (`loan_models.dfy`): the row and input records, the schedule modes, the number parsing and the folds the components use.
- `LoanDataService` (`loan_data_service.dfy`): the six-field store and `updateLoanData` as a spread merge.
- `RepaymentCalculator` and `AdvancedCalculator`: the two calculator components.
  - Each is a class whose methods update the component's fields.
  - The schedule generators they call are an opaque `CalculatorService` record of functions. The components pass an insurance rate that the engine's signatures do not take, so the engine cannot stand in for them.
  - Separate lemmas tie the validity checks to the engine's guard.
- `LoanInput`, `AdvancedLoanInput`, `AmortizationSchedule`, `CookieService`, `Sidebar`, `AppShell`: one module per component or service, each a class over the source's fields, with the pure parts as functions.

## Model

| member | source | states |
|---|---|---|
| LoanCalculator.MonthlyRate | src/app/core/services/loan-calculator.service.ts:38 | the monthly rate is zero exactly when the annual rate is, and non-negative exactly when the annual rate is |
| LoanCalculator.PowAtLeastOne | src/app/core/services/loan-calculator.service.ts:46 | `Math.pow` of a base of at least 1 is at least 1 |
| LoanCalculator.PowAboveOne | src/app/core/services/loan-calculator.service.ts:46 | `Math.pow` of a base above 1 to a positive exponent is above 1, so the annuity denominator (1+r)^n - 1 is positive |
| LoanCalculator.MaxZero | src/app/core/services/loan-calculator.service.ts:93 | `Math.max(0, x)` is non-negative, at least x, and either x or 0 |
| LoanCalculator.CalculateMonthlyPayment | src/app/core/services/loan-calculator.service.ts:33-48 | fails exactly when amount <= 0, period <= 0 or rate < 0; a zero rate gives amount/period; every payment exceeds the first month's interest |
| LoanCalculator.AnnuityPaymentExceedsInterest | src/app/core/services/loan-calculator.service.ts:45-47 | with a positive rate the closed-form payment is larger than the interest on the amount |
| LoanCalculator.CalculateFirstLinearPayment | src/app/core/services/loan-calculator.service.ts:53-58 | no finite result (Infinity, −Infinity or NaN in JS, depending on the sign of the amount) exactly when the period is 0; otherwise equal to the payment in row 1 of the linear schedule |
| LoanCalculator.RowsLength | src/app/core/services/loan-calculator.service.ts:90-102 | the month loop pushes exactly one row per month |
| LoanCalculator.FirstRowOfRows | src/app/core/services/loan-calculator.service.ts:121-132 | the first row is computed from the opening balance |
| LoanCalculator.AnnuitySchedule | src/app/core/services/loan-calculator.service.ts:79-105 | fails exactly when the payment formula's guard fails; otherwise has exactly `period` rows |
| LoanCalculator.LinearSchedule | src/app/core/services/loan-calculator.service.ts:110-136 | has exactly `period` rows |
| LoanCalculator.AnnuityMonths | src/app/core/services/loan-calculator.service.ts:90-102 | the annuity month loop produces the recurrence's rows and leaves the recurrence's balance |
| LoanCalculator.LinearMonths | src/app/core/services/loan-calculator.service.ts:121-133 | the linear month loop produces the recurrence's rows and leaves the recurrence's balance |
| LoanCalculator.GenerateAmortizationSchedule | src/app/core/services/loan-calculator.service.ts:63-74 | 'annuity' gives the annuity schedule, 'linear' the linear schedule |
| LoanCalculator.GenerateAnnuitySchedule | src/app/core/services/loan-calculator.service.ts:79-105 | the generator's result is the annuity schedule, including its failure |
| LoanCalculator.GenerateLinearSchedule | src/app/core/services/loan-calculator.service.ts:110-136 | the generator's result is the linear schedule |
| LoanCalculator.GenerateVariableAnnuitySchedule | src/app/core/services/loan-calculator.service.ts:141-192 | the two loops and the 0.01 threshold give the fixed-then-variable annuity schedule, failures included |
| LoanCalculator.GenerateVariableLinearSchedule | src/app/core/services/loan-calculator.service.ts:200-240 | the slice of the fixed-rate schedule followed by the loop gives the fixed-then-variable linear schedule |
| AmortizationTheory.RowsAt | src/app/core/services/loan-calculator.service.ts:90-102 | row i is month first + i, computed from the balance after i months |
| AmortizationTheory.PhaseShape | src/app/core/services/loan-calculator.service.ts:90-102 | any phase has k rows numbered consecutively, interest = opening balance × rate, principal + interest = payment, non-negative balances, and ends at the recurrence's balance |
| AmortizationTheory.PhaseEnds | src/app/core/services/loan-calculator.service.ts:90-102 | the last row of a phase carries the balance the month recurrence reaches after its k months |
| AmortizationTheory.MonthRowSplits | src/app/core/services/loan-calculator.service.ts:91-100 | one month's row splits its payment into principal and interest, with a non-negative balance |
| AmortizationTheory.BalanceAfterSplit | src/app/core/services/loan-calculator.service.ts:90-93 | j months then k months from there leave the same balance as j + k months |
| AmortizationTheory.RowsSplit | src/app/core/services/loan-calculator.service.ts:90-102 | j + k months of rows are the first j rows followed by k rows resumed from the balance after j months |
| AmortizationTheory.PhaseDeclines | src/app/core/services/loan-calculator.service.ts:93 | when every step stays between 0 and the opening balance, balances never rise, never go negative, and the floor never cuts in |
| AmortizationTheory.PrincipalTelescopes | src/app/core/services/loan-calculator.service.ts:92-93 | without flooring, the principal column sums to the opening balance less the final balance |
| AmortizationTheory.InterestIsPaymentLessPrincipal | src/app/core/services/loan-calculator.service.ts:91-92 | total interest is total payment less total principal |
| AmortizationTheory.ConstantPaymentSum | src/app/core/services/loan-calculator.service.ts:97 | rows with one payment sum to count × payment |
| AmortizationTheory.FixedPaymentPhaseSum | src/app/core/services/loan-calculator.service.ts:97 | a fixed-payment phase of k months pays k × payment |
| AmortizationTheory.AnnuityPaymentFormula | src/app/core/services/loan-calculator.service.ts:38-47 | with a positive rate, the payment is the formula M = P·r·f/(f − 1) with f = (1 + r)^n > 1 |
| AmortizationTheory.AnnuityStepPositiveRate | src/app/core/services/loan-calculator.service.ts:91-93 | with a positive rate, one annuity month takes the closed-form balance after k months to the one after k + 1, never rising and never negative |
| AmortizationTheory.AnnuityStepZeroRate | src/app/core/services/loan-calculator.service.ts:40-42 | with a zero rate, one month of amount/period takes the balance after k months to the one after k + 1 |
| AmortizationTheory.AnnuityBalanceClosedForm | src/app/core/services/loan-calculator.service.ts:87-102 | after k months the annuity balance is P·(f − (1 + r)^k)/(f − 1), or P − k·P/n at rate 0 |
| AmortizationTheory.AnnuityBalanceStarts | src/app/core/services/loan-calculator.service.ts:87 | the closed form starts at the amount |
| AmortizationTheory.AnnuityBalanceEnds | src/app/core/services/loan-calculator.service.ts:45-47 | the closed form reaches exactly 0 after `period` months |
| AmortizationTheory.AnnuityAmortizes | src/app/core/services/loan-calculator.service.ts:84-102 | the computed payment repays the amount in exactly `period` months without ever flooring |
| AmortizationTheory.PhaseAmortizes | src/app/core/services/loan-calculator.service.ts:90-102 | a phase that declines and ends at 0 repays its whole opening balance in principal |
| AmortizationTheory.AnnuityScheduleShape | src/app/core/services/loan-calculator.service.ts:84-102 | `period` rows numbered 1..period, one payment throughout, principal + interest = payment, interest on the prior balance |
| AmortizationTheory.AnnuityScheduleAmortizes | src/app/core/services/loan-calculator.service.ts:87-102 | balances never rise, never go negative, never floor; the last balance is exactly 0; principal sums to the amount |
| AmortizationTheory.AnnuityScheduleTotalPaid | src/app/core/services/loan-calculator.service.ts:84-102 | whenever the engine computes a monthly payment, the annuity schedule succeeds and its payments add up to period × that payment |
| AmortizationTheory.AnnuityScheduleTotalInterest | src/app/core/services/loan-calculator.service.ts:84-102 | total interest is total paid less the amount |
| AmortizationTheory.LinearBalanceClosedForm | src/app/core/services/loan-calculator.service.ts:115-124 | after k months the linear balance is amount − k·amount/period |
| AmortizationTheory.LinearStep | src/app/core/services/loan-calculator.service.ts:124 | one linear month lowers the balance by exactly amount/period and stays non-negative |
| AmortizationTheory.LinearAmortizes | src/app/core/services/loan-calculator.service.ts:115-133 | the linear principal repays a non-negative amount in exactly `period` months without flooring |
| AmortizationTheory.LinearScheduleShape | src/app/core/services/loan-calculator.service.ts:115-133 | `period` rows numbered 1..period, principal amount/period in every row, payment = principal + prior balance × rate |
| AmortizationTheory.LinearScheduleAmortizes | src/app/core/services/loan-calculator.service.ts:118-133 | balances never rise, never go negative, never floor; the last balance is exactly 0; principal sums to the amount |
| AmortizationTheory.InterestMonotone | src/app/core/services/loan-calculator.service.ts:122 | at a non-negative rate, a smaller balance gives no more interest |
| AmortizationTheory.LinearPaymentsNonIncreasing | src/app/core/services/loan-calculator.service.ts:121-133 | for a non-negative amount at a non-negative rate, linear interest and payments never increase from month to month (a negative amount makes them rise) |
| AmortizationTheory.OpeningBalanceAppend | src/app/core/services/loan-calculator.service.ts:239 | a row of the second part of a concatenation opens at the balance the first part leaves |
| AmortizationTheory.LastBalanceAppend | src/app/core/services/loan-calculator.service.ts:211-213 | a concatenation ends where its second part ends, starting from the first part's last balance |
| AmortizationTheory.SumPrincipalAppend | src/app/core/services/loan-calculator.service.ts:239 | principal sums add over a concatenation |
| AmortizationTheory.PhasesChain | src/app/core/services/loan-calculator.service.ts:239 | two phases that each decline without flooring, the second resumed from the first's last balance, decline without flooring together |
| AmortizationTheory.VariableAnnuityFixedPhase | src/app/core/services/loan-calculator.service.ts:154-169 | the first min(fixedMonths, totalPeriod) rows are those of the single-rate annuity schedule at the fixed rate |
| AmortizationTheory.VariableAnnuityVariablePhase | src/app/core/services/loan-calculator.service.ts:171-189 | after the switch there are totalPeriod rows; each later row is numbered in sequence, pays the recalculated payment and splits it with interest at the variable rate; without a switch there are exactly fixedMonths rows |
| AmortizationTheory.VariableAnnuityAmortizes | src/app/core/services/loan-calculator.service.ts:148-191 | balances never rise, never go negative, never floor; principal sums to the amount less the final balance; the final balance is 0 after a switch and at most 0.01 without one |
| AmortizationTheory.AnnuityBalancePositive | src/app/core/services/loan-calculator.service.ts:173 | before the last month, the fixed-phase balance is still positive |
| AmortizationTheory.ResolvedPaymentUnchanged | src/app/core/services/loan-calculator.service.ts:172-174 | re-annuitising the remaining balance over the remaining months at the same rate gives the original payment |
| AmortizationTheory.VariableAnnuitySameRate | src/app/core/services/loan-calculator.service.ts:141-192 | with equal fixed and variable rates, a positive amount, a non-negative rate and fixedMonths ≤ totalPeriod, the two-phase annuity is the single-rate annuity, provided the fixed months cover the whole period or more than 0.01 is still owed after them (otherwise the source stops after the fixed months) |
| AmortizationTheory.VariableAnnuityNoSwitch | src/app/core/services/loan-calculator.service.ts:157-173 | when fixedMonths = totalPeriod, a successful two-phase annuity equals the single-rate annuity at the fixed rate, whatever the variable rate |
| AmortizationTheory.FixedPrincipalIgnoresRate | src/app/core/services/loan-calculator.service.ts:124 | linear balances do not depend on the rate |
| AmortizationTheory.VariableLinearNoSwitch | src/app/core/services/loan-calculator.service.ts:208-239 | when fixedMonths >= totalPeriod the schedule is the fixed-rate linear schedule |
| AmortizationTheory.LinearPrefix | src/app/core/services/loan-calculator.service.ts:208-213 | for a positive amount and k < totalPeriod, the first k linear rows are the fixed-principal recurrence and leave a positive balance |
| AmortizationTheory.VariableLinearRows | src/app/core/services/loan-calculator.service.ts:208-239 | for a positive amount and fixedMonths < totalPeriod, the schedule is the fixed-rate prefix followed by the recurrence resumed from its last balance at the variable rate, principal amount/totalPeriod |
| AmortizationTheory.ResumedRow | src/app/core/services/loan-calculator.service.ts:224-235 | a resumed linear row has the same month, principal and balance as the row at that position in the uninterrupted schedule |
| AmortizationTheory.VariableLinearFixedPhase | src/app/core/services/loan-calculator.service.ts:208 | for a positive amount and fixedMonths < totalPeriod, the schedule has totalPeriod rows, and its first fixedMonths rows are those of the fixed-rate linear schedule |
| AmortizationTheory.VariableLinearRowAt | src/app/core/services/loan-calculator.service.ts:224-235 | a row from the switch on keeps the single-rate month, principal and balance, and charges interest at the variable rate |
| AmortizationTheory.VariableLinearVariablePhase | src/app/core/services/loan-calculator.service.ts:215-237 | every row from the switch on keeps the single-rate month, principal and balance, and charges interest at the variable rate on its opening balance |
| AmortizationTheory.VariableLinearAmortizes | src/app/core/services/loan-calculator.service.ts:200-240 | totalPeriod rows; balances never rise, never go negative, never floor; the last balance is exactly 0; principal sums to the amount |
| AmortizationTheory.SamePrincipalColumn | src/app/core/services/loan-calculator.service.ts:220-221 | schedules with the same principal column repay the same total principal |
| AmortizationTheory.VariableLinearSameRate | src/app/core/services/loan-calculator.service.ts:200-240 | for a positive amount and any fixedMonths, equal fixed and variable rates make the two-phase linear schedule the single-rate one (a zero amount stops at the first zero balance) |
| AmortizationTheory.ValidInputsNeverFail | src/app/core/services/loan-calculator.service.ts:154-174 | a positive amount and period with non-negative rates never reach the guard in either annuity generator, whatever fixedMonths is |
| LoanModels.ModeFlagsDetermineMode | src/app/features/advanced-calculator/advanced-calculator.component.ts:105-106 | every mode shows at least one schedule, and the two flags determine the mode |
| LoanModels.FirstPaymentOrNull | src/app/features/advanced-calculator/advanced-calculator.component.ts:156 | `schedule[0]?.payment ?? null` is null exactly for an empty schedule, otherwise the first row's payment |
| LoanModels.SumPaymentsAppend | src/app/features/advanced-calculator/advanced-calculator.component.ts:157 | the payment fold adds over concatenation |
| LoanModels.SumPaymentsSplit | src/app/features/advanced-calculator/advanced-calculator.component.ts:157-158 | for rows with principal + interest = payment, the total is the principal total plus the interest total |
| LoanModels.SumInsuranceWithoutInsurance | src/app/features/advanced-calculator/advanced-calculator.component.ts:160 | rows without insurance add nothing to the insurance fold |
| LoanModels.SumPaymentsConstant | src/app/features/advanced-calculator/advanced-calculator.component.ts:157 | rows with one payment sum to count × payment |
| LoanDataService.InitialStateIsNull | src/app/core/services/loan-data.service.ts:10-17 | all six fields start null |
| LoanDataService.MergeField | src/app/core/services/loan-data.service.ts:21-23 | a field present in the update takes its value; an absent field keeps its previous value |
| LoanDataService.MergeEmpty | src/app/core/services/loan-data.service.ts:22 | an empty update changes nothing |
| LoanDataService.MergeIdempotent | src/app/core/services/loan-data.service.ts:22 | the same update twice equals it once |
| LoanDataService.MergeCompose | src/app/core/services/loan-data.service.ts:22 | updating with a then b equals one update with a overridden by b |
| LoanDataService.SimplePatchKeepsVariableFields | src/app/features/repayment-calculator/repayment-calculator/repayment-calculator.component.ts:77-85 | the simple form's update stores amount, period, rate and insurance and keeps fixedPeriod and variableRate |
| LoanDataService.AdvancedPatchReplacesState | src/app/features/advanced-calculator/advanced-calculator.component.ts:70-95 | the advanced form's update replaces all six fields, with period = totalPeriod, rate = fixedRate, fixedPeriod = fixedMonths |
| LoanDataService.LoanDataStore.constructor | src/app/core/services/loan-data.service.ts:10-17 | the store starts in the all-null state |
| LoanDataService.LoanDataStore.UpdateLoanData | src/app/core/services/loan-data.service.ts:21-23 | the new state is the old one merged with the update |
| RepaymentCalculator.AdvancedValidityIsStricter | src/app/features/repayment-calculator/repayment-calculator/repayment-calculator.component.ts:209-230 | inputs valid in 'advanced' mode are valid in 'simple' mode; validity never depends on the insurance rate |
| RepaymentCalculator.ValidScenarioPassesEngineGuard | src/app/features/repayment-calculator/repayment-calculator/repayment-calculator.component.ts:122-179 | valid inputs with whole-month periods never reach the engine's guard, in either mode |
| RepaymentCalculator.RepaymentCalculatorComponent.constructor | src/app/features/repayment-calculator/repayment-calculator/repayment-calculator.component.ts:27-54 | 'simple' mode, annuity, all inputs null, an empty scenario |
| RepaymentCalculator.RepaymentCalculatorComponent.NgOnInit | src/app/features/repayment-calculator/repayment-calculator/repayment-calculator.component.ts:58-72 | the inputs are copied from the store; a null stored insurance rate keeps the current one |
| RepaymentCalculator.RepaymentCalculatorComponent.OnSimpleInputChanged | src/app/features/repayment-calculator/repayment-calculator/repayment-calculator.component.ts:77-85 | overwrites amount, period, fixed rate and insurance, keeps fixedMonths and variableRate, merges into the store, and recalculates |
| RepaymentCalculator.RepaymentCalculatorComponent.OnAdvancedInputChanged | src/app/features/repayment-calculator/repayment-calculator/repayment-calculator.component.ts:88-107 | copies all six inputs, merges them into the store, and recalculates |
| RepaymentCalculator.RepaymentCalculatorComponent.OnModeChanged | src/app/features/repayment-calculator/repayment-calculator/repayment-calculator.component.ts:110-113 | sets only the mode, then recalculates |
| RepaymentCalculator.RepaymentCalculatorComponent.OnLoanTypeChanged | src/app/features/repayment-calculator/repayment-calculator/repayment-calculator.component.ts:115-118 | sets only the loan type, then recalculates |
| RepaymentCalculator.RepaymentCalculatorComponent.RecalculateScenario | src/app/features/repayment-calculator/repayment-calculator/repayment-calculator.component.ts:122-134 | invalid inputs clear the scenario; valid ones show the dispatched schedule, or leave the scenario as it was when the service throws |
| RepaymentCalculator.RepaymentCalculatorComponent.CalculateSimpleScenario | src/app/features/repayment-calculator/repayment-calculator/repayment-calculator.component.ts:136-150 | shows the single-rate schedule of the current loan type |
| RepaymentCalculator.RepaymentCalculatorComponent.CalculateAdvancedScenario | src/app/features/repayment-calculator/repayment-calculator/repayment-calculator.component.ts:152-179 | shows the fixed-then-variable annuity or linear schedule, by loan type |
| RepaymentCalculator.RepaymentCalculatorComponent.SetScenarioFromSchedule | src/app/features/repayment-calculator/repayment-calculator/repayment-calculator.component.ts:183-194 | the schedule, its payment total and its first payment (0 and 0 when empty) |
| RepaymentCalculator.RepaymentCalculatorComponent.ClearScenario | src/app/features/repayment-calculator/repayment-calculator/repayment-calculator.component.ts:196-200 | an empty schedule with total 0 and first payment 0 |
| RepaymentCalculator.RepaymentCalculatorComponent.IsValidNow | src/app/features/repayment-calculator/repayment-calculator/repayment-calculator.component.ts:209-230 | true exactly when the mode's validity conditions hold on the current inputs |
| AdvancedCalculator.AdvancedCalculatorComponent.IsValidNow | src/app/features/advanced-calculator/advanced-calculator.component.ts:111-123 | true exactly when amount and total period are positive, 0 < fixedMonths <= totalPeriod, both rates are non-negative, and none is null; the insurance rate plays no part |
| AdvancedCalculator.ValidityMatchesScenarioAdvanced | src/app/features/advanced-calculator/advanced-calculator.component.ts:111-123 | this screen accepts exactly the inputs the repayment calculator accepts in 'advanced' mode |
| AdvancedCalculator.ValidInputsPassEngineGuard | src/app/features/advanced-calculator/advanced-calculator.component.ts:144-194 | valid whole-month inputs satisfy 0 < fixedMonths <= totalPeriod and never reach the engine's guard |
| AdvancedCalculator.AdvancedCalculatorComponent.constructor | src/app/features/advanced-calculator/advanced-calculator.component.ts:29-51 | both schedules selected, all inputs null, all results reset |
| AdvancedCalculator.AdvancedCalculatorComponent.NgOnInit | src/app/features/advanced-calculator/advanced-calculator.component.ts:53-68 | inputs are copied from the store, then schedules are recalculated |
| AdvancedCalculator.AdvancedCalculatorComponent.OnInputChanged | src/app/features/advanced-calculator/advanced-calculator.component.ts:70-95 | copies all six inputs, merges them into the store with period = totalPeriod, rate = fixedRate and fixedPeriod = fixedMonths, then recalculates |
| AdvancedCalculator.AdvancedCalculatorComponent.OnVisibilityChanged | src/app/features/advanced-calculator/advanced-calculator.component.ts:97-100 | sets only the two visibility flags |
| AdvancedCalculator.AdvancedCalculatorComponent.OnScheduleModeChanged | src/app/features/advanced-calculator/advanced-calculator.component.ts:102-109 | records the mode, shows annuity for annuity/both and linear for linear/both, then recalculates |
| AdvancedCalculator.AdvancedCalculatorComponent.ResetResults | src/app/features/advanced-calculator/advanced-calculator.component.ts:125-136 | payments and totals null, schedules empty, interest and insurance totals 0; inputs and mode untouched |
| AdvancedCalculator.AdvancedCalculatorComponent.RecalculateSchedules | src/app/features/advanced-calculator/advanced-calculator.component.ts:138-195 | invalid inputs or a throwing generator reset everything; otherwise each selected side shows its schedule and folds, and each unselected side is emptied but keeps its interest and insurance totals |
| AdvancedCalculator.AdvancedCalculatorComponent.FillAnnuity | src/app/features/advanced-calculator/advanced-calculator.component.ts:155-161 | annuity rows, first payment, payment and interest folds, and an insurance fold only when an insurance rate is set; the linear side untouched |
| AdvancedCalculator.AdvancedCalculatorComponent.ClearAnnuity | src/app/features/advanced-calculator/advanced-calculator.component.ts:162-166 | empty annuity schedule with null payment and total, the interest and insurance totals kept; the linear side untouched |
| AdvancedCalculator.AdvancedCalculatorComponent.FillLinear | src/app/features/advanced-calculator/advanced-calculator.component.ts:178-184 | linear rows, first payment, payment and interest folds, and an insurance fold only when an insurance rate is set; the annuity side untouched |
| AdvancedCalculator.AdvancedCalculatorComponent.ClearLinear | src/app/features/advanced-calculator/advanced-calculator.component.ts:185-189 | empty linear schedule with null payment and total, the interest and insurance totals kept; the annuity side untouched |
| LoanInput.ClampPeriod | src/app/features/simple-calculator/components/loan-input/loan-input.component.ts:84-96 | null stays null; the result never exceeds 480; a period of at most 480 is unchanged (no lower bound) |
| LoanInput.ClampPeriodIdempotent | src/app/features/simple-calculator/components/loan-input/loan-input.component.ts:88-93 | capping twice equals capping once, and a period above 480 becomes 480 |
| LoanInput.AcceptedKeys | src/app/features/simple-calculator/components/loan-input/loan-input.component.ts:147-154 | no accepted key is empty; a one-character key is accepted exactly when it is a digit; a longer key exactly when it is Backspace, Tab, ArrowLeft, ArrowRight or Delete |
| LoanInput.LoanInputForm.constructor | src/app/features/simple-calculator/components/loan-input/loan-input.component.ts:25-53 | null fields, insurance off, schedule visible, both schedules shown |
| LoanInput.LoanInputForm.NgOnChanges | src/app/features/simple-calculator/components/loan-input/loan-input.component.ts:55-62 | a changed non-null insurance rate turns the toggle on; nothing turns it off |
| LoanInput.LoanInputForm.OnAmountChange | src/app/features/simple-calculator/components/loan-input/loan-input.component.ts:73-82 | '' or NaN gives null, otherwise the number; only the amount changes; the payload is emitted |
| LoanInput.LoanInputForm.OnPeriodChange | src/app/features/simple-calculator/components/loan-input/loan-input.component.ts:84-96 | the parsed period capped at 480; only the period changes |
| LoanInput.LoanInputForm.OnRateChange | src/app/features/simple-calculator/components/loan-input/loan-input.component.ts:98-107 | '' or NaN gives null, otherwise the number; only the rate changes |
| LoanInput.LoanInputForm.OnInsuranceChange | src/app/features/simple-calculator/components/loan-input/loan-input.component.ts:109-123 | the parsed rate; a non-null rate turns the toggle on, nothing turns it off |
| LoanInput.LoanInputForm.OnLifeInsuranceToggle | src/app/features/simple-calculator/components/loan-input/loan-input.component.ts:125-131 | a disabled toggle nulls the insurance rate, an enabled one keeps it |
| LoanInput.LoanInputForm.OnScheduleModeChange | src/app/features/simple-calculator/components/loan-input/loan-input.component.ts:133-145 | records the mode and shows annuity for annuity/both and linear for linear/both; the inputs are unchanged |
| LoanInput.LoanInputForm.OnlyNumbers | src/app/features/simple-calculator/components/loan-input/loan-input.component.ts:147-154 | the key goes through exactly when it is accepted; otherwise the default is prevented |
| AdvancedLoanInput.AdvancedLoanInputForm.constructor | src/app/features/advanced-calculator/components/advanced-loan-input/advanced-loan-input.component.ts:26-65 | null fields, insurance off, schedule visible, both schedules shown |
| AdvancedLoanInput.AdvancedLoanInputForm.NgOnChanges | src/app/features/advanced-calculator/components/advanced-loan-input/advanced-loan-input.component.ts:67-73 | a changed non-null insurance rate turns the toggle on; nothing turns it off |
| AdvancedLoanInput.AdvancedLoanInputForm.OnAmountChange | src/app/features/advanced-calculator/components/advanced-loan-input/advanced-loan-input.component.ts:86-96 | '' or NaN gives null, otherwise the number; only the amount changes |
| AdvancedLoanInput.AdvancedLoanInputForm.OnTotalPeriodChange | src/app/features/advanced-calculator/components/advanced-loan-input/advanced-loan-input.component.ts:98-108 | the parsed period with no cap; only the total period changes |
| AdvancedLoanInput.AdvancedLoanInputForm.OnFixedMonthsChange | src/app/features/advanced-calculator/components/advanced-loan-input/advanced-loan-input.component.ts:110-120 | the parsed value; only fixedMonths changes |
| AdvancedLoanInput.AdvancedLoanInputForm.OnFixedRateChange | src/app/features/advanced-calculator/components/advanced-loan-input/advanced-loan-input.component.ts:122-132 | the parsed value; only the fixed rate changes |
| AdvancedLoanInput.AdvancedLoanInputForm.OnVariableRateChange | src/app/features/advanced-calculator/components/advanced-loan-input/advanced-loan-input.component.ts:134-144 | the parsed value; only the variable rate changes |
| AdvancedLoanInput.AdvancedLoanInputForm.OnInsuranceRateInputChange | src/app/features/advanced-calculator/components/advanced-loan-input/advanced-loan-input.component.ts:146-160 | the parsed rate; a non-null rate turns the toggle on; the other fields are unchanged |
| AdvancedLoanInput.AdvancedLoanInputForm.OnLifeInsuranceToggle | src/app/features/advanced-calculator/components/advanced-loan-input/advanced-loan-input.component.ts:162-168 | a disabled toggle nulls the insurance rate, an enabled one keeps it |
| AdvancedLoanInput.AdvancedLoanInputForm.OnScheduleSelectionChange | src/app/features/advanced-calculator/components/advanced-loan-input/advanced-loan-input.component.ts:170-175 | emits the two visibility flags as they are |
| AdvancedLoanInput.AdvancedLoanInputForm.OnScheduleModeChange | src/app/features/advanced-calculator/components/advanced-loan-input/advanced-loan-input.component.ts:177-185 | records the mode, derives the flags by the same mapping and emits them; the inputs are unchanged |
| AmortizationSchedule.ViewIsPrefix | src/app/shared/components/amortization-schedule/amortization-schedule.component.ts:16-23 | the displayed rows are a prefix of the schedule: all of it with showAll, otherwise its first min(12, length) rows |
| AmortizationSchedule.CollapsedViewOfShortSchedule | src/app/shared/components/amortization-schedule/amortization-schedule.component.ts:19-22 | the collapsed view equals the full view for schedules of at most 12 rows, and is its first 12 rows otherwise |
| AmortizationSchedule.AmortizationScheduleTable.constructor | src/app/shared/components/amortization-schedule/amortization-schedule.component.ts:11-14 | an empty, collapsed, up-to-date table |
| AmortizationSchedule.AmortizationScheduleTable.NgOnChanges | src/app/shared/components/amortization-schedule/amortization-schedule.component.ts:16-23 | the displayed rows become the view of the schedule; the inputs are unchanged |
| AmortizationSchedule.AmortizationScheduleTable.ToggleShowAll | src/app/shared/components/amortization-schedule/amortization-schedule.component.ts:25-28 | flips showAll and recomputes the view; flipping back recomputes the rows shown before, so two toggles restore both |
| CookieService.Split | src/app/core/services/cookie.service.ts:37 | at least one piece, and no piece holds a ';' |
| CookieService.JoinSplit | src/app/core/services/cookie.service.ts:37 | joining the pieces with ';' gives back the cookie string |
| CookieService.SplitWithoutSeparator | src/app/core/services/cookie.service.ts:37 | a string without ';' is one piece |
| CookieService.SplitAtSeparator | src/app/core/services/cookie.service.ts:37 | splitting a + ";" + b gives a's pieces followed by b's |
| CookieService.SplitJoin | src/app/core/services/cookie.service.ts:37 | splitting joined pieces without ';' gives back the pieces |
| CookieService.TrimLeadingSpaces | src/app/core/services/cookie.service.ts:40 | the result is a suffix, only spaces are removed, and it does not start with a space |
| CookieService.FirstMatchIsFirst | src/app/core/services/cookie.service.ts:38-43 | null exactly when no trimmed piece starts with `name=`; otherwise the text after `name=` in the first piece that does |
| CookieService.FirstMatchHasNoSeparator | src/app/core/services/cookie.service.ts:38-42 | a value found among pieces without ';' holds no ';' |
| CookieService.CookieValueHasNoSeparator | src/app/core/services/cookie.service.ts:32-44 | a returned cookie value never holds a ';' |
| CookieService.GetCookie | src/app/core/services/cookie.service.ts:32-44 | the loop returns null off-browser, and otherwise the value of the first matching piece, or null |
| CookieService.HasConsent | src/app/core/services/cookie.service.ts:25-27 | true exactly when the 'user-consent' cookie reads 'true' |
| CookieService.ReadBackWrittenCookie | src/app/core/services/cookie.service.ts:49-60 | in a browser, the reader applied to the assignment string setCookie builds returns the value written, for any expiry, when name and value hold no ';' and the name does not start with a space |
| CookieService.GivenConsentIsRead | src/app/core/services/cookie.service.ts:18-27 | the reader applied to the assignment string giveConsent builds yields consent given |
| CookieService.PairMatches | src/app/core/services/cookie.service.ts:41 | a `name=value` pair starts with `n=` exactly when its name is n, for names without '=' |
| CookieService.TrimPiece | src/app/core/services/cookie.service.ts:40 | trimming a listed pair removes exactly the separating space |
| CookieService.FirstMatchFindsCookie | src/app/core/services/cookie.service.ts:38-43 | over pieces that trim to well-formed pairs, the loop finds the first cookie of that name |
| CookieService.GetCookieFromListing | src/app/core/services/cookie.service.ts:32-44 | reading a browser's `n1=v1; n2=v2; ...` listing returns the first listed value for the name, or null |
| CookieService.ConsentFromListing | src/app/core/services/cookie.service.ts:25-27 | on the browser's listing of well-formed cookies, hasConsent's read gives 'true' exactly when the first listed 'user-consent' cookie has the value 'true' |
| CookieService.StoreCookie | src/app/core/services/cookie.service.ts:59 | the jar after an assignment has the same number of cookies or one more, each either the new cookie or one it held |
| CookieService.StoredCookieIsFound | src/app/core/services/cookie.service.ts:59 | after the assignment the first cookie listed under the name holds the value assigned |
| CookieService.StoreKeepsOthers | src/app/core/services/cookie.service.ts:59 | the assignment changes what no other name reads |
| CookieService.GivenConsentIsListed | src/app/core/services/cookie.service.ts:18-27 | after giveConsent's cookie is stored in a jar of well-formed cookies, hasConsent's read of the browser's listing gives 'true' |
| Sidebar.StripLocaleSegment | src/app/layout/sidebar/sidebar.component.ts:51 | a leading /en-US or /ro segment before a rooted path is removed once, and only once |
| Sidebar.StripLocaleKeeps | src/app/layout/sidebar/sidebar.component.ts:51 | paths without a locale segment, '/ro' among them, are kept, and a rooted path stays rooted |
| Sidebar.SwitchLanguageRoundTrip | src/app/layout/sidebar/sidebar.component.ts:49-58 | from an English page, switching to 'ro' prefixes /ro, and switching back returns to the page |
| Sidebar.SwitchFromRomanianForgets | src/app/layout/sidebar/sidebar.component.ts:49-58 | after a switch to 'ro', the next switch goes where it would have gone from the original page |
| Sidebar.SwitchLanguageExamples | src/app/layout/sidebar/sidebar.component.ts:50-57 | '/ro/x' to en-US gives '/x', and '/x' to ro gives '/ro/x' |
| Sidebar.SidebarPanel.constructor | src/app/layout/sidebar/sidebar.component.ts:37-42 | expanded, with the injected locale |
| Sidebar.SidebarPanel.ToggleSidebar | src/app/layout/sidebar/sidebar.component.ts:44-47 | flips the flag and emits the new value, so two toggles restore it |
| Sidebar.SidebarPanel.SwitchLanguage | src/app/layout/sidebar/sidebar.component.ts:49-58 | the assigned href is the stripped path, prefixed with '/' + locale unless the locale is en-US |
| AppShell.Click | src/app/app.component.ts:19-24 | flips the overlay; the flags are never both set; closing keeps the collapse |
| AppShell.SidebarToggle | src/app/app.component.ts:26-32 | takes the collapse flag; the flags are never both set; expanding keeps the overlay |
| AppShell.ReachableStatesAreConsistent | src/app/app.component.ts:16-32 | in every state reachable from the start, the overlay is not open while the sidebar is collapsed |
| AppShell.ClickTwice | src/app/app.component.ts:19-24 | two clicks restore the overlay flag, and leave a consistent state fully closed or unchanged |
| AppShell.AppComponent.constructor | src/app/app.component.ts:16-17 | both flags start false |
| AppShell.AppComponent.OnClick | src/app/app.component.ts:19-24 | the new flags are the click transition of the old ones |
| AppShell.AppComponent.OnSidebarToggle | src/app/app.component.ts:26-32 | the new flags are the toggle transition of the old ones |

## Left out

- Floating point: amounts, rates and balances are exact `real`s, and `Math.pow` is a recursive power. Rounding error and the NaN or Infinity that IEEE-754 division can produce are not modelled. This is why full amortization holds exactly.
- Negative or non-integer periods: the engine takes whole months (`nat`), so a negative period or fixedMonths (which the source accepts: an empty linear schedule, or a `slice` with a negative end) is not modelled; both components' validity checks require positive inputs. The components hand their inputs to an opaque service, so a fractional period typed into a form is not related to the engine.
- Insurance: the engine shown has no insurance column. The components call the generators with an extra insurance rate. The component models therefore take the generators as an opaque `CalculatorService` and relate them to the engine only through the validity lemmas.
- AdvancedCalculator.AdvancedCalculatorComponent.RecalculateSchedules: the statement that the catch branch is unreachable is proved against the engine (`AdvancedCalculator.ValidInputsPassEngineGuard`), not for the opaque service the component holds.
- RepaymentCalculator.RepaymentCalculatorComponent.RecalculateScenario: it has no catch, so a throwing service is the outcome `Threw`. The scenario fields are left as they were, and the earlier field and store assignments of the handler stay.
- `Number(val)` is the parameter `toNumber`, with `None` standing for NaN. Which strings parse to which numbers is not modelled.
- Angular and rxjs plumbing:
  - The per-field `amountChange`/`periodChange`/... emits and `scheduleModeChange` are left out.
  - The `inputChanged` and `scheduleSelectionChange` payloads are the handlers' return values.
  - The `BehaviorSubject` is the `LoanDataStore` class, and a `take(1)` subscription is a read of its current value, which is never null.
  - Change detection, templates and `console.error` are left out.
- LoanInput.LoanInputForm.OnLifeInsuranceToggle and AdvancedLoanInput.AdvancedLoanInputForm.OnLifeInsuranceToggle run after the two-way binding has written the toggle's new value into `isInsuranceRateEnabled`.
- The browser:
  - `document.cookie`, `document.location` and `isPlatformBrowser` are parameters.
  - The string `setCookie` assigns is a return value; how a browser's cookie jar stores an assignment is not modelled. `CookieService.StoreCookie` stands for the jar: a cookie of the same name is replaced in place, otherwise the new one is listed last; paths, expiry and the ordering by path length are not modelled. The browser's read is `CookieService.CookieListing`, the `n1=v1; n2=v2` listing. `ReadBackWrittenCookie` and `GivenConsentIsRead` apply the reader to the assignment string itself; `GivenConsentIsListed` goes through the jar and the listing.
  - The expiry date from `Date` is a parameter. A NaN `days` is not modelled, and `value || ''` is the identity on strings.
- `preventDefault` is the returned flag `defaultPrevented` of `LoanInput.LoanInputForm.OnlyNumbers`.
- LoanCalculator.CalculateFirstLinearPayment: a zero period, which gives a non-finite result in the source (Infinity for a positive amount, −Infinity for a negative one, NaN for a zero amount), is `None`.
- AmortizationTheory.LinearScheduleAmortizes and AmortizationTheory.VariableLinearAmortizes cover non-negative and positive amounts only; negative amounts make the `max(0, ...)` floor cut in.
- AmortizationTheory.VariableAnnuityAmortizes assumes fixedMonths <= totalPeriod. With more fixed months than the term, the fixed payment keeps running past the term, with the floor holding the balance at 0.
- Other parts of the application are not part of this model: PDF export and the download handlers, the currency service, picker and pipe, the cookie-consent banner, the translation-file merge script, the superseded duplicate of the advanced calculator, bootstrap and routes, the menu and locale lists, and the page title.
