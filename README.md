# Bond duration analytics, modelled in Dafny

This project models the bond-analytics core of a fixed-income dashboard. It also proves properties of that model.

- **The duration engine** (`src/utils/duration.ts`):
  - bond price, the cash-flow schedule, and the Macaulay, modified and dollar durations and convexity;
  - price-change estimates and the price-yield curve;
  - bond comparison, key-rate and effective duration;
  - portfolio duration, zero-coupon duration, the duration gap and the immunisation check.
- **The closed-form curve metrics** (`src/utils/historical-data.ts`). These cover the table of sixteen dated Treasury curves and `calculateMetricsForCurve`.
- **The historical-rates route** (`src/app/api/treasury/historical/route.ts`). It does the following, in order:
  - parses three rate series;
  - joins them by date;
  - computes the 2s10s spread;
  - sorts by date;
  - down-samples to about 100 points;
  - falls back to sample data.
- **The bond-comparison panel** (`src/components/BondComparison.tsx`):
  - adding, removing and editing bonds;
  - per-bond results;
  - radar normalisation;
  - the "highest duration" and "duration spread" insights.
- **The yield-curve shape indicator, historical viewer and animation** (`src/components/*.tsx`):
  - their spread thresholds and labels;
  - the snapshot of a selected date;
  - the clamped timeline navigation shared by the viewer and the animation.

JavaScript numbers are Dafny `real`s, so the arithmetic is exact. A division the source performs is guarded by a `requires` on its divisor:

- `frequency > 0`;
- `1 + ytm/frequency != 0`;
- `price != 0`.

The loops of the source are `method`s, proved against recursive specification functions. The React state of the three components is one `class` per component, with one method per handler.

Modules:

| module | file | models |
|---|---|---|
| `Duration` | Duration.dfy | `calculateBondPrice`, `calculateDuration` and their specification functions |
| `DurationProperties` | DurationProperties.dfy | schedule shape, payments, metric identities |
| `PriceProperties` | PriceProperties.dfy | price agreement, par pricing, monotonicity in yield, Macaulay bounds, zero-coupon duration |
| `ParBond` | ParBond.dfy | closed forms of the par-bond and zero-coupon duration and convexity |
| `DurationAnalysis` | Analysis.dfy | the remaining functions of `duration.ts` |
| `HistoricalData` | HistoricalData.dfy | the curve table and `calculateMetricsForCurve` |
| `HistoricalSeries` | HistoricalSeries.dfy | the historical-rates route |
| `BondComparison` | BondComparison.dfy | the bond-comparison panel |
| `ShapeIndicator` | ShapeIndicator.dfy | the shape indicator |
| `Timeline` | Timeline.dfy | the index arithmetic of both timelines |
| `HistoricalViewer` | HistoricalViewer.dfy | the historical viewer |
| `CurveAnimation` | CurveAnimation.dfy | the curve animation |
| `Wrappers` | Wrappers.dfy | `Option` |

Behaviour of the code worth noting:

- The price-yield curve has a fixed 50 steps and reports yields in percent.
- The convexities of `calculateMetricsForCurve` are four times the engine's convexity at every non-zero rate (see Findings). The model keeps the program's values there and states the corrected ones separately.
- `dollarDuration` is modified duration × price / 100, which is the change for a 1% move, not for 1 bp.
- `calculateBondPrice` and `calculateDuration` disagree at zero periods.
  - `calculateBondPrice` still adds the face value.
  - The schedule of `calculateDuration` is empty.
- `calculateDuration` never adds the face value when the period count is not a whole number.

## Model

| member | source | states |
|---|---|---|
| Duration.Pow | src/utils/duration.ts:39-44 | `Math.pow` with a natural exponent: non-zero for a non-zero base, positive for a positive base |
| Duration.LoopCount | src/utils/duration.ts:39 | the number of iterations of `for (t = 1; t <= totalPeriods; t++)`: 0, or the largest whole number not above `totalPeriods` |
| Duration.WithYtm | src/utils/duration.ts:150 | re-pricing at another yield (`{ ...params, ytm }`) keeps the period count |
| Duration.CalculateBondPrice | src/utils/duration.ts:30-47 | the loop returns the coupon annuity plus the discounted face value, `BondPrice(p)`, for a whole period count |
| Duration.CalculateDuration | src/utils/duration.ts:50-104 | the single-pass loop returns exactly the results of the recursive schedule (price, sums, derived metrics, cash flows), one flow per iteration |
| Duration.AccumulatorStep | src/utils/duration.ts:62-82 | one iteration appends one flow and adds its present value, weighted value and convexity term to the three accumulators |
| Duration.FlowsLength | src/utils/duration.ts:71-77 | the schedule after k iterations has k flows |
| DurationProperties.FlowAt | src/utils/duration.ts:62-77 | the i-th pushed flow is the flow of period i+1 |
| DurationProperties.ScheduleShape | src/utils/duration.ts:62-77 | the reported cash flows have periods 1..n in order, `time = period/frequency` and `weightedPV = time * presentValue` |
| DurationProperties.WholeLoopCount | src/utils/duration.ts:33-62 | for a whole period count n ≥ 1 the loop runs exactly n times |
| DurationProperties.PaymentSchedule | src/utils/duration.ts:52-64 | every payment is the periodic coupon except the last, which is coupon plus face value |
| DurationProperties.FractionalPeriodsDropFace | src/utils/duration.ts:64 | when `years*frequency` is fractional, no flow carries the face value |
| DurationProperties.QuarterYearSemiAnnualIsEmpty | src/utils/duration.ts:62 | a 0.25-year semi-annual bond gets an empty schedule |
| DurationProperties.TotalsOfFlows | src/utils/duration.ts:62-82 | the accumulated price and weighted sum are the totals of the reported flows' `presentValue` and `weightedPV` |
| DurationProperties.MetricIdentities | src/utils/duration.ts:85-94 | Macaulay = Σ weightedPV / price, modified = Macaulay / (1 + ytm/f), dollar = modified × price / 100, convexity = convexity sum / (price (1 + ytm/f)²) |
| DurationProperties.DeriveFields | src/utils/duration.ts:85-103 | the derived fields satisfy those identities for any accumulated sums |
| PriceProperties.CouponPrefix | src/utils/duration.ts:62-64 | before the final period the schedule's present values are coupon present values only |
| PriceProperties.PricesAgree | src/utils/duration.ts:30-78 | for a whole period count n ≥ 1 the price of `calculateDuration` equals `calculateBondPrice` |
| PriceProperties.ZeroPeriodsDisagree | src/utils/duration.ts:44-62 | at zero maturity `calculateBondPrice` returns the face value while the schedule price is 0 |
| PriceProperties.AnnuityClosedForm | src/utils/duration.ts:39-41 | the coupon annuity has the geometric closed form r · A = 1 − (1+r)^−n |
| PriceProperties.CouponLeg | src/utils/duration.ts:39-41 | the coupon loop sums to coupon × annuity |
| PriceProperties.ParBondPrice | src/utils/duration.ts:30-47 | a bond whose coupon rate equals its yield is priced at its face value |
| PriceProperties.ParBondSchedulePrice | src/utils/duration.ts:62-78 | the same holds for the price `calculateDuration` reports |
| PriceProperties.PowStrictlyIncreasing | src/utils/duration.ts:40 | a larger discount base gives a larger discount factor |
| PriceProperties.PriceDecreasesInYield | src/utils/duration.ts:30-47 | with positive face and non-negative coupon, a strictly higher yield gives a strictly lower price |
| PriceProperties.PriceNonIncreasingInYield | src/utils/duration.ts:30-47 | and a higher-or-equal yield a lower-or-equal price |
| PriceProperties.MacaulayBounds | src/utils/duration.ts:62-85 | with non-negative flows, 1/frequency ≤ Macaulay duration ≤ maturity |
| PriceProperties.ZeroCouponSums | src/utils/duration.ts:62-82 | a zero-coupon bond's price is its discounted face value and its weighted sum is maturity × price |
| PriceProperties.ZeroCouponMacaulay | src/utils/duration.ts:85-88 | a zero-coupon bond's Macaulay duration is its maturity; its modified duration is maturity / (1 + ytm/f) |
| ParBond.ParPrice | src/utils/duration.ts:62-78 | a par bond over n whole periods runs n iterations and is priced at face value |
| ParBond.ParBondModifiedDuration | src/utils/duration.ts:85-88 | the engine's modified duration of a par bond equals its closed form in f, 1 + ytm/f and n |
| ParBond.ParBondConvexity | src/utils/duration.ts:80-94 | the engine's convexity of a par bond equals its closed form |
| ParBond.WholeResults | src/utils/duration.ts:85-94 | for n whole periods, the reported price, modified duration and convexity are the ratios of the three sums |
| ParBond.ZeroCouponPrice | src/utils/duration.ts:62-77 | a zero-coupon bond over n periods is priced at face / (1 + ytm/f)^n |
| ParBond.ZeroCouponConvexity | src/utils/duration.ts:80-94 | a zero-coupon bond's convexity is T (T + 1/f) / (1 + ytm/f)² |
| DurationAnalysis.PriceChange | src/utils/duration.ts:107-137 | dollar change = new price − price; percent change × price = dollar change × 100 |
| DurationAnalysis.PriceChangeAtZero | src/utils/duration.ts:107-137 | a 0 bp shock leaves the price unchanged, and dollar change, duration estimate and convexity estimate are 0 |
| DurationAnalysis.PriceChangeSign | src/utils/duration.ts:107-137 | a rise in yield lowers the price and a fall raises it |
| DurationAnalysis.GeneratePriceYieldCurve | src/utils/duration.ts:140-169 | the loop returns 51 points, point i being the re-priced bond at yield i of the grid with its duration tangent |
| DurationAnalysis.DefaultCurveDefined | src/utils/duration.ts:140-149 | with the default `yieldRange` of 0.04, the chart is defined for every priceable bond with whole periods and a non-negative yield |
| DurationAnalysis.CurveYieldsEvenlySpaced | src/utils/duration.ts:147-160 | the grid runs from max(0.001, ytm − range) to ytm + range in equal steps, reported ×100 |
| DurationAnalysis.CurveYieldBetween | src/utils/duration.ts:148-153 | every grid yield lies between the minimum and the maximum yield |
| DurationAnalysis.CurveEnds | src/utils/duration.ts:148-153 | the first yield is the minimum, the 51st the maximum |
| DurationAnalysis.CurveStep | src/utils/duration.ts:150-153 | consecutive yields differ by the step size |
| DurationAnalysis.CurveMonotone | src/utils/duration.ts:152-154 | along the curve the price is non-increasing as the yield rises |
| DurationAnalysis.CompareBonds | src/utils/duration.ts:172-174 | one result per bond, in order, each `calculateDuration` of that bond |
| DurationAnalysis.KeyRateIsEffective | src/utils/duration.ts:177-201 | key-rate duration is effective duration with a 1 bp bump, for every key rate |
| DurationAnalysis.KeyRateDuration | src/utils/duration.ts:177-189 | `calculateKeyRateDuration`: the key rate is ignored and every yield moves by 1 bp; KeyRateIsEffective proves it is EffectiveDuration at that bump for every key rate |
| DurationAnalysis.EffectiveDuration | src/utils/duration.ts:192-201 | `calculateEffectiveDuration`, the central difference of the price; EffectiveDurationPositive and EffectiveDurationSign prove it positive whenever the price falls as the yield rises |
| DurationAnalysis.DefaultBumpable | src/utils/duration.ts:192-200 | with the default `bumpSize` of 0.01, the effective duration is defined for every bond with whole periods, a non-negative yield, at least one payment a year and a non-zero price |
| DurationAnalysis.BondPricePositive | src/utils/duration.ts:30-47 | positive face, non-negative coupon and positive growth give a positive price |
| DurationAnalysis.CouponPVNonNegative | src/utils/duration.ts:39-41 | non-negative coupons have a non-negative present value |
| DurationAnalysis.EffectiveDurationPositive | src/utils/duration.ts:192-201 | effective duration is positive for positive face and non-negative coupon |
| DurationAnalysis.EffectiveDurationSign | src/utils/duration.ts:192-201 | it is positive whenever the price falls as the yield rises |
| DurationAnalysis.CalculatePortfolioDuration | src/utils/duration.ts:204-215 | the loop returns Σ weight × modified duration |
| DurationAnalysis.DotBounds | src/utils/duration.ts:209-212 | a non-negatively weighted sum of durations in [lo, hi] lies between lo and hi times the total weight |
| DurationAnalysis.PortfolioDurationBounds | src/utils/duration.ts:204-215 | so does the portfolio duration |
| DurationAnalysis.DotAppend | src/utils/duration.ts:209-212 | the weighted sum over a concatenation is the sum of the parts |
| DurationAnalysis.WeightedDurationAppend | src/utils/duration.ts:204-215 | the portfolio duration of two merged portfolios is the sum of theirs |
| DurationAnalysis.ZeroCouponAgreement | src/utils/duration.ts:218-228 | the shortcut's Macaulay duration is the engine's; its modified duration is the engine's exactly when the yield is 0 |
| DurationAnalysis.ZeroCouponDuration | src/utils/duration.ts:218-228 | `calculateZeroCouponDuration`; ZeroCouponAgreement proves its Macaulay duration is the engine's for a zero-coupon bond and its modified duration the engine's exactly at a zero yield |
| DurationAnalysis.DurationGapSign | src/utils/duration.ts:231-239 | gap × assets value = assets dollar duration − liabilities dollar duration, and the gap is zero or positive exactly when that difference is |
| DurationAnalysis.DurationGap | src/utils/duration.ts:231-239 | `calculateDurationGap`; DurationGapSign proves gap × assets value is the difference of the dollar durations, with its sign and zero |
| DurationAnalysis.ImmunizationWindow | src/utils/duration.ts:242-251 | gap = current − target, and immunised exactly when current lies within 0.1 of target |
| DurationAnalysis.ImmunizationDuration | src/utils/duration.ts:242-251 | `calculateImmunizationDuration`; ImmunizationWindow proves the gap is current − target and immunised means within 0.1 years |
| HistoricalData.TableShape | src/utils/historical-data.ts:15-225 | sixteen entries, each listing 3M, 1Y, 2Y, 5Y, 10Y, 30Y with strictly increasing years |
| HistoricalData.FirstIndex | src/utils/historical-data.ts:230-233 | the index of the first point with the maturity, or the length when there is none |
| HistoricalData.Find | src/utils/historical-data.ts:230-233 | `curve.find` returns none exactly when no point has the maturity, and otherwise a point with it |
| HistoricalData.RateOf | src/utils/historical-data.ts:230-233 | `?.rate \|\| 0`: 0 for a missing maturity, otherwise the rate of the first point that has it |
| HistoricalData.WellShapedRates | src/utils/historical-data.ts:15-233 | in a table entry the looked-up rates are those at positions 2 to 5 |
| HistoricalData.Dv01 | src/utils/historical-data.ts:264-265 | DV01 × 100 = duration |
| HistoricalData.CalcModDuration | src/utils/historical-data.ts:241-245 | `calcModDuration`; ModDurationMatchesEngine proves it is the engine's modified duration of the semi-annual par bond, rate 0 included |
| HistoricalData.CalcConvexityAsWritten | src/utils/historical-data.ts:253-258 | `calcConvexity` as written; ConvexityAsWrittenFourfold proves it is 4 × the engine's convexity off rate 0 and equal at 0, and ConvexityAsWrittenCounterexample gives 56/27 against 14/27 |
| HistoricalData.CalcConvexity | src/utils/historical-data.ts:253-258 | the corrected convexity (÷ frequency² = 4); ConvexityMatchesEngine proves it is the engine's par-bond convexity at every usable rate |
| HistoricalData.CalculateMetricsForCurve | src/utils/historical-data.ts:228-280 | each spread is negative exactly when the longer rate is below the shorter, DV01 × 100 = duration, 4 × average = sum of the four rates; the convexities are `calcConvexity` as written (their meaning is stated by MetricsMatchEngine) |
| HistoricalData.TableMetricsDefined | src/utils/historical-data.ts:15-233 | every table entry has rates the formulas can use |
| HistoricalData.ModDurationMatchesEngine | src/utils/historical-data.ts:241-245 | `calcModDuration(years, rate)` is exactly the engine's modified duration of a semi-annual par bond at rate/100, including rate 0 |
| HistoricalData.ConvexityMatchesEngine | src/utils/historical-data.ts:253-258 | the corrected convexity is exactly the engine's convexity of that par bond |
| HistoricalData.ConvexityAsWrittenFourfold | src/utils/historical-data.ts:253-258 | as written, off the zero rate, `calcConvexity` is four times the engine's convexity; at the zero rate it equals it |
| HistoricalData.ConvexityAsWrittenCounterexample | src/utils/historical-data.ts:253-258 | a one-year bond at 100%: 56/27 as written against 14/27 from the engine |
| HistoricalData.Dv01MatchesDollarDuration | src/utils/historical-data.ts:263-265 | for 100 of face the par bond prices at 100, and its dollar duration is 100 × DV01 |
| HistoricalData.MetricsMatchEngine | src/utils/historical-data.ts:228-280 | every duration and DV01 of the metrics is the engine's value for the par bond at that maturity; each convexity is 4 × the engine's convexity of that bond at a non-zero rate and equal to it at rate 0 |
| HistoricalData.CorrectedMetricsMatchEngine | src/utils/historical-data.ts:253-261 | the metrics with the corrected convexity differ from the program's only in the two convexities, which equal the engine's; the program's are 4 × those off rate 0 |
| HistoricalData.CorrectedMetricsForCurve | src/utils/historical-data.ts:228-280 | the metrics with the corrected convexity; CorrectedMetricsMatchEngine proves they differ from the program's only there, and equal the engine's |
| HistoricalSeries.ParseObservations | src/app/api/treasury/historical/route.ts:51-57 | keeps exactly the observations whose value parses to a number ('.' and NaN dropped) |
| HistoricalSeries.DatesOf | src/app/api/treasury/historical/route.ts:102-104 | the dates of a series, in order |
| HistoricalSeries.Distinct | src/app/api/treasury/historical/route.ts:101-105 | the `Set` of dates: the same members, each once |
| HistoricalSeries.LastValue | src/app/api/treasury/historical/route.ts:118-131 | the value a fill pass leaves for a date: present exactly when the series has the date, and then one of its observations |
| HistoricalSeries.LastObservationWins | src/app/api/treasury/historical/route.ts:118-131 | a later observation of a date overwrites the earlier ones and no other date |
| HistoricalSeries.FillColumn | src/app/api/treasury/historical/route.ts:118-131 | a fill pass keeps the map's keys and sets the column of each date to the series' last value for it |
| HistoricalSeries.InitialMap | src/app/api/treasury/historical/route.ts:107-115 | the map holds one empty point for each date of the union |
| HistoricalSeries.SpreadPass | src/app/api/treasury/historical/route.ts:134-140 | the pass pushes, in map order, every point with both 2Y and 10Y, with its spread |
| HistoricalSeries.MergeSeries | src/app/api/treasury/historical/route.ts:97-140 | the join returns `Merge` of the three series |
| HistoricalSeries.CollectEmitted | src/app/api/treasury/historical/route.ts:134-140 | every emitted point has 2Y and 10Y from its series, 30Y from DGS30 when present, and spread 10Y − 2Y |
| HistoricalSeries.CollectCovers | src/app/api/treasury/historical/route.ts:134-140 | a date is emitted exactly when it has both a 2Y and a 10Y observation |
| HistoricalSeries.AppendPoint | src/app/api/treasury/historical/route.ts:138 | a push adds exactly its own date to the emitted dates |
| HistoricalSeries.CollectDistinct | src/app/api/treasury/historical/route.ts:98-140 | no date is emitted twice |
| HistoricalSeries.MergeSpec | src/app/api/treasury/historical/route.ts:97-140 | the merged rows are distinct by date; a date appears iff both DGS2 and DGS10 have it; each row carries the right values and spread |
| HistoricalSeries.Merge | src/app/api/treasury/historical/route.ts:97-140 | the join as a value; MergeSpec proves its rows distinct by date, present exactly when DGS2 and DGS10 both have the date, with the series' values and spread 10Y − 2Y, and MergeSeries proves the map-based join equal to it |
| HistoricalSeries.Insert | src/app/api/treasury/historical/route.ts:143 | one insertion step keeps the same points |
| HistoricalSeries.InsertMembers | src/app/api/treasury/historical/route.ts:143 | an inserted list holds only the inserted point and the old points |
| HistoricalSeries.InsertSorted | src/app/api/treasury/historical/route.ts:143 | inserting keeps a list sorted by date |
| HistoricalSeries.InsertStrict | src/app/api/treasury/historical/route.ts:143 | inserting a new date keeps dates strictly ascending |
| HistoricalSeries.SortByDate | src/app/api/treasury/historical/route.ts:143 | the sort is a permutation ordered by date |
| HistoricalSeries.SortDistinct | src/app/api/treasury/historical/route.ts:143 | sorted rows with distinct dates are strictly ascending |
| HistoricalSeries.StepFor | src/app/api/treasury/historical/route.ts:149 | `Math.ceil(n / 100)`: the least step with n ≤ 100 × step |
| HistoricalSeries.EveryNthSpec | src/app/api/treasury/historical/route.ts:150 | the filter keeps exactly the elements at indices divisible by the step, in order |
| HistoricalSeries.Resample | src/app/api/treasury/historical/route.ts:146-155 | the filter loop and the last-point append return `Resampled` |
| HistoricalSeries.Multiples | src/app/api/treasury/historical/route.ts:150 | the kept indices 0, step, 2 step, … |
| HistoricalSeries.KeptSelected | src/app/api/treasury/historical/route.ts:150 | the filtered rows are the rows at those indices |
| HistoricalSeries.SelectAppend | src/app/api/treasury/historical/route.ts:152-154 | appending a later row keeps a selection by increasing indices |
| HistoricalSeries.LastKept | src/app/api/treasury/historical/route.ts:150-153 | the last kept index is n − 1 exactly when step divides n − 1 |
| HistoricalSeries.KeptCount | src/app/api/treasury/historical/route.ts:150 | the filter keeps ceil(n / step) rows |
| HistoricalSeries.ResampleLong | src/app/api/treasury/historical/route.ts:148-155 | over 100 rows, the result selects rows by strictly increasing indices, starting with the first and ending with the last |
| HistoricalSeries.ResampleSpec | src/app/api/treasury/historical/route.ts:146-155 | up to 100 rows are returned unchanged; longer lists become an ordered selection of at most 101 rows with the first and last |
| HistoricalSeries.Resampled | src/app/api/treasury/historical/route.ts:145-155 | the resampling as a value; ResampleSpec proves ≤ 100 rows unchanged, otherwise an ordered selection of at most 101 rows with the first and last, and Resample proves the filter loop equal to it |
| HistoricalSeries.ResampleCount | src/app/api/treasury/historical/route.ts:149-150 | the filter keeps at most 100 rows |
| HistoricalSeries.CountBetween | src/app/api/treasury/historical/route.ts:150 | the count of multiples below n is determined by the quotient |
| HistoricalSeries.HistoricalRates | src/app/api/treasury/historical/route.ts:64-173 | sample data without an API key or when all three parsed series are empty; otherwise the resampled merge, with its total count |
| HistoricalSeries.SelectionOrdered | src/app/api/treasury/historical/route.ts:150-154 | a selection by increasing indices keeps only input rows and keeps strict ascent |
| HistoricalSeries.SortedMerge | src/app/api/treasury/historical/route.ts:143 | the sorted merge is strictly ascending and has the merge's rows |
| HistoricalSeries.LiveDataRows | src/app/api/treasury/historical/route.ts:97-163 | every returned row is a correctly joined row, the rows are strictly ascending by date, and there are at most 101 |
| HistoricalSeries.LiveDataCovers | src/app/api/treasury/historical/route.ts:97-148 | with at most 100 merged rows, a date is returned exactly when DGS2 and DGS10 both have it |
| HistoricalSeries.LiveData | src/app/api/treasury/historical/route.ts:97-155 | merge, sort by date, resample; LiveDataRows and LiveDataCovers prove the rows correctly joined, strictly ascending, at most 101, and complete when at most 100 |
| HistoricalSeries.SampleDataConsistent | src/app/api/treasury/historical/route.ts:176-190 | the sample rows are strictly ascending and complete |
| BondComparison.DigitChar | src/components/BondComparison.tsx:75 | a digit value below 10 becomes a decimal digit |
| BondComparison.NatToString | src/components/BondComparison.tsx:75 | the decimal numeral of a number: non-empty, all digits, no leading zero |
| BondComparison.NumeralRoundTrip | src/components/BondComparison.tsx:75 | reading the numeral back gives the number |
| BondComparison.NewBondName | src/components/BondComparison.tsx:75 | `Bond {count + 1}`: the prefix "Bond " then the numeral of count + 1 |
| BondComparison.IdsOf | src/components/BondComparison.tsx:87-106 | the ids of the list, in order |
| BondComparison.WithBondAdded | src/components/BondComparison.tsx:69-85 | appends exactly one bond (fresh id, name `Bond {len+1}`, params 1000/0.05/10/0.05/2) and keeps the others |
| BondComparison.AddWithinLimit | src/components/BondComparison.tsx:289 | the Add card (`bonds.length < 5`) is shown exactly when adding keeps the list at no more than five bonds |
| BondComparison.Without | src/components/BondComparison.tsx:89 | the filter keeps exactly the bonds with another id |
| BondComparison.WithBondRemoved | src/components/BondComparison.tsx:87-91 | with one bond, no change; otherwise exactly the bonds with another id remain |
| BondComparison.WithoutAbsent | src/components/BondComparison.tsx:89 | removing an absent id changes nothing |
| BondComparison.WithoutAt | src/components/BondComparison.tsx:89 | with unique ids, removal drops exactly that bond and keeps the order of the rest |
| BondComparison.RemoveKeepsOne | src/components/BondComparison.tsx:87-91 | removal never empties the list and drops at most one bond |
| BondComparison.WithParam | src/components/BondComparison.tsx:101-103 | setting a parameter changes that key only |
| BondComparison.Apply | src/components/BondComparison.tsx:95-104 | a rename changes only the name; a parameter edit changes only that parameter; the id stays |
| BondComparison.WithBondUpdated | src/components/BondComparison.tsx:93-108 | bonds with another id are unchanged, matching bonds get the edit, and ids are kept |
| BondComparison.EditsKeepIdsUnique | src/components/BondComparison.tsx:69-108 | add (with a fresh id), remove and update keep ids unique |
| BondComparison.WithoutUnique | src/components/BondComparison.tsx:89 | filtering keeps ids unique |
| BondComparison.BondList.constructor | src/components/BondComparison.tsx:30-64 | the list starts as the three default bonds |
| BondComparison.BondList.AddBond | src/components/BondComparison.tsx:69-85 | the new list is the list with the bond added; a fresh id keeps it valid |
| BondComparison.BondList.RemoveBond | src/components/BondComparison.tsx:87-91 | the new list is the list with the bond removed, and stays non-empty with unique ids |
| BondComparison.BondList.UpdateBond | src/components/BondComparison.tsx:93-108 | the new list is the list with the edit applied, and stays valid |
| BondComparison.ParamsOf | src/components/BondComparison.tsx:111-114 | the parameters of each bond, in order |
| BondComparison.ResultsOf | src/components/BondComparison.tsx:111-114 | one result per bond, in order, holding the bond and `calculateDuration` of its params |
| BondComparison.MaxOf | src/components/BondComparison.tsx:413 | `Math.max`: an upper bound that is one of the values |
| BondComparison.MinOf | src/components/BondComparison.tsx:414 | `Math.min`: a lower bound that is one of the values |
| BondComparison.NormalisedBounds | src/components/BondComparison.tsx:125-172 | value / max × 100: the maximal bond scores 100, non-negative values score within [0, 100], order is preserved |
| BondComparison.Normalised | src/components/BondComparison.tsx:129-168 | value / max × 100 per bond, one score per bond; NormalisedBounds proves 100 at the maximum, [0, 100] for non-negative values and order kept |
| BondComparison.ScoreBounds | src/components/BondComparison.tsx:129 | one score: 100 at the maximum, within [0, 100] for a non-negative value |
| BondComparison.ScoreOrder | src/components/BondComparison.tsx:129 | scores keep the order of the values |
| BondComparison.ModifiedDurations | src/components/BondComparison.tsx:128-130 | the modified durations of the results, in order |
| BondComparison.Convexities | src/components/BondComparison.tsx:137-139 | the convexities of the results, in order |
| BondComparison.Prices | src/components/BondComparison.tsx:146-148 | the prices of the results, in order |
| BondComparison.CouponRates | src/components/BondComparison.tsx:155-157 | the coupon rates of the bonds, in order |
| BondComparison.Ytms | src/components/BondComparison.tsx:164-166 | the yields of the bonds, in order |
| BondComparison.RadarData | src/components/BondComparison.tsx:125-172 | five rows, one per metric, each with one score per bond |
| BondComparison.HighestIndex | src/components/BondComparison.tsx:394-399 | the first result of the stable descending sort: a maximal index, with every earlier value strictly smaller |
| BondComparison.DurationSpread | src/components/BondComparison.tsx:412-415 | max − min ≥ 0, bounding every pairwise difference |
| BondComparison.DurationSpreadZero | src/components/BondComparison.tsx:412-415 | the spread is 0 exactly when all durations are equal |
| ShapeIndicator.KeySpreads | src/components/YieldCurveShapeIndicator.tsx:11-17 | 10Y − 2Y and 30Y − 3M of the first matching points, a missing maturity read as 0 |
| ShapeIndicator.ShapeLabel | src/components/YieldCurveShapeIndicator.tsx:20-71 | exactly one label: INVERTED iff s < 0, FLAT iff 0 ≤ s < 0.25, STEEP iff s > 1, NORMAL iff 0.25 ≤ s ≤ 1 |
| ShapeIndicator.RenderedWarning | src/components/YieldCurveShapeIndicator.tsx:92-97 | the recession warning is rendered exactly when the label is INVERTED |
| Timeline.StepBack | src/components/HistoricalYieldCurveViewer.tsx:235 | `max(0, i − 1)`: one back, never below 0, and stays in range |
| Timeline.StepForward | src/components/HistoricalYieldCurveViewer.tsx:256 | `min(len − 1, i + 1)`: one forward, never past the last, and stays in range |
| Timeline.PlayPause | src/components/HistoricalYieldCurveViewer.tsx:243-248 | rewinds to 0 from the last index, flips the flag, and stays in range |
| Timeline.Tick | src/components/HistoricalYieldCurveViewer.tsx:65-73 | advances by one, or at the last index stays and stops, and stays in range |
| Timeline.TicksAdvance | src/components/HistoricalYieldCurveViewer.tsx:62-76 | started at i, after k ≤ len − 1 − i ticks the timeline shows i + k and still plays |
| Timeline.TicksStopAtEnd | src/components/HistoricalYieldCurveViewer.tsx:62-76 | after more ticks it rests on the last index, stopped |
| HistoricalViewer.SnapshotCurve | src/components/HistoricalYieldCurveViewer.tsx:86-95 | the conditional pushes give at most 3 points |
| HistoricalViewer.SnapshotCurvePoints | src/components/HistoricalYieldCurveViewer.tsx:86-95 | the points come in 2Y, 10Y, 30Y order with increasing years (2, 10, 30), each carrying the row's rate for its maturity |
| HistoricalViewer.SnapshotCurvePresence | src/components/HistoricalYieldCurveViewer.tsx:87-95 | each maturity is listed exactly when its rate is non-null |
| HistoricalViewer.SnapshotOf | src/components/HistoricalYieldCurveViewer.tsx:82-104 | the snapshot has the row's date and curve, spread = `spread2s10s` or 0, and flags inverted < 0, flat \|s\| < 0.25, steep > 1 |
| HistoricalViewer.SelectedSnapshot | src/components/HistoricalYieldCurveViewer.tsx:79-105 | null exactly without data or with the index past the end; otherwise the selected row's snapshot |
| HistoricalViewer.ShapeLabelOf | src/components/HistoricalYieldCurveViewer.tsx:107-112 | with flags taken from the spread, the label is the indicator's label of that spread |
| HistoricalViewer.ViewerMatchesIndicator | src/components/HistoricalYieldCurveViewer.tsx:100-112 | for every row the viewer and the indicator give the same label |
| HistoricalViewer.Viewer.constructor | src/components/HistoricalYieldCurveViewer.tsx:37-40 | no data, index 0, not playing |
| HistoricalViewer.Viewer.Load | src/components/HistoricalYieldCurveViewer.tsx:43-59 | the rows arrive and the last one is selected |
| HistoricalViewer.Viewer.SkipBack | src/components/HistoricalYieldCurveViewer.tsx:227 | selects index 0 and changes nothing else |
| HistoricalViewer.Viewer.Prev | src/components/HistoricalYieldCurveViewer.tsx:235 | clamped step back, play state untouched, stays in range |
| HistoricalViewer.Viewer.PlayPause | src/components/HistoricalYieldCurveViewer.tsx:243-248 | the timeline's play/pause transition, staying in range |
| HistoricalViewer.Viewer.Next | src/components/HistoricalYieldCurveViewer.tsx:256 | clamped step forward, play state untouched, stays in range |
| HistoricalViewer.Viewer.SkipForward | src/components/HistoricalYieldCurveViewer.tsx:264 | selects the last index and changes nothing else |
| HistoricalViewer.Viewer.Slide | src/components/HistoricalYieldCurveViewer.tsx:272-280 | stops playing and selects the slider value |
| HistoricalViewer.Viewer.Tick | src/components/HistoricalYieldCurveViewer.tsx:62-76 | while playing with data, the timeline's tick; otherwise nothing changes |
| HistoricalViewer.Viewer.Current | src/components/HistoricalYieldCurveViewer.tsx:79-105 | the selected row's snapshot, null exactly without data |
| CurveAnimation.ShapeOfSpread | src/components/YieldCurveAnimation.tsx:91-100 | Inverted iff s < −0.1, Flat iff −0.1 ≤ s < 0.2, Normal iff 0.2 ≤ s < 1, Steep iff s ≥ 1 |
| CurveAnimation.GetCurveShape | src/components/YieldCurveAnimation.tsx:91-100 | `getCurveShape`: ShapeOfSpread of the 10Y − 2Y spread from KeySpreads (first matching points, a missing rate read as 0) |
| CurveAnimation.ClassifiersDiffer | src/components/YieldCurveAnimation.tsx:96-99 | −0.05 is Flat here but INVERTED in the indicator; 1.0 is Steep here but NORMAL there; an inverted animation curve is an inverted indicator curve |
| CurveAnimation.Animation.constructor | src/components/YieldCurveAnimation.tsx:34-35 | index 0, not playing |
| CurveAnimation.Animation.HandlePlayPause | src/components/YieldCurveAnimation.tsx:68-73 | rewinds to 0 from the last frame, toggles playing, stays in range |
| CurveAnimation.Animation.HandleReset | src/components/YieldCurveAnimation.tsx:75-78 | index 0, not playing |
| CurveAnimation.Animation.HandlePrev | src/components/YieldCurveAnimation.tsx:80-83 | stops and steps back with clamping, staying in range |
| CurveAnimation.Animation.HandleNext | src/components/YieldCurveAnimation.tsx:85-88 | stops and steps forward with clamping, staying in range |
| CurveAnimation.Animation.Slide | src/components/YieldCurveAnimation.tsx:211-219 | stops and shows the slider's frame |
| CurveAnimation.Animation.Tick | src/components/YieldCurveAnimation.tsx:48-66 | while playing, the timeline's tick (advance, or stop at the last frame); otherwise nothing changes |

## Left out

- Network and server plumbing: `fetch`, `Promise.all`, the API key lookup and the `days` query parameter. The three series arrive as parameters, and the key's presence is a boolean.
- The `catch` of `GET` (sample data on an exception). Nothing in the model throws.
- The `source`, `timestamp` and `message` fields of the route's response. Only the data and the count are kept.
- Dates are integers (for example yyyymmdd) rather than strings parsed by `new Date`. Their order is the order of the integers.
- The in-place `Array.prototype.sort` is modelled on values, as an insertion sort by date. The route's filter is modelled by a loop.
- IEEE-754 rounding, NaN and Infinity are not modelled: numbers are exact reals. `toFixed` and all other formatting are left out.
- `calculateDuration` with `1 + ytm/frequency` zero or a zero price is not modelled. JavaScript would return Infinity or NaN; the model requires the divisor to be non-zero.
- Duration.CalculateBondPrice: modelled only for a whole period count. For a fractional count the source discounts the face value at a fractional power of a real, which is not a total operation on reals. This case does not affect `calculateDuration`, which is modelled for every real maturity.
- Three analytic properties of the estimates are not stated, because they concern limits and comparisons of real functions rather than anything the code computes:
  - the convexity estimate beats the duration estimate;
  - effective duration converges as the bump shrinks;
  - price asymmetry under ±Δy.
- The default arguments `yieldRange = 0.04` of `generatePriceYieldCurve` and `bumpSize = 0.01` of `calculateEffectiveDuration` are explicit parameters in the model. Their values are the constants `DefaultYieldRange` and `DefaultBump`.
- `comparisonData` (the bar chart's rows, with convexity divided by 10) is display scaling only.
- Radar entries are keyed by bond name through `Object.fromEntries`. The model keys scores by position, so two bonds with the same name do not collapse into one key.
- BondComparison.HighestIndex: models the "Highest Duration Risk" pick only. "Highest Convexity" sorts the already-sorted array a second time, so among equal convexities its tie-break follows duration order. The model states only that the named bond is maximal.
- `updateBond` with a string value for a parameter key, or an unknown key, is not modelled. An edit is either a rename or a numeric parameter.
- The 5-bond limit on adding (`bonds.length < 5` guards the Add button) is UI gating. The model states it as the predicate `CanAdd`; `AddBond` itself does not require it.
- `Date.now()` ids are a parameter of `AddBond`.
- HistoricalViewer.Viewer.Load: a failed load (which keeps the previous state) and the loading flag are not modelled.
- The animation's metrics panel is not modelled as a method. It is `calculateMetricsForCurve` of the current entry and the previous one, convexities as written included, whose properties `HistoricalData` proves.
- The animation's `animationSpeed` and `showMetrics` state and the timers' periods are left out.
- Rendering (JSX, colours, icons, chart markup) and the description texts other than the shape names and warnings are left out.

## Findings

| source | as written | input that shows it | evidently intended | confidence | as-written member | corrected member |
|---|---|---|---|---|---|---|
| src/utils/historical-data.ts:253-258 | for a non-zero rate, `calcConvexity` returns (2/y²)(1 − (1+y)^−n − n·y/(1+y)^(n+1)) with y the per-period yield. That is a convexity in periods squared, four times (frequency²) the value in years squared that `calculateDuration` reports. The zero-rate branch `years·(years+0.5)` is in years squared. | years = 1, rate = 100: as written 56/27, while `calculateDuration` of the same par bond gives 14/27 | the per-period formula divided by frequency² = 4, which equals the engine's convexity for every rate and agrees with the zero branch's unit | medium, not executed | HistoricalData.CalcConvexityAsWritten (HistoricalData.ConvexityAsWrittenFourfold, HistoricalData.ConvexityAsWrittenCounterexample, used by HistoricalData.CalculateMetricsForCurve) | HistoricalData.CalcConvexity (HistoricalData.ConvexityMatchesEngine, used by HistoricalData.CorrectedMetricsForCurve and HistoricalData.CorrectedMetricsMatchEngine) |
