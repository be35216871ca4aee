# LIFO cost basis for Coinbase exports, in Dafny

`cost_basis.rb` reads a Coinbase consolidated transaction report (CSV). It
turns every "Buy" row into an `Asset` (a buy lot) and every "Sell" row into a
`Sell`. It then matches each sell dated in 2017 against the lots, last in
first out, and records a `GainLoss` allocation on each lot it draws from.
Finally it prints one report row per allocation and one carry-forward row per
lot with units left for later tax years.

This project models that script and proves properties of the model:

- `records.dfy` (module `Records`): the constants (the 10^-8 dust threshold,
  the 365-day long-term boundary, the 2017 tax year as day numbers), the
  values of a `GainLoss`, a lot and a sell, the holding-period rule, and the
  invariants a lot and a sell keep (unit price fixed at construction,
  `0 <= remaining <= original`, original units equal to remaining units plus
  every unit allocated).
- `lifo.dfy` (module `Lifo`): the matching rule as functions on values. This
  is one visit of the inner loop (`Visit`), the scan of the buy list for one
  sell (`ScanLots`), and the pass over all sells (`ProcessSales`). Lemmas
  cover the units a scan takes (the smaller of the sell's remainder and the
  eligible units), LIFO order, eligibility, conservation of units, at most one partly
  consumed lot per sell, the equal-remainders edge case and invariant
  preservation.
- `report.dfy` (module `Report`): the printed report as a list of row
  records, and the fact that its units column accounts for every unit bought.
- `ingest.dfy` (module `Ingest`): the classification of split CSV rows and
  the order of the buy and sell lists that `unshift` produces.
- `cost_basis.dfy` (module `CostBasis`): the script itself. It has classes
  `Asset` and `Sell` whose remaining units and allocations change in place,
  list building with `unshift`, and the nested matching loops as methods
  with loop invariants. Each method is proved to compute the functions of
  `Lifo`, `Ingest` and `Report`, and `Run` is proved to produce
  `CostBasisReport`.

Quantities and money are exact `real`s; dates are integer day numbers
counted from 1970-01-01. Parsing a number field (`String#to_f`) and a date
field (`Date.strptime`) is outside the model: both are passed in as the
functions `number` and `day`.

## Model

| member | source | states |
|---|---|---|
| Records.HoldingPeriod | cost_basis.rb:152-155 | a holding of exactly 365 days is short term, one of 366 days is long term, and long term implies the sell came after the buy |
| Records.InTaxYear | cost_basis.rb:129 | the tax year is day 17167 (2017-01-01) up to but not including day 17532 (2018-01-01); the ensures of ProcessSale and OutOfYearSalesChangeNothing prove a sell outside it changes nothing |
| Records.NewLot | cost_basis.rb:51-59 | a new Asset satisfies the lot invariant, its unit price times its units is the amount spent, all its units remain and it has no allocations |
| Records.NewSale | cost_basis.rb:81-88 | a new Sell satisfies the sell invariant, its unit price times its units is the amount received, and all its units remain |
| Lifo.Eligible | cost_basis.rb:138-150 | a lot is considered for a sell when it was bought on or before the sell date, has the sell's currency, and holds at least 10^-8 units; ScanEffect and ScanNoEligible prove an ineligible lot is never allocated |
| Lifo.Allocation | cost_basis.rb:152-168 | an allocation records the sell's date and exactly the units allocated, and is long term iff the sell is more than 365 days after the buy |
| Lifo.AllocationBalances | cost_basis.rb:159 | cost basis plus gain of an allocation equals its units at the sell's unit price, i.e. amount = units × (sell price − buy price) |
| Lifo.AllocationIgnoresRemainder | cost_basis.rb:159-164 | an allocation depends only on the sell's date and price, not on how much of the sell is left |
| Lifo.ScanLots | cost_basis.rb:135-169 | scanning the buy list for one sell keeps the list's length and changes nothing of the sell except its remaining units; ScanTakesEligibleUnits and ScanUsesUpEligibleLots prove how many units it takes and which lots it empties |
| Lifo.ProcessSale | cost_basis.rb:128-131 | a sell outside [2017-01-01, 2018-01-01) leaves every lot and itself unchanged |
| Lifo.ProcessSales | cost_basis.rb:125-170 | the pass over all sells keeps the number of lots and of sells |
| Lifo.Visit | cost_basis.rb:136-168 | one visit changes only the sell's remaining units and leaves an ineligible lot (bought later, other currency, or below dust) untouched without stopping |
| Lifo.ScanFromIsScanLots | cost_basis.rb:135-169 | running the inner loop in place from position i gives the scan of the suffix and leaves the prefix alone |
| Lifo.ProcessFromIsProcessSales | cost_basis.rb:125-170 | running the outer loop in place from position i gives the pass over the remaining sells and leaves earlier sells alone |
| Lifo.ScanEffect | cost_basis.rb:136-168 | a scan leaves ineligible lots unchanged; an eligible lot is untouched or gets exactly one allocation, taking no more than it had; the sell's remainder never grows or goes negative |
| Lifo.ScanIsLifo | cost_basis.rb:133-169 | a lot is drawn from only after every eligible lot before it in the list has been used up, and nothing after a partly consumed lot is touched |
| Lifo.EarlierLotsUsedUp | cost_basis.rb:133-169 | if a lot changes in the scan, every eligible lot before it in the list is left with 0 units |
| Lifo.NothingAfterPartialLot | cost_basis.rb:158-162 | no lot after a partly consumed lot changes in the scan |
| Lifo.PartlyConsumedInRest | cost_basis.rb:158-162 | if the first lot is not partly consumed, some lot is partly consumed iff some later lot is |
| Lifo.ScanStopsIffPartial | cost_basis.rb:158-162 | the scan breaks iff it leaves some lot partly consumed |
| Lifo.PartialLotGivesRemainder | cost_basis.rb:158-162 | a partly consumed lot held more than the sell's remainder, gave exactly that remainder, and the sell's remaining units were not decremented |
| Lifo.ScanConservesUnits | cost_basis.rb:158-168 | the units taken from the lots equal the sell's whole remainder after a break, and otherwise the drop in the sell's remainder |
| Lifo.ScanTakesEligibleUnits | cost_basis.rb:135-168 | for a sell with a non-negative remainder, the units the scan takes from the lots are the smaller of that remainder and the units held by the lots eligible for it |
| Lifo.ScanUsesUpEligibleLots | cost_basis.rb:163-168 | a scan that never breaks leaves every lot that was eligible for the sell with 0 units |
| Lifo.EligibleUnitsNonNegative | cost_basis.rb:148-150 | the units held by the eligible lots are never negative, since each eligible lot holds at least 10^-8 units |
| Lifo.EligibleUnitsIgnoresRemainder | cost_basis.rb:138-150 | which lots are eligible does not depend on the sell's remaining units |
| Lifo.ScanNoEligible | cost_basis.rb:136-150 | a sell with no eligible lot changes no lot and not itself |
| Lifo.ScanSkipsFrom | cost_basis.rb:136-150 | ineligible lots from position i up to the first eligible lot pass through the scan unchanged |
| Lifo.ScanSkipsPrefix | cost_basis.rb:136-150 | lots before the first eligible lot pass through the scan unchanged |
| Lifo.ZeroAllocated | cost_basis.rb:158-162 | a visit with a sell remainder of 0 keeps the lot's units and appends a zero-unit, zero-amount allocation |
| Lifo.ExhaustedHeadStops | cost_basis.rb:158-162 | an eligible first lot visited by a sell with a remainder of 0 gets a zero-unit allocation and the scan breaks there |
| Lifo.ScanExhaustedSale | cost_basis.rb:158-162 | a sell whose remainder is already 0 gives its first eligible lot a zero-unit allocation and breaks, changing nothing else |
| Lifo.EqualHead | cost_basis.rb:158-168 | an eligible first lot holding exactly the sell's remainder is emptied, and the next eligible lot gets a zero-unit allocation and ends the scan |
| Lifo.EqualRemainders | cost_basis.rb:158-168 | when the first eligible lot holds exactly the sell's remainder, both drop to 0, the next eligible lot gets a zero-unit allocation, the scan breaks, and no other lot changes |
| Lifo.AllocatedKeepsInvariant | cost_basis.rb:158-168 | one allocation keeps the lot invariant (conservation, bounds, allocation dates and terms) and only lowers remaining units and appends |
| Lifo.ScanKeepsInvariants | cost_basis.rb:135-169 | the scan of an in-year sell keeps every lot's invariant, and the sell's, and only lets lots evolve |
| Lifo.ProcessSaleKeepsInvariants | cost_basis.rb:128-169 | matching one sell keeps every lot and sell invariant, lets lots and the sell only evolve, and leaves an out-of-year sell unchanged |
| Lifo.ProcessSalesKeepsInvariants | cost_basis.rb:125-170 | the whole pass keeps every lot and sell invariant, lots only lose units and gain allocations, sells only lose remaining units, and out-of-year sells are untouched |
| Lifo.OutOfYearSalesChangeNothing | cost_basis.rb:128-131 | sells that all fall outside the tax year leave the lots and the sells unchanged |
| Report.AllocationRowOf | cost_basis.rb:177 | an allocation's row shows the lot's buy date and currency, the units sold, cost basis = units × the lot's unit price, the sell date, proceeds = cost basis + gain, the gain and the term |
| Report.AllocationRowProceeds | cost_basis.rb:159-177 | the proceeds column of an allocation's row is its units at the sell's unit price |
| Report.AllocationRowUnits | cost_basis.rb:176-178 | for every n, the units column of a lot's first n allocation rows sums to the units sold by its first n allocations, so the rows carry exactly the units the lot has sold |
| Report.CarryRows | cost_basis.rb:180-182 | a lot gets one carry-forward row iff at least 10^-8 units remain, and it shows the remaining units |
| Report.LotRows | cost_basis.rb:176-182 | a lot's rows are exactly its allocation rows followed by a carry-forward row iff at least 10^-8 units remain; that row shows the lot's buy date, currency, remaining units and their cost at the lot's unit price |
| Report.Rows | cost_basis.rb:175-183 | the rows of each lot in list order; RowsAccountForUnits proves the units column accounts for every unit bought |
| Report.ReportOf | cost_basis.rb:174-183 | the report visits the buy list reversed, so lots appear in purchase order; ReportAccountsForPurchases proves this is Rows of the matched lots in input order |
| Report.SumRowUnitsAppend | cost_basis.rb:175-182 | the units column of two row lists, concatenated, is the sum of their columns |
| Report.LotRowsAccountForUnits | cost_basis.rb:176-182 | a lot's rows account for all the units bought, except a remainder below 10^-8 |
| Report.RowsAccountForUnits | cost_basis.rb:175-183 | over a list of lots, the units column plus the sub-dust remainders equals all units bought |
| Ingest.Classify | cost_basis.rb:109-120 | a row is skipped iff it has fewer than 8 fields or no digit in field 0; a kept row is a buy iff field 1 is "Buy", a sell iff field 1 is "Sell", and otherwise ignored |
| Ingest.BuyOf | cost_basis.rb:113 | a buy row's lot takes its date from field 0, currency from field 2, units from field 3 and amount spent from field 5, satisfies the lot invariant and has every unit left |
| Ingest.SellOf | cost_basis.rb:116 | a sell row's sell takes its date from field 0, currency from field 2, units from field 3 and proceeds from field 5, satisfies the sell invariant and has every unit left |
| Ingest.InputLots | cost_basis.rb:112-113 | the buys read so far are at most one per row, each a fresh lot satisfying the invariant with no allocations |
| Ingest.InputSales | cost_basis.rb:115-116 | the sells read so far are at most one per row, each a fresh sell satisfying the invariant with all units remaining |
| Ingest.BuysNewestFirstIsReversed | cost_basis.rb:112-114 | the buy list built with unshift is the buys in reverse input order |
| Ingest.SellsNewestFirstIsReversed | cost_basis.rb:115-117 | the sell list built with unshift is the sells in reverse input order |
| Ingest.TradeRowsStep | cost_basis.rb:109-117 | one more row adds one trade position iff it is a buy or a sell row |
| Ingest.RowsSplitIntoBuysAndSells | cost_basis.rb:106-121 | the buy and sell lists together hold exactly one entry per buy or sell row |
| CostBasis.Asset.constructor | cost_basis.rb:51-59 | a new Asset has the value NewLot of its arguments |
| CostBasis.Sell.constructor | cost_basis.rb:81-88 | a new Sell has the value NewSale of its arguments |
| CostBasis.DistinctAt | cost_basis.rb:114 | a list of distinct objects holds different objects at different positions |
| CostBasis.DistinctCons | cost_basis.rb:114 | putting an object not in the list in front keeps the list distinct |
| CostBasis.Lots | cost_basis.rb:102 | the values of a buy list are the current values of its Assets, position by position |
| CostBasis.Sales | cost_basis.rb:103 | the values of a sell list are the current values of its Sells, position by position |
| CostBasis.UnshiftBuy | cost_basis.rb:113-114 | the new list is a fresh Asset followed by the old list, still distinct, with values the buy row's lot followed by the old values |
| CostBasis.UnshiftSell | cost_basis.rb:116-117 | the new list is a fresh Sell followed by the old list, still distinct, with values the sell row's sale followed by the old values |
| CostBasis.ReadRow | cost_basis.rb:107-120 | after one row the lists hold the values BuysAfter and SellsAfter give, and each list is unchanged or has gained one fresh object in front |
| CostBasis.BuildLists | cost_basis.rb:102-121 | the lists built from all rows are distinct fresh objects whose values are the buys and sells newest first |
| CostBasis.VisitLot | cost_basis.rb:136-168 | one pass of the inner loop's body changes the lot and the sell exactly as Visit says, and reports the break |
| CostBasis.VisitAt | cost_basis.rb:135-169 | the inner loop's body at position i changes only that lot and the sell, as Visit says |
| CostBasis.MatchSell | cost_basis.rb:133-169 | the inner loop leaves the lots and the sell with exactly the values ScanLots gives |
| CostBasis.ScanStep | cost_basis.rb:135-169 | one iteration of the inner loop either breaks with the lots and sell at the scan's result, or advances the in-place scan to position i + 1 |
| CostBasis.MatchAt | cost_basis.rb:125-169 | one iteration of the outer loop leaves the lots and the i-th sell as ProcessSale gives, and no other sell changes |
| CostBasis.MatchSellAt | cost_basis.rb:133-169 | matching the sell at position i leaves the lots and that sell as ScanLots gives, and no other sell changes |
| CostBasis.MatchSells | cost_basis.rb:125-170 | the outer loop leaves the lots and sells with exactly the values ProcessSales gives |
| CostBasis.MatchedLots | cost_basis.rb:125-174 | the lots after the matching pass, in input order; MatchedLotsEvolve proves each keeps its invariant and evolves from its purchase |
| CostBasis.CostBasisReport | cost_basis.rb:102-183 | the report rows of a whole run; ReportAccountsForPurchases proves its units column accounts for every unit bought |
| CostBasis.Run | cost_basis.rb:102-183 | a whole run produces exactly the report rows of CostBasisReport |
| CostBasis.ReversedPassEvolves | cost_basis.rb:125-174 | matching the reversed lists of valid lots and sells, then reversing the lots back, keeps each lot's invariant and lets it only evolve, position by position |
| CostBasis.MatchedLotsEvolve | cost_basis.rb:125-170 | after matching, each lot (in input order) still satisfies the lot invariant and is its purchase with fewer or equal units and more allocations |
| CostBasis.ReportAccountsForPurchases | cost_basis.rb:172-183 | the report lists the matched lots in input order, and its units column plus sub-dust remainders equals all units bought |
| CostBasis.SameOriginalUnits | cost_basis.rb:174 | lists of lots with the same original units position by position have the same total original units |

## Behaviour kept as written

Two places where the script differs from an idealised matcher are modelled
as the code behaves:

- A partly consumed lot leaves the sell's remaining units undecremented
  (cost_basis.rb:158-162); see PartialLotGivesRemainder.
- A lot exactly as large as the sell's remainder is zeroed and the scan goes
  on, so the next eligible lot receives a zero-unit allocation
  (cost_basis.rb:163-168 then 158-162); see ScanExhaustedSale and
  EqualRemainders.

## Left out

- Opening and reading the file, its encoding option, `ARGV` and the usage message (cost_basis.rb:96-100, 105-106, 122): I/O.
- `line.split(',')`: rows are given already split into fields.
- `String#to_f`: number fields are turned into quantities by the parameter `number`.
- `Date.strptime`: date fields are turned into day numbers by the parameter `day`. Its exception on a malformed date is not modelled. Allocations and report rows carry day numbers where the script keeps the date strings.
- `to_s` (cost_basis.rb:61-66, 90-92) and the text of the report (cost_basis.rb:173-182): the report is a list of row records, not printed text.
- Floating-point rounding: quantities are exact reals, so the model does not capture results that differ only by `Float` rounding.
- The "Send" branch (cost_basis.rb:118-120) tests field 2 and does nothing; such rows are classified `Other` and ignored.
- CostBasis.Asset.constructor and CostBasis.Sell.constructor require a positive number of units, and a whole run requires `QuantitiesPositive`. The script divides by the units (cost_basis.rb:56, 86): a zero quantity gives an infinite or NaN unit price, which the model does not represent. The script also accepts a negative quantity without complaint; the model does not cover rows with negative quantities, since the lot and sell invariants (`0 <= remaining <= original`) do not hold for them.
