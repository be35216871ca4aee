/** Values of the cost-basis calculator: the constants the matcher uses, the
    allocation record (GainLoss), the value of a buy lot (Lot) and of a sell
    (Sale) at one moment, and the invariants every lot and sale keeps. */
module Records {

  /** Smallest unit of BTC, ETH and LTC (10^-8): a lot whose remaining units
      are below it is treated as used up. */
  const Dust: real := 1.0 / 100000000.0

  /** A holding of strictly more than this many days is long term. */
  const LongTermDays: int := 365

  /** The tax year, as day numbers counted from 1970-01-01:
      2017-01-01 is day 17167 and 2018-01-01 is day 17532. */
  const TaxYearStart: int := 17167
  const TaxYearEnd: int := 17532

  datatype Term = ShortTerm | LongTerm

  /** One allocation of a sell against a buy lot; a negative amount is a loss. */
  datatype GainLoss = GainLoss(sellDate: int, unitsSold: real, amount: real, term: Term)

  /** The state of one Asset (buy lot): its fixed attributes and what is left of it. */
  datatype Lot = Lot(currency: string, buyDate: int, originalUnits: real, amountSpent: real,
                     unitPrice: real, remaining: real, gainLoss: seq<GainLoss>)

  /** The state of one Sell. */
  datatype Sale = Sale(currency: string, sellDate: int, unitsSold: real, amount: real,
                       unitPrice: real, remaining: real)

  /** Only sells inside [2017-01-01, 2018-01-01) are matched. */
  predicate InTaxYear(day: int)
  {
    TaxYearStart <= day < TaxYearEnd
  }

  /** Holding-period classification: long term only when more than 365 days passed. */
  function HoldingPeriod(buyDate: int, sellDate: int): (t: Term)
    ensures sellDate - buyDate == LongTermDays ==> t == ShortTerm
    ensures sellDate - buyDate == LongTermDays + 1 ==> t == LongTerm
    ensures t == LongTerm ==> sellDate > buyDate
  {
    if sellDate - buyDate > LongTermDays then LongTerm else ShortTerm
  }

  /** Total units recorded as sold in a list of allocations. */
  function SumUnits(gl: seq<GainLoss>): real
  {
    if gl == [] then 0.0 else SumUnits(gl[..|gl| - 1]) + gl[|gl| - 1].unitsSold
  }

  lemma SumUnitsAppend(gl: seq<GainLoss>, g: GainLoss)
    ensures SumUnits(gl + [g]) == SumUnits(gl) + g.unitsSold
  {
    assert (gl + [g])[..|gl|] == gl;
  }

  /** Rule every allocation of a lot obeys: it has non-negative units, was
      sold in the tax year, no earlier than the lot was bought, and carries
      the holding period of its two dates. */
  predicate AllocationOk(lot: Lot, g: GainLoss)
  {
    g.unitsSold >= 0.0 && InTaxYear(g.sellDate) && lot.buyDate <= g.sellDate
    && g.term == HoldingPeriod(lot.buyDate, g.sellDate)
  }

  /** Invariant of a buy lot: the unit price was fixed from the purchase,
      0 <= remaining <= original units, and the original units are exactly
      the remaining units plus every unit recorded as sold. */
  predicate LotInvariant(lot: Lot)
  {
    lot.originalUnits > 0.0
    && lot.unitPrice == lot.amountSpent / lot.originalUnits
    && 0.0 <= lot.remaining <= lot.originalUnits
    && lot.originalUnits == lot.remaining + SumUnits(lot.gainLoss)
    && forall k :: 0 <= k < |lot.gainLoss| ==> AllocationOk(lot, lot.gainLoss[k])
  }

  /** Invariant of a sell: unit price fixed from the sale, 0 <= remaining <= units sold. */
  predicate SaleInvariant(sale: Sale)
  {
    sale.unitsSold > 0.0
    && sale.unitPrice == sale.amount / sale.unitsSold
    && 0.0 <= sale.remaining <= sale.unitsSold
  }

  /** A later state of the same lot: fixed attributes equal, remaining units
      never larger, allocations only appended. */
  predicate Evolves(before: Lot, after: Lot)
  {
    after.currency == before.currency && after.buyDate == before.buyDate
    && after.originalUnits == before.originalUnits && after.amountSpent == before.amountSpent
    && after.unitPrice == before.unitPrice
    && after.remaining <= before.remaining
    && before.gainLoss <= after.gainLoss
  }

  /** A later state of the same sell: only the remaining units may have gone down. */
  predicate SaleEvolves(before: Sale, after: Sale)
  {
    after == before.(remaining := after.remaining) && after.remaining <= before.remaining
  }

  /** Value of a freshly constructed Asset. */
  function NewLot(currency: string, buyDate: int, units: real, amountSpent: real): (lot: Lot)
    requires units > 0.0
    ensures LotInvariant(lot)
    ensures lot.unitPrice * units == amountSpent
    ensures lot.remaining == lot.originalUnits == units && lot.gainLoss == []
  {
    Lot(currency, buyDate, units, amountSpent, amountSpent / units, units, [])
  }

  /** Value of a freshly constructed Sell. */
  function NewSale(sellDate: int, currency: string, units: real, amount: real): (sale: Sale)
    requires units > 0.0
    ensures SaleInvariant(sale)
    ensures sale.unitPrice * units == amount
    ensures sale.remaining == sale.unitsSold == units
  {
    Sale(currency, sellDate, units, amount, amount / units, units)
  }

  /** The list in the opposite order (Ruby's Array#reverse). */
  function Reverse<T>(s: seq<T>): (r: seq<T>)
    ensures |r| == |s|
  {
    if s == [] then [] else Reverse(s[1..]) + [s[0]]
  }

  lemma {:induction false} ReverseAt<T>(s: seq<T>, k: nat)
    requires k < |s|
    ensures Reverse(s)[k] == s[|s| - 1 - k]
  {
    if k < |s| - 1 {
      ReverseAt(s[1..], k);
    }
  }

  /** Appending an element at the end reverses to putting it in front
      (Ruby's Array#unshift). */
  lemma {:induction false} ReverseSnoc<T>(s: seq<T>, x: T)
    ensures Reverse(s + [x]) == [x] + Reverse(s)
  {
    if s != [] {
      assert (s + [x])[1..] == s[1..] + [x];
      ReverseSnoc(s[1..], x);
    } else {
      assert s + [x] == [x];
    }
  }
}
