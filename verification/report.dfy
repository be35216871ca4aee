/** The report printed after matching, as records instead of text: for every
    lot in purchase order, one row per allocation it holds and, when at least
    Dust of it is left, one carry-forward row for later tax years. */
module Report {
  import opened Records
  import opened Lifo

  datatype ReportRow =
    | AllocationRow(buyDate: int, currency: string, units: real, costBasis: real,
                    sellDate: int, proceeds: real, gainLoss: real, term: Term)
    | CarryForward(buyDate: int, currency: string, units: real, costBasis: real)

  /** The row of one allocation: cost basis is the units at the lot's unit
      price, proceeds are the cost basis plus the gain. */
  function AllocationRowOf(lot: Lot, g: GainLoss): (row: ReportRow)
    ensures row.AllocationRow? && row.units == g.unitsSold && row.gainLoss == g.amount
    ensures row.costBasis == g.unitsSold * lot.unitPrice
    ensures row.proceeds - row.costBasis == g.amount
    ensures row.buyDate == lot.buyDate && row.currency == lot.currency
    ensures row.sellDate == g.sellDate && row.term == g.term
  {
    AllocationRow(lot.buyDate, lot.currency, g.unitsSold, g.unitsSold * lot.unitPrice,
                  g.sellDate, g.unitsSold * lot.unitPrice + g.amount, g.amount, g.term)
  }

  /** The proceeds column of an allocation's row is what its units fetched
      at the sell's unit price. */
  lemma AllocationRowProceeds(lot: Lot, sale: Sale, units: real)
    ensures AllocationRowOf(lot, Allocation(lot, sale, units)).proceeds == units * sale.unitPrice
  {
    AllocationBalances(lot, sale, units);
  }

  /** One row per allocation of the lot, in the order they were recorded. */
  function AllocationRows(lot: Lot): seq<ReportRow>
  {
    seq(|lot.gainLoss|, k requires 0 <= k < |lot.gainLoss| => AllocationRowOf(lot, lot.gainLoss[k]))
  }

  /** The rows of one lot: its allocations, then a carry-forward row exactly
      when at least Dust of it is left, showing what is left at its cost. */
  function LotRows(lot: Lot): (rows: seq<ReportRow>)
    ensures |rows| == |lot.gainLoss| + (if lot.remaining >= Dust then 1 else 0)
    ensures rows[..|lot.gainLoss|] == AllocationRows(lot)
    ensures forall k :: 0 <= k < |rows| ==> (rows[k].CarryForward? <==> k == |lot.gainLoss|)
    ensures lot.remaining >= Dust ==>
      var carry := rows[|rows| - 1];
      carry.buyDate == lot.buyDate && carry.currency == lot.currency
      && carry.units == lot.remaining && carry.costBasis == lot.remaining * lot.unitPrice
  {
    AllocationRows(lot) + CarryRows(lot)
  }

  /** The carry-forward row of a lot, if it gets one. */
  function CarryRows(lot: Lot): (rows: seq<ReportRow>)
    ensures |rows| == if lot.remaining >= Dust then 1 else 0
    ensures rows != [] ==> rows[0].CarryForward? && rows[0].units == lot.remaining
  {
    if lot.remaining >= Dust
    then [CarryForward(lot.buyDate, lot.currency, lot.remaining, lot.remaining * lot.unitPrice)]
    else []
  }

  /** The rows of a list of lots, lot after lot. */
  function Rows(lots: seq<Lot>): seq<ReportRow>
  {
    if lots == [] then [] else LotRows(lots[0]) + Rows(lots[1..])
  }

  /** The report over the buy list, which holds the lots newest first:
      the list is reversed so that lots appear in purchase order. */
  function ReportOf(buys: seq<Lot>): seq<ReportRow>
  {
    Rows(Reverse(buys))
  }

  /** Sum of the units column. */
  function SumRowUnits(rows: seq<ReportRow>): real
  {
    if rows == [] then 0.0 else rows[0].units + SumRowUnits(rows[1..])
  }

  /** Units a lot keeps below the Dust threshold, which no row shows. */
  function DustLeft(lot: Lot): real
  {
    if lot.remaining >= Dust then 0.0 else lot.remaining
  }

  function SumDustLeft(lots: seq<Lot>): real
  {
    if lots == [] then 0.0 else DustLeft(lots[0]) + SumDustLeft(lots[1..])
  }

  function SumOriginalUnits(lots: seq<Lot>): real
  {
    if lots == [] then 0.0 else lots[0].originalUnits + SumOriginalUnits(lots[1..])
  }

  lemma {:induction false} SumRowUnitsAppend(a: seq<ReportRow>, b: seq<ReportRow>)
    ensures SumRowUnits(a + b) == SumRowUnits(a) + SumRowUnits(b)
  {
    if a != [] {
      assert (a + b)[1..] == a[1..] + b;
      SumRowUnitsAppend(a[1..], b);
    } else {
      assert a + b == b;
    }
  }

  lemma {:induction false} AllocationRowUnits(lot: Lot, n: nat)
    requires n <= |lot.gainLoss|
    ensures SumRowUnits(AllocationRows(lot)[..n]) == SumUnits(lot.gainLoss[..n])
  {
    if n > 0 {
      var rows := AllocationRows(lot);
      AllocationRowUnits(lot, n - 1);
      assert rows[..n] == rows[..n - 1] + [rows[n - 1]];
      SumRowUnitsAppend(rows[..n - 1], [rows[n - 1]]);
      assert lot.gainLoss[..n][..n - 1] == lot.gainLoss[..n - 1];
    }
  }

  /** The units column of a lot's rows accounts for every unit bought,
      except a remainder below Dust, which is not reported. */
  lemma {:induction false} LotRowsAccountForUnits(lot: Lot)
    requires LotInvariant(lot)
    ensures SumRowUnits(LotRows(lot)) + DustLeft(lot) == lot.originalUnits
  {
    var n := |lot.gainLoss|;
    var allocs := AllocationRows(lot);
    var carry := CarryRows(lot);
    SumRowUnitsAppend(allocs, carry);
    AllocationRowUnits(lot, n);
    assert lot.gainLoss[..n] == lot.gainLoss && allocs[..n] == allocs;
  }

  /** Over a whole report the units column adds up to every unit bought,
      less the Dust-sized remainders. */
  lemma {:induction false} RowsAccountForUnits(lots: seq<Lot>)
    requires forall k :: 0 <= k < |lots| ==> LotInvariant(lots[k])
    ensures SumRowUnits(Rows(lots)) + SumDustLeft(lots) == SumOriginalUnits(lots)
  {
    if lots != [] {
      LotRowsAccountForUnits(lots[0]);
      RowsAccountForUnits(lots[1..]);
      SumRowUnitsAppend(LotRows(lots[0]), Rows(lots[1..]));
    }
  }
}
