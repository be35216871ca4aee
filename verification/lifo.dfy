/** The LIFO matching rule on values: what one pass over the buy lots does
    for one sell, and what the pass over all sells does. The imperative
    matcher in cost_basis.dfy is proved to compute exactly these functions. */
module Lifo {
  import opened Records

  /** A lot is considered for a sell unless it was bought after the sell,
      holds another currency, or has less than Dust left. */
  predicate Eligible(lot: Lot, sale: Sale)
  {
    lot.buyDate <= sale.sellDate && lot.currency == sale.currency && lot.remaining >= Dust
  }

  /** The allocation recorded on `lot` when `units` of it go to `sale`. */
  function Allocation(lot: Lot, sale: Sale, units: real): (g: GainLoss)
    ensures g.sellDate == sale.sellDate && g.unitsSold == units
    ensures g.term == LongTerm <==> sale.sellDate - lot.buyDate > LongTermDays
  {
    GainLoss(sale.sellDate, units, units * (sale.unitPrice - lot.unitPrice),
             HoldingPeriod(lot.buyDate, sale.sellDate))
  }

  /** An allocation's gain is what its units fetched at the sell's unit
      price less what they cost at the lot's unit price. */
  lemma AllocationBalances(lot: Lot, sale: Sale, units: real)
    ensures var g := Allocation(lot, sale, units);
      g.unitsSold * lot.unitPrice + g.amount == units * sale.unitPrice
  {
  }

  /** An allocation depends on the sell's date and price, not on what is
      left of the sell. */
  lemma AllocationIgnoresRemainder(lot: Lot, sale: Sale, left: real, units: real)
    ensures Allocation(lot, sale.(remaining := left), units) == Allocation(lot, sale, units)
  {
  }

  /** Result of scanning the lots for one sell: the lots afterwards, the
      sell afterwards, and whether the scan stopped early (break). */
  datatype Scan = Scan(lots: seq<Lot>, sale: Sale, stopped: bool)

  /** One sell against the lots, in list order: each lot is visited in turn
      (Visit), the sell's remainder carried from visit to visit, until a
      visit breaks the scan or the list ends. */
  function ScanLots(lots: seq<Lot>, sale: Sale): (r: Scan)
    ensures |r.lots| == |lots|
    ensures r.sale == sale.(remaining := r.sale.remaining)
  {
    if lots == [] then Scan([], sale, false)
    else
      var step := Visit(lots[0], sale);
      if step.stop then Scan([step.lot] + lots[1..], step.sale, true)
      else
        var rest := ScanLots(lots[1..], step.sale);
        Scan([step.lot] + rest.lots, rest.sale, rest.stopped)
  }

  /** A sell outside the tax year is skipped; any other is scanned. */
  function ProcessSale(lots: seq<Lot>, sale: Sale): (r: Scan)
    ensures !InTaxYear(sale.sellDate) ==> r == Scan(lots, sale, false)
    ensures |r.lots| == |lots|
  {
    if !InTaxYear(sale.sellDate) then Scan(lots, sale, false) else ScanLots(lots, sale)
  }

  /** The lots and sells after the whole matching pass. */
  datatype Ledger = Ledger(lots: seq<Lot>, sales: seq<Sale>)

  /** Every sell in list order, each against the lots as the earlier ones left them. */
  function ProcessSales(lots: seq<Lot>, sales: seq<Sale>): (r: Ledger)
    ensures |r.lots| == |lots| && |r.sales| == |sales|
    decreases |sales|
  {
    if sales == [] then Ledger(lots, [])
    else
      var first := ProcessSale(lots, sales[0]);
      var rest := ProcessSales(first.lots, sales[1..]);
      Ledger(rest.lots, [first.sale] + rest.sales)
  }

  /** What the matcher does with one lot for one sell, and whether it then
      stops scanning. */
  datatype Step = Step(lot: Lot, sale: Sale, stop: bool)

  /** One visit of the matcher to a lot: an ineligible lot is passed over;
      a lot holding more than the sell's remainder gives that remainder and
      the scan stops; otherwise the lot gives all it has and is set to 0. */
  function Visit(lot: Lot, sale: Sale): (r: Step)
    ensures r.sale == sale.(remaining := r.sale.remaining)
    ensures !Eligible(lot, sale) ==> r == Step(lot, sale, false)
  {
    if !Eligible(lot, sale) then Step(lot, sale, false)
    else if lot.remaining > sale.remaining then
      Step(lot.(gainLoss := lot.gainLoss + [Allocation(lot, sale, sale.remaining)],
                remaining := lot.remaining - sale.remaining), sale, true)
    else
      Step(lot.(gainLoss := lot.gainLoss + [Allocation(lot, sale, lot.remaining)], remaining := 0.0),
           sale.(remaining := sale.remaining - lot.remaining), false)
  }

  /** The scan as the loop runs it: the lots are updated in place, position
      by position from `i` on, and positions before `i` are left as they are. */
  function ScanFrom(lots: seq<Lot>, i: nat, sale: Sale): (r: Scan)
    requires i <= |lots|
    decreases |lots| - i
  {
    if i == |lots| then Scan(lots, sale, false)
    else
      var step := Visit(lots[i], sale);
      if step.stop then Scan(lots[i := step.lot], step.sale, true)
      else ScanFrom(lots[i := step.lot], i + 1, step.sale)
  }

  /** The scan of a list is one visit to its first lot followed, unless
      that visit stops the scan, by the scan of the rest. */
  lemma ScanLotsStep(lots: seq<Lot>, sale: Sale)
    requires lots != []
    ensures var step, r := Visit(lots[0], sale), ScanLots(lots, sale);
      if step.stop then r == Scan([step.lot] + lots[1..], step.sale, true)
      else var rest := ScanLots(lots[1..], step.sale);
        r == Scan([step.lot] + rest.lots, rest.sale, rest.stopped)
  {
  }

  /** The in-place scan from position i computes the scan of the suffix and
      leaves the prefix alone. */
  lemma {:induction false} ScanFromIsScanLots(lots: seq<Lot>, i: nat, sale: Sale)
    requires i <= |lots|
    ensures var r := ScanLots(lots[i..], sale);
      ScanFrom(lots, i, sale) == Scan(lots[..i] + r.lots, r.sale, r.stopped)
    decreases |lots| - i
  {
    if i == |lots| {
      assert lots[..i] + [] == lots;
    } else {
      var step := Visit(lots[i], sale);
      var lots' := lots[i := step.lot];
      assert lots[i..][0] == lots[i] && lots[i..][1..] == lots[i + 1..];
      ScanLotsStep(lots[i..], sale);
      if step.stop {
        assert lots' == lots[..i] + ([step.lot] + lots[i + 1..]);
      } else {
        ScanFromIsScanLots(lots', i + 1, step.sale);
        var rest := ScanLots(lots[i + 1..], step.sale);
        assert lots'[i + 1..] == lots[i + 1..];
        assert lots'[..i + 1] + rest.lots == lots[..i] + ([step.lot] + rest.lots);
      }
    }
  }

  /** Started at the first lot, the in-place scan is the scan of the list. */
  lemma ScanFromStart(lots: seq<Lot>, sale: Sale)
    ensures ScanFrom(lots, 0, sale) == ScanLots(lots, sale)
  {
    ScanFromIsScanLots(lots, 0, sale);
    assert lots[..0] + ScanLots(lots, sale).lots == ScanLots(lots, sale).lots;
    assert lots[0..] == lots;
  }

  /** The pass over all sells as the loop runs it: each sell is replaced in
      place by its state after matching. */
  function ProcessFrom(lots: seq<Lot>, sales: seq<Sale>, i: nat): (r: Ledger)
    requires i <= |sales|
    decreases |sales| - i
  {
    if i == |sales| then Ledger(lots, sales)
    else
      var first := ProcessSale(lots, sales[i]);
      ProcessFrom(first.lots, sales[i := first.sale], i + 1)
  }

  /** The in-place pass from position i computes ProcessSales on the rest. */
  lemma {:induction false} ProcessFromIsProcessSales(lots: seq<Lot>, sales: seq<Sale>, i: nat)
    requires i <= |sales|
    ensures var r := ProcessSales(lots, sales[i..]);
      ProcessFrom(lots, sales, i) == Ledger(r.lots, sales[..i] + r.sales)
    decreases |sales| - i
  {
    if i == |sales| {
      assert sales[..i] + [] == sales;
    } else {
      var first := ProcessSale(lots, sales[i]);
      var sales' := sales[i := first.sale];
      assert sales[i..][0] == sales[i] && sales[i..][1..] == sales[i + 1..];
      ProcessFromIsProcessSales(first.lots, sales', i + 1);
      assert sales'[..i + 1] == sales[..i] + [first.sale];
      assert sales'[i + 1..] == sales[i + 1..];
    }
  }

  /** `after` is `before` with one allocation for `sale` appended and its
      remaining units reduced by exactly the units allocated. */
  predicate Allocated(before: Lot, after: Lot, sale: Sale)
  {
    |after.gainLoss| == |before.gainLoss| + 1
    && var g := after.gainLoss[|before.gainLoss|];
    && after == before.(remaining := before.remaining - g.unitsSold, gainLoss := before.gainLoss + [g])
    && g == Allocation(before, sale, g.unitsSold)
    && 0.0 <= g.unitsSold <= before.remaining
  }

  /** Sum of the remaining units of a list of lots. */
  function SumRemaining(lots: seq<Lot>): real
  {
    if lots == [] then 0.0 else lots[0].remaining + SumRemaining(lots[1..])
  }

  /** What a scan does to each lot: an ineligible lot is left exactly as it
      was, an eligible one is either untouched or gets one allocation; the
      sell's remainder never grows and never becomes negative. */
  lemma {:induction false} ScanEffect(lots: seq<Lot>, sale: Sale)
    requires sale.remaining >= 0.0
    ensures var r := ScanLots(lots, sale);
      0.0 <= r.sale.remaining <= sale.remaining
      && forall k :: 0 <= k < |lots| ==>
           r.lots[k] == lots[k] || (Eligible(lots[k], sale) && Allocated(lots[k], r.lots[k], sale))
  {
    if lots != [] {
      var b := lots[0];
      var r := ScanLots(lots, sale);
      if !Eligible(b, sale) {
        ScanEffect(lots[1..], sale);
      } else if b.remaining > sale.remaining {
        assert Allocated(b, r.lots[0], sale);
      } else {
        var sale' := sale.(remaining := sale.remaining - b.remaining);
        ScanEffect(lots[1..], sale');
        assert Allocated(b, r.lots[0], sale);
        forall k | 1 <= k < |lots|
          ensures r.lots[k] == lots[k] || (Eligible(lots[k], sale) && Allocated(lots[k], r.lots[k], sale))
        {
          assert r.lots[k] == ScanLots(lots[1..], sale').lots[k - 1];
          assert Eligible(lots[k], sale') == Eligible(lots[k], sale);
          forall u ensures Allocation(lots[k], sale', u) == Allocation(lots[k], sale, u) {
            AllocationIgnoresRemainder(lots[k], sale, sale'.remaining, u);
          }
        }
      }
    }
  }

  /** LIFO order within one sell: a lot is touched only after every eligible
      lot before it in the list has been used up, and at most one lot is left
      partly consumed, the last one touched. */
  lemma ScanIsLifo(lots: seq<Lot>, sale: Sale)
    ensures var r := ScanLots(lots, sale);
      forall j, k :: 0 <= j < k < |lots| && r.lots[k] != lots[k] && Eligible(lots[j], sale) ==>
        r.lots[j] != lots[j] && r.lots[j].remaining == 0.0
    ensures var r := ScanLots(lots, sale);
      forall j, k :: 0 <= j < k < |lots| && r.lots[j] != lots[j] && r.lots[j].remaining != 0.0 ==>
        r.lots[k] == lots[k]
  {
    EarlierLotsUsedUp(lots, sale);
    NothingAfterPartialLot(lots, sale);
  }

  /** A lot is touched only after every eligible lot before it is used up. */
  lemma {:induction false} EarlierLotsUsedUp(lots: seq<Lot>, sale: Sale)
    ensures var r := ScanLots(lots, sale);
      forall j, k :: 0 <= j < k < |lots| && r.lots[k] != lots[k] && Eligible(lots[j], sale) ==>
        r.lots[j] != lots[j] && r.lots[j].remaining == 0.0
  {
    if lots != [] {
      var b := lots[0];
      var step := Visit(b, sale);
      var r := ScanLots(lots, sale);
      if step.stop {
        assert r.lots[1..] == lots[1..];
        assert forall k :: 1 <= k < |lots| ==> r.lots[k] == lots[k];
      } else {
        var rest := ScanLots(lots[1..], step.sale);
        EarlierLotsUsedUp(lots[1..], step.sale);
        assert r.lots == [step.lot] + rest.lots;
        if Eligible(b, sale) {
          assert r.lots[0] != b && r.lots[0].remaining == 0.0 by {
            assert |r.lots[0].gainLoss| == |b.gainLoss| + 1;
          }
        }
        forall j, k | 0 <= j < k < |lots| && r.lots[k] != lots[k] && Eligible(lots[j], sale)
          ensures r.lots[j] != lots[j] && r.lots[j].remaining == 0.0
        {
          if j > 0 {
            assert r.lots[j] == rest.lots[j - 1] && r.lots[k] == rest.lots[k - 1];
            assert lots[j] == lots[1..][j - 1] && lots[k] == lots[1..][k - 1];
            assert Eligible(lots[j], step.sale);
          }
        }
      }
    }
  }

  /** No lot after a partly consumed one is touched. */
  lemma {:induction false} NothingAfterPartialLot(lots: seq<Lot>, sale: Sale)
    ensures var r := ScanLots(lots, sale);
      forall j, k :: 0 <= j < k < |lots| && r.lots[j] != lots[j] && r.lots[j].remaining != 0.0 ==>
        r.lots[k] == lots[k]
  {
    if lots != [] {
      var step := Visit(lots[0], sale);
      var r := ScanLots(lots, sale);
      if step.stop {
        assert r.lots[1..] == lots[1..];
        assert forall k :: 1 <= k < |lots| ==> r.lots[k] == lots[k];
      } else {
        var rest := ScanLots(lots[1..], step.sale);
        NothingAfterPartialLot(lots[1..], step.sale);
        assert forall k :: 1 <= k < |lots| ==> r.lots[k] == rest.lots[k - 1] && lots[k] == lots[1..][k - 1];
        assert r.lots[0] == lots[0] || r.lots[0].remaining == 0.0;
      }
    }
  }

  /** The lot ends partly consumed: it was touched and still holds units. */
  predicate PartlyConsumed(before: Lot, after: Lot)
  {
    after != before && after.remaining != 0.0
  }

  /** Some lot of the list is partly consumed. */
  predicate SomePartlyConsumed(before: seq<Lot>, after: seq<Lot>)
    requires |before| == |after|
  {
    exists k :: 0 <= k < |before| && PartlyConsumed(before[k], after[k])
  }

  /** When the first lot is not partly consumed, some lot is exactly when
      some lot of the rest is. */
  lemma PartlyConsumedInRest(before: seq<Lot>, after: seq<Lot>)
    requires |before| == |after| > 0 && !PartlyConsumed(before[0], after[0])
    ensures SomePartlyConsumed(before, after) <==> SomePartlyConsumed(before[1..], after[1..])
  {
    if SomePartlyConsumed(before, after) {
      var k :| 0 <= k < |before| && PartlyConsumed(before[k], after[k]);
      assert before[1..][k - 1] == before[k] && after[1..][k - 1] == after[k];
    }
    if SomePartlyConsumed(before[1..], after[1..]) {
      var k :| 0 <= k < |before| - 1 && PartlyConsumed(before[1..][k], after[1..][k]);
      assert PartlyConsumed(before[k + 1], after[k + 1]);
    }
  }

  /** The scan stops early exactly when it leaves some lot partly consumed. */
  lemma {:induction false} ScanStopsIffPartial(lots: seq<Lot>, sale: Sale)
    ensures var r := ScanLots(lots, sale);
      r.stopped <==> SomePartlyConsumed(lots, r.lots)
  {
    if lots != [] {
      var b := lots[0];
      var r := ScanLots(lots, sale);
      if !Eligible(b, sale) {
        ScanStopsIffPartial(lots[1..], sale);
        assert r.lots[1..] == ScanLots(lots[1..], sale).lots;
        PartlyConsumedInRest(lots, r.lots);
      } else if b.remaining > sale.remaining {
        assert |r.lots[0].gainLoss| == |b.gainLoss| + 1;
        assert PartlyConsumed(lots[0], r.lots[0]);
      } else {
        var sale' := sale.(remaining := sale.remaining - b.remaining);
        ScanStopsIffPartial(lots[1..], sale');
        assert r.lots[1..] == ScanLots(lots[1..], sale').lots;
        PartlyConsumedInRest(lots, r.lots);
      }
    }
  }

  /** A partly consumed lot held more than the sell's remainder, gave exactly
      that remainder, and the sell kept its remainder unchanged. */
  lemma {:induction false} PartialLotGivesRemainder(lots: seq<Lot>, sale: Sale, k: nat)
    requires k < |lots| && PartlyConsumed(lots[k], ScanLots(lots, sale).lots[k])
    ensures var r := ScanLots(lots, sale);
      lots[k].remaining > r.sale.remaining
      && r.lots[k].remaining == lots[k].remaining - r.sale.remaining
      && r.lots[k].gainLoss == lots[k].gainLoss + [Allocation(lots[k], sale, r.sale.remaining)]
  {
    var b := lots[0];
    var r := ScanLots(lots, sale);
    if k > 0 {
      assert lots[k] == lots[1..][k - 1];
      if !Eligible(b, sale) {
        assert r.lots[k] == ScanLots(lots[1..], sale).lots[k - 1];
        PartialLotGivesRemainder(lots[1..], sale, k - 1);
      } else if b.remaining > sale.remaining {
        assert false;
      } else {
        var sale' := sale.(remaining := sale.remaining - b.remaining);
        assert r.lots[k] == ScanLots(lots[1..], sale').lots[k - 1];
        PartialLotGivesRemainder(lots[1..], sale', k - 1);
        var t := ScanLots(lots[1..], sale');
        AllocationIgnoresRemainder(lots[k], sale, sale'.remaining, t.sale.remaining);
      }
    }
  }

  /** Units taken out of the lots equal the units matched for the sell: the
      sell's whole remainder when the scan stopped early, otherwise the drop
      of the sell's remainder. */
  lemma {:induction false} ScanConservesUnits(lots: seq<Lot>, sale: Sale)
    ensures var r := ScanLots(lots, sale);
      SumRemaining(lots) - SumRemaining(r.lots)
        == if r.stopped then sale.remaining else sale.remaining - r.sale.remaining
  {
    if lots != [] {
      var b := lots[0];
      var r := ScanLots(lots, sale);
      assert r.lots[1..] == ScanLots(lots, sale).lots[1..];
      if !Eligible(b, sale) {
        ScanConservesUnits(lots[1..], sale);
        assert r.lots[1..] == ScanLots(lots[1..], sale).lots;
      } else if b.remaining > sale.remaining {
        assert r.lots[1..] == lots[1..];
      } else {
        var sale' := sale.(remaining := sale.remaining - b.remaining);
        ScanConservesUnits(lots[1..], sale');
        assert r.lots[1..] == ScanLots(lots[1..], sale').lots;
      }
    }
  }

  /** Units of the lots a sell may draw from. */
  function EligibleUnits(lots: seq<Lot>, sale: Sale): real
  {
    if lots == [] then 0.0
    else (if Eligible(lots[0], sale) then lots[0].remaining else 0.0) + EligibleUnits(lots[1..], sale)
  }

  function Min(a: real, b: real): real
  {
    if a <= b then a else b
  }

  lemma {:induction false} EligibleUnitsNonNegative(lots: seq<Lot>, sale: Sale)
    ensures EligibleUnits(lots, sale) >= 0.0
  {
    if lots != [] {
      EligibleUnitsNonNegative(lots[1..], sale);
    }
  }

  lemma {:induction false} EligibleUnitsIgnoresRemainder(lots: seq<Lot>, sale: Sale, left: real)
    ensures EligibleUnits(lots, sale.(remaining := left)) == EligibleUnits(lots, sale)
  {
    if lots != [] {
      EligibleUnitsIgnoresRemainder(lots[1..], sale, left);
    }
  }

  /** The scan draws on the eligible lots until the sell is covered: the
      units it takes are the smaller of the sell's remainder and all the
      eligible units. */
  lemma {:induction false} ScanTakesEligibleUnits(lots: seq<Lot>, sale: Sale)
    requires sale.remaining >= 0.0
    ensures var r := ScanLots(lots, sale);
      SumRemaining(lots) - SumRemaining(r.lots) == Min(sale.remaining, EligibleUnits(lots, sale))
  {
    if lots != [] {
      var b := lots[0];
      var step := Visit(b, sale);
      var r := ScanLots(lots, sale);
      if step.stop {
        EligibleUnitsNonNegative(lots[1..], sale);
        assert r.lots[1..] == lots[1..];
      } else {
        var rest := ScanLots(lots[1..], step.sale);
        ScanTakesEligibleUnits(lots[1..], step.sale);
        EligibleUnitsIgnoresRemainder(lots[1..], sale, step.sale.remaining);
        assert r.lots[1..] == rest.lots;
      }
    }
  }

  /** A scan that does not stop early uses up every eligible lot. */
  lemma {:induction false} ScanUsesUpEligibleLots(lots: seq<Lot>, sale: Sale)
    ensures var r := ScanLots(lots, sale);
      !r.stopped ==> forall k :: 0 <= k < |lots| && Eligible(lots[k], sale) ==> r.lots[k].remaining == 0.0
  {
    if lots != [] {
      var step := Visit(lots[0], sale);
      if !step.stop {
        var r := ScanLots(lots, sale);
        var rest := ScanLots(lots[1..], step.sale);
        ScanUsesUpEligibleLots(lots[1..], step.sale);
        assert forall k :: 1 <= k < |lots| ==> r.lots[k] == rest.lots[k - 1] && lots[k] == lots[1..][k - 1];
      }
    }
  }

  /** A sell with no eligible lot changes nothing: no lot, no remainder. */
  lemma {:induction false} ScanNoEligible(lots: seq<Lot>, sale: Sale)
    requires forall k :: 0 <= k < |lots| ==> !Eligible(lots[k], sale)
    ensures ScanLots(lots, sale) == Scan(lots, sale, false)
  {
    if lots != [] {
      ScanNoEligible(lots[1..], sale);
      assert [lots[0]] + lots[1..] == lots;
    }
  }

  /** Lots from position i up to the first eligible one pass through the
      scan unchanged. */
  lemma {:induction false} ScanSkipsFrom(lots: seq<Lot>, sale: Sale, i: nat, e: nat)
    requires i <= e <= |lots|
    requires forall j :: i <= j < e ==> !Eligible(lots[j], sale)
    ensures var t := ScanLots(lots[e..], sale);
      ScanLots(lots[i..], sale) == Scan(lots[i..e] + t.lots, t.sale, t.stopped)
    decreases e - i
  {
    if i < e {
      ScanSkipsFrom(lots, sale, i + 1, e);
      var t := ScanLots(lots[e..], sale);
      assert lots[i..][0] == lots[i] && lots[i..][1..] == lots[i + 1..];
      ScanLotsStep(lots[i..], sale);
      assert [lots[i]] + (lots[i + 1..e] + t.lots) == lots[i..e] + t.lots;
    }
  }

  /** Lots before the first eligible one pass through the scan unchanged. */
  lemma ScanSkipsPrefix(lots: seq<Lot>, sale: Sale, e: nat)
    requires e <= |lots|
    requires forall j :: 0 <= j < e ==> !Eligible(lots[j], sale)
    ensures var t := ScanLots(lots[e..], sale);
      ScanLots(lots, sale) == Scan(lots[..e] + t.lots, t.sale, t.stopped)
  {
    ScanSkipsFrom(lots, sale, 0, e);
    assert lots[0..] == lots && lots[0..e] == lots[..e];
  }

  /** The allocation a lot receives from a sell whose remainder is already 0. */
  function ZeroAllocated(lot: Lot, sale: Sale): (after: Lot)
    ensures after.remaining == lot.remaining
    ensures after.gainLoss == lot.gainLoss + [GainLoss(sale.sellDate, 0.0, 0.0, HoldingPeriod(lot.buyDate, sale.sellDate))]
  {
    lot.(gainLoss := lot.gainLoss + [Allocation(lot, sale, 0.0)])
  }

  /** A sell whose remainder is 0 reaching an eligible lot gives it a
      zero-unit allocation and stops. */
  lemma ExhaustedHeadStops(lots: seq<Lot>, sale: Sale)
    requires sale.remaining == 0.0 && lots != [] && Eligible(lots[0], sale)
    ensures ScanLots(lots, sale) == Scan([ZeroAllocated(lots[0], sale)] + lots[1..], sale, true)
  {
    assert Visit(lots[0], sale) == Step(ZeroAllocated(lots[0], sale), sale, true);
  }

  /** Replacing one element is splitting the list around it. */
  lemma SpliceAt<T>(s: seq<T>, i: nat, x: T)
    requires i < |s|
    ensures s[..i] + ([x] + s[i + 1..]) == s[i := x]
  {
  }

  /** A sell whose remainder is 0 still gives the first eligible lot a
      zero-unit allocation, leaves every other lot alone, and stops. */
  lemma ScanExhaustedSale(lots: seq<Lot>, sale: Sale, f: nat)
    requires sale.remaining == 0.0
    requires f < |lots| && Eligible(lots[f], sale)
    requires forall j :: 0 <= j < f ==> !Eligible(lots[j], sale)
    ensures ScanLots(lots, sale) == Scan(lots[f := ZeroAllocated(lots[f], sale)], sale, true)
  {
    ScanSkipsPrefix(lots, sale, f);
    var tail := lots[f..];
    assert tail[0] == lots[f] && tail[1..] == lots[f + 1..];
    ExhaustedHeadStops(tail, sale);
    SpliceAt(lots, f, ZeroAllocated(lots[f], sale));
  }

  /** A lot holding exactly the sell's remainder is zeroed, the scan goes on
      with nothing left to sell, and the next eligible lot, at offset g,
      receives a zero-unit allocation that stops the scan. */
  lemma EqualHead(lots: seq<Lot>, sale: Sale, g: nat)
    requires 0 < g < |lots| && Eligible(lots[0], sale) && lots[0].remaining == sale.remaining
    requires forall j :: 0 < j < g ==> !Eligible(lots[j], sale)
    requires Eligible(lots[g], sale)
    ensures ScanLots(lots, sale)
      == Scan([Visit(lots[0], sale).lot] + lots[1..][g - 1 := ZeroAllocated(lots[g], sale)],
              sale.(remaining := 0.0), true)
  {
    var sale' := sale.(remaining := 0.0);
    var rest := lots[1..];
    assert Visit(lots[0], sale).sale == sale' && !Visit(lots[0], sale).stop;
    assert forall j :: 0 <= j < g - 1 ==> !Eligible(rest[j], sale') by {
      assert forall j :: 0 <= j < g - 1 ==> rest[j] == lots[j + 1];
    }
    ScanExhaustedSale(rest, sale', g - 1);
    AllocationIgnoresRemainder(lots[g], sale, 0.0, 0.0);
    assert ZeroAllocated(lots[g], sale') == ZeroAllocated(lots[g], sale);
  }

  /** Replacing two elements is splitting the list around both. */
  lemma SpliceTwo<T>(s: seq<T>, e: nat, f: nat, x: T, y: T)
    requires e < f < |s|
    ensures s[..e] + ([x] + s[e + 1..][f - e - 1 := y]) == s[e := x][f := y]
  {
    var t := s[..e] + ([x] + s[e + 1..][f - e - 1 := y]);
    forall j | 0 <= j < |s|
      ensures t[j] == s[e := x][f := y][j]
    {
      if j > e { assert t[j] == s[e + 1..][f - e - 1 := y][j - e - 1]; }
    }
  }

  /** When the first eligible lot holds exactly the sell's remainder, both
      drop to 0 and the scan goes on; the next eligible lot then receives a
      zero-unit, zero-amount allocation, keeps its units, and the scan stops. */
  lemma EqualRemainders(lots: seq<Lot>, sale: Sale, e: nat, f: nat)
    requires e < f < |lots|
    requires forall j :: 0 <= j < e ==> !Eligible(lots[j], sale)
    requires Eligible(lots[e], sale) && lots[e].remaining == sale.remaining
    requires forall j :: e < j < f ==> !Eligible(lots[j], sale)
    requires Eligible(lots[f], sale)
    ensures var r := ScanLots(lots, sale);
      r.lots[e].remaining == 0.0 && r.sale.remaining == 0.0
      && r.lots[f] == ZeroAllocated(lots[f], sale) && r.stopped
      && forall j :: 0 <= j < |lots| && j != e && j != f ==> r.lots[j] == lots[j]
  {
    var zeroed := Visit(lots[e], sale).lot;
    var tail := lots[e..];
    ScanSkipsPrefix(lots, sale, e);
    assert tail[0] == lots[e] && tail[1..] == lots[e + 1..] && tail[f - e] == lots[f];
    assert forall j :: 0 < j < f - e ==> tail[j] == lots[e + j];
    EqualHead(tail, sale, f - e);
    var changed := lots[e := zeroed][f := ZeroAllocated(lots[f], sale)];
    SpliceTwo(lots, e, f, zeroed, ZeroAllocated(lots[f], sale));
    var r := ScanLots(lots, sale);
    assert r.lots == changed;
    forall j | 0 <= j < |lots| && j != e && j != f
      ensures r.lots[j] == lots[j]
    {
      assert changed[j] == lots[j];
    }
  }

  /** One allocation keeps a lot's invariant: conservation, bounds, and the
      rule that every allocation is dated in the tax year, not before the
      purchase, with the right holding period. */
  lemma AllocatedKeepsInvariant(before: Lot, after: Lot, sale: Sale)
    requires LotInvariant(before) && Eligible(before, sale) && InTaxYear(sale.sellDate)
    requires Allocated(before, after, sale)
    ensures LotInvariant(after) && Evolves(before, after)
  {
    var g := after.gainLoss[|before.gainLoss|];
    SumUnitsAppend(before.gainLoss, g);
    assert forall k :: 0 <= k < |before.gainLoss| ==> after.gainLoss[k] == before.gainLoss[k];
  }

  /** A scan of an in-year sell keeps every lot's and the sell's invariant. */
  lemma ScanKeepsInvariants(lots: seq<Lot>, sale: Sale)
    requires forall k :: 0 <= k < |lots| ==> LotInvariant(lots[k])
    requires SaleInvariant(sale) && InTaxYear(sale.sellDate)
    ensures var r := ScanLots(lots, sale);
      SaleInvariant(r.sale) && SaleEvolves(sale, r.sale)
      && forall k :: 0 <= k < |lots| ==> LotInvariant(r.lots[k]) && Evolves(lots[k], r.lots[k])
  {
    ScanEffect(lots, sale);
    var r := ScanLots(lots, sale);
    forall k | 0 <= k < |lots|
      ensures LotInvariant(r.lots[k]) && Evolves(lots[k], r.lots[k])
    {
      if r.lots[k] != lots[k] {
        AllocatedKeepsInvariant(lots[k], r.lots[k], sale);
      }
    }
  }

  /** One step of the pass keeps every lot's and the sell's invariant, and
      leaves an out-of-year sell exactly as it was. */
  lemma ProcessSaleKeepsInvariants(lots: seq<Lot>, sale: Sale)
    requires forall k :: 0 <= k < |lots| ==> LotInvariant(lots[k])
    requires SaleInvariant(sale)
    ensures var r := ProcessSale(lots, sale);
      (forall k :: 0 <= k < |lots| ==> LotInvariant(r.lots[k]) && Evolves(lots[k], r.lots[k]))
      && SaleInvariant(r.sale) && SaleEvolves(sale, r.sale)
      && (!InTaxYear(sale.sellDate) ==> r.sale == sale)
  {
    if InTaxYear(sale.sellDate) {
      ScanKeepsInvariants(lots, sale);
    }
  }

  /** The whole matching pass keeps every lot's and every sell's invariant;
      lots only lose units and gain allocations; a sell outside the tax
      year is left exactly as it was. */
  lemma {:induction false} ProcessSalesKeepsInvariants(lots: seq<Lot>, sales: seq<Sale>)
    requires forall k :: 0 <= k < |lots| ==> LotInvariant(lots[k])
    requires forall k :: 0 <= k < |sales| ==> SaleInvariant(sales[k])
    ensures var r := ProcessSales(lots, sales);
      (forall k :: 0 <= k < |lots| ==> LotInvariant(r.lots[k]) && Evolves(lots[k], r.lots[k]))
      && (forall k :: 0 <= k < |sales| ==> SaleInvariant(r.sales[k]) && SaleEvolves(sales[k], r.sales[k]))
      && (forall k :: 0 <= k < |sales| && !InTaxYear(sales[k].sellDate) ==> r.sales[k] == sales[k])
    decreases |sales|
  {
    if sales != [] {
      var first := ProcessSale(lots, sales[0]);
      ProcessSaleKeepsInvariants(lots, sales[0]);
      ProcessSalesKeepsInvariants(first.lots, sales[1..]);
      var rest := ProcessSales(first.lots, sales[1..]);
      var r := ProcessSales(lots, sales);
      assert r == Ledger(rest.lots, [first.sale] + rest.sales);
      forall k | 0 <= k < |sales|
        ensures SaleInvariant(r.sales[k]) && SaleEvolves(sales[k], r.sales[k])
        ensures !InTaxYear(sales[k].sellDate) ==> r.sales[k] == sales[k]
      {
        if k > 0 {
          assert r.sales[k] == rest.sales[k - 1] && sales[k] == sales[1..][k - 1];
        }
      }
    }
  }

  /** Sells that all fall outside the tax year leave the lots and themselves unchanged. */
  lemma {:induction false} OutOfYearSalesChangeNothing(lots: seq<Lot>, sales: seq<Sale>)
    requires forall k :: 0 <= k < |sales| ==> !InTaxYear(sales[k].sellDate)
    ensures ProcessSales(lots, sales) == Ledger(lots, sales)
  {
    if sales != [] {
      OutOfYearSalesChangeNothing(lots, sales[1..]);
      assert [sales[0]] + sales[1..] == sales;
    }
  }
}
