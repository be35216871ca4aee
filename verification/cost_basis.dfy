/** The script itself: the Asset and Sell objects, the building of the buy
    and sell lists, the matching loop that updates the objects in place, and
    the whole run from split rows to report rows. Each method is proved to
    compute the value-level functions of Lifo, Ingest and Report. */
module CostBasis {
  import opened Records
  import opened Lifo
  import opened Report
  import opened Ingest

  /** A buy lot. Its purchase data and unit price are fixed at construction;
      the matcher lowers its remaining units and appends allocations. */
  class Asset {
    const currency: string
    const buyDate: int
    const originalUnits: real
    const amountSpent: real
    const unitPrice: real
    var remainingUnits: real
    var gainLoss: seq<GainLoss>

    constructor (currency: string, buyDate: int, units: real, amountSpent: real)
      requires units > 0.0
      ensures View() == NewLot(currency, buyDate, units, amountSpent)
    {
      this.currency := currency;
      this.buyDate := buyDate;
      this.originalUnits := units;
      this.amountSpent := amountSpent;
      this.unitPrice := amountSpent / units;
      this.remainingUnits := units;
      this.gainLoss := [];
    }

    /** The lot's current value. */
    function View(): Lot
      reads this
    {
      Lot(currency, buyDate, originalUnits, amountSpent, unitPrice, remainingUnits, gainLoss)
    }
  }

  /** A sell. Its sale data and unit price are fixed at construction; the
      matcher lowers its remaining units. */
  class Sell {
    const currency: string
    const sellDate: int
    const unitsSold: real
    const amount: real
    const unitPrice: real
    var remainingUnits: real

    constructor (sellDate: int, currency: string, units: real, amount: real)
      requires units > 0.0
      ensures View() == NewSale(sellDate, currency, units, amount)
    {
      this.currency := currency;
      this.sellDate := sellDate;
      this.unitsSold := units;
      this.amount := amount;
      this.unitPrice := amount / units;
      this.remainingUnits := units;
    }

    /** The sell's current value. */
    function View(): Sale
      reads this
    {
      Sale(currency, sellDate, unitsSold, amount, unitPrice, remainingUnits)
    }
  }

  /** No object appears twice in the list. */
  predicate Distinct<T(==)>(s: seq<T>)
  {
    s == [] || ((forall k :: 0 < k < |s| ==> s[k] != s[0]) && Distinct(s[1..]))
  }

  /** Distinct lists hold different objects at different positions. */
  lemma {:induction false} DistinctAt<T>(s: seq<T>, i: nat, j: nat)
    requires Distinct(s) && i < j < |s|
    ensures s[i] != s[j]
  {
    if i > 0 {
      DistinctAt(s[1..], i - 1, j - 1);
    }
  }

  /** The current values of a list of Assets. */
  function Lots(buys: seq<Asset>): (v: seq<Lot>)
    reads buys
    ensures |v| == |buys| && forall k :: 0 <= k < |buys| ==> v[k] == buys[k].View()
  {
    if buys == [] then [] else [buys[0].View()] + Lots(buys[1..])
  }

  /** The current values of a list of Sells. */
  function Sales(sells: seq<Sell>): (v: seq<Sale>)
    reads sells
    ensures |v| == |sells| && forall k :: 0 <= k < |sells| ==> v[k] == sells[k].View()
  {
    if sells == [] then [] else [sells[0].View()] + Sales(sells[1..])
  }

  /** A fresh object put in front of a distinct list keeps it distinct. */
  lemma DistinctCons<T>(x: T, s: seq<T>)
    requires Distinct(s) && forall k :: 0 <= k < |s| ==> s[k] != x
    ensures Distinct([x] + s)
  {
    assert ([x] + s)[1..] == s;
  }

  /** A buy row's new Asset put in front of the buy list (Array#unshift). */
  method UnshiftBuy(parts: seq<string>, number: string -> real, day: string -> int,
                    buys: seq<Asset>, ghost lots: seq<Lot>) returns (r: seq<Asset>)
    requires Classify(parts) == BuyRow && number(parts[3]) > 0.0
    requires Distinct(buys) && |buys| == |lots| && forall k :: 0 <= k < |buys| ==> buys[k].View() == lots[k]
    ensures Distinct(r) && |r| == |buys| + 1 && fresh(r[0])
    ensures forall k :: 0 < k < |r| ==> r[k] == buys[k - 1]
    ensures forall k :: 0 <= k < |r| ==> r[k].View() == ([BuyOf(parts, number, day)] + lots)[k]
  {
    var a := new Asset(parts[2], day(parts[0]), number(parts[3]), number(parts[5]));
    DistinctCons(a, buys);
    r := [a] + buys;
  }

  /** A sell row's new Sell put in front of the sell list. */
  method UnshiftSell(parts: seq<string>, number: string -> real, day: string -> int,
                     sells: seq<Sell>, ghost sales: seq<Sale>) returns (r: seq<Sell>)
    requires Classify(parts) == SellRow && number(parts[3]) > 0.0
    requires Distinct(sells) && |sells| == |sales| && forall k :: 0 <= k < |sells| ==> sells[k].View() == sales[k]
    ensures Distinct(r) && |r| == |sells| + 1 && fresh(r[0])
    ensures forall k :: 0 < k < |r| ==> r[k] == sells[k - 1]
    ensures forall k :: 0 <= k < |r| ==> r[k].View() == ([SellOf(parts, number, day)] + sales)[k]
  {
    var s := new Sell(day(parts[0]), parts[2], number(parts[3]), number(parts[5]));
    DistinctCons(s, sells);
    r := [s] + sells;
  }

  /** The lists hold distinct objects whose current values are `lots` and `sales`. */
  predicate ListsHold(buys: seq<Asset>, sells: seq<Sell>, lots: seq<Lot>, sales: seq<Sale>)
    reads buys, sells
  {
    Distinct(buys) && Distinct(sells)
    && |buys| == |lots| && (forall k :: 0 <= k < |buys| ==> buys[k].View() == lots[k])
    && |sells| == |sales| && (forall k :: 0 <= k < |sells| ==> sells[k].View() == sales[k])
  }

  /** One row of the input: skipped when it has fewer than 8 fields or no
      digit in its first field; a buy row puts a new Asset in front of the
      buy list, a sell row a new Sell in front of the sell list, and any
      other row (a send) is ignored. */
  method ReadRow(parts: seq<string>, number: string -> real, day: string -> int,
                 buys: seq<Asset>, sells: seq<Sell>, ghost lots: seq<Lot>, ghost sales: seq<Sale>)
    returns (buys': seq<Asset>, sells': seq<Sell>)
    requires IsTrade(parts) ==> number(parts[3]) > 0.0
    requires ListsHold(buys, sells, lots, sales)
    ensures ListsHold(buys', sells', BuysAfter(parts, number, day, lots), SellsAfter(parts, number, day, sales))
    ensures buys' == buys || (fresh(buys'[0]) && forall k :: 0 < k < |buys'| ==> buys'[k] == buys[k - 1])
    ensures sells' == sells || (fresh(sells'[0]) && forall k :: 0 < k < |sells'| ==> sells'[k] == sells[k - 1])
  {
    buys', sells' := buys, sells;
    if |parts| < 8 || !HasDigit(parts[0]) {
      return;
    }
    if parts[1] == "Buy" {
      buys' := UnshiftBuy(parts, number, day, buys, lots);
    } else if parts[1] == "Sell" {
      sells' := UnshiftSell(parts, number, day, sells, sales);
    }
  }

  /** Builds the buy and sell lists from the split rows, newest first. */
  method BuildLists(rows: seq<seq<string>>, number: string -> real, day: string -> int)
    returns (buys: seq<Asset>, sells: seq<Sell>)
    requires QuantitiesPositive(rows, number)
    ensures Distinct(buys) && Distinct(sells)
    ensures forall k :: 0 <= k < |buys| ==> fresh(buys[k])
    ensures forall k :: 0 <= k < |sells| ==> fresh(sells[k])
    ensures Lots(buys) == BuysNewestFirst(rows, |rows|, number, day)
    ensures Sales(sells) == SellsNewestFirst(rows, |rows|, number, day)
  {
    buys, sells := [], [];
    for i := 0 to |rows|
      invariant ListsHold(buys, sells, BuysNewestFirst(rows, i, number, day), SellsNewestFirst(rows, i, number, day))
      invariant forall k :: 0 <= k < |buys| ==> fresh(buys[k])
      invariant forall k :: 0 <= k < |sells| ==> fresh(sells[k])
    {
      ghost var prevBuys, prevSells := buys, sells;
      buys, sells := ReadRow(rows[i], number, day, buys, sells,
                             BuysNewestFirst(rows, i, number, day), SellsNewestFirst(rows, i, number, day));
      forall k | 0 <= k < |buys|
        ensures fresh(buys[k])
      {
        if buys != prevBuys && k > 0 {
          assert buys[k] == prevBuys[k - 1];
        }
      }
      forall k | 0 <= k < |sells|
        ensures fresh(sells[k])
      {
        if sells != prevSells && k > 0 {
          assert sells[k] == prevSells[k - 1];
        }
      }
    }
  }

  /** The body of the inner loop for one lot: skips the lot when it was
      bought after the sell, is another currency or has less than Dust left;
      otherwise classifies the holding period and takes from the lot what
      the sell still needs. Returns whether the scan must stop. */
  method VisitLot(b: Asset, s: Sell) returns (stop: bool)
    modifies b, s
    ensures Step(b.View(), s.View(), stop) == Visit(old(b.View()), old(s.View()))
  {
    stop := false;
    ghost var lot, sale := b.View(), s.View();
    if b.buyDate > s.sellDate {
      return;
    }
    if b.currency != s.currency {
      return;
    }
    if b.remainingUnits < Dust {
      return;
    }
    var term := ShortTerm;
    if s.sellDate - b.buyDate > LongTermDays {
      term := LongTerm;
    }
    if b.remainingUnits > s.remainingUnits {
      var g := GainLoss(s.sellDate, s.remainingUnits, s.remainingUnits * (s.unitPrice - b.unitPrice), term);
      b.gainLoss := b.gainLoss + [g];
      b.remainingUnits := b.remainingUnits - s.remainingUnits;
      stop := true;
      assert g == Allocation(lot, sale, sale.remaining);
      assert b.View() == Visit(lot, sale).lot;
      assert s.View() == Visit(lot, sale).sale;
    } else {
      var g := GainLoss(s.sellDate, b.remainingUnits, b.remainingUnits * (s.unitPrice - b.unitPrice), term);
      b.gainLoss := b.gainLoss + [g];
      s.remainingUnits := s.remainingUnits - b.remainingUnits;
      b.remainingUnits := 0.0;
      assert g == Allocation(lot, sale, lot.remaining);
      assert b.View() == Visit(lot, sale).lot;
      assert s.View() == Visit(lot, sale).sale;
    }
  }

  /** The inner loop: scans the buy list for one sell and updates the lots
      and the sell in place exactly as ScanLots describes. */
  method MatchSell(s: Sell, buys: seq<Asset>)
    requires Distinct(buys)
    modifies s, buys
    ensures Lots(buys) == ScanLots(old(Lots(buys)), old(s.View())).lots
    ensures s.View() == ScanLots(old(Lots(buys)), old(s.View())).sale
  {
    ghost var target := ScanFrom(Lots(buys), 0, s.View());
    ScanFromStart(Lots(buys), s.View());
    var i := 0;
    while i < |buys|
      invariant 0 <= i <= |buys|
      invariant target == ScanFrom(Lots(buys), i, s.View())
    {
      var stop := ScanStep(buys, i, s, target);
      if stop {
        break;
      }
      i := i + 1;
    }
  }

  /** One iteration of the inner loop: visiting the lot at position i
      advances the in-place scan by one position, or ends it on a break. */
  method ScanStep(buys: seq<Asset>, i: nat, s: Sell, ghost target: Scan) returns (stop: bool)
    requires i < |buys| && Distinct(buys)
    requires target == ScanFrom(Lots(buys), i, s.View())
    modifies buys[i], s
    ensures stop ==> target == Scan(Lots(buys), s.View(), true)
    ensures !stop ==> target == ScanFrom(Lots(buys), i + 1, s.View())
  {
    ghost var before, beforeSale := Lots(buys), s.View();
    stop := VisitAt(buys, i, s);
    ghost var step := Visit(before[i], beforeSale);
    assert Lots(buys) == before[i := step.lot] && s.View() == step.sale && stop == step.stop;
  }

  /** The inner loop's body at position i of the buy list: the lot there
      and the sell change as Visit says, every other lot is left alone. */
  method VisitAt(buys: seq<Asset>, i: nat, s: Sell) returns (stop: bool)
    requires i < |buys| && Distinct(buys)
    modifies buys[i], s
    ensures var step := Visit(old(buys[i].View()), old(s.View()));
      Lots(buys) == old(Lots(buys))[i := step.lot] && s.View() == step.sale && stop == step.stop
  {
    stop := VisitLot(buys[i], s);
    forall k | 0 <= k < |buys| && k != i
      ensures buys[k].View() == old(buys[k].View())
    {
      if k < i { DistinctAt(buys, k, i); } else { DistinctAt(buys, i, k); }
    }
  }

  /** One step of the outer loop: the sell at position i is skipped when it
      falls outside the tax year and otherwise matched against the buy list;
      every other sell is left as it was. */
  method MatchAt(sells: seq<Sell>, i: nat, buys: seq<Asset>)
    requires i < |sells| && Distinct(buys) && Distinct(sells)
    modifies sells[i], buys
    ensures var first := ProcessSale(old(Lots(buys)), old(sells[i].View()));
      Lots(buys) == first.lots && Sales(sells) == old(Sales(sells))[i := first.sale]
  {
    var s := sells[i];
    if s.sellDate < TaxYearStart || s.sellDate >= TaxYearEnd {
      assert old(Sales(sells))[i := s.View()] == Sales(sells);
      return;
    }
    MatchSellAt(sells, i, buys);
  }

  /** An in-year sell at position i matched against the buy list: the lots
      and that sell end as ScanLots gives, and every other sell is left as
      it was. */
  method MatchSellAt(sells: seq<Sell>, i: nat, buys: seq<Asset>)
    requires i < |sells| && Distinct(buys) && Distinct(sells)
    modifies sells[i], buys
    ensures var r := ScanLots(old(Lots(buys)), old(sells[i].View()));
      Lots(buys) == r.lots && Sales(sells) == old(Sales(sells))[i := r.sale]
  {
    ghost var before := Sales(sells);
    OthersDiffer(sells, i);
    MatchSell(sells[i], buys);
    ghost var after := Sales(sells);
    forall k | 0 <= k < |sells| && k != i
      ensures after[k] == before[k]
    {
    }
    UpdatedAt(before, after, i);
  }

  /** Two lists of the same length that agree everywhere except at i differ
      by an update at i. */
  lemma UpdatedAt<T>(before: seq<T>, after: seq<T>, i: nat)
    requires i < |before| == |after|
    requires forall k :: 0 <= k < |before| && k != i ==> after[k] == before[k]
    ensures after == before[i := after[i]]
  {
  }

  /** In a distinct list, every position other than i holds another object. */
  lemma OthersDiffer<T>(s: seq<T>, i: nat)
    requires i < |s| && Distinct(s)
    ensures forall k :: 0 <= k < |s| && k != i ==> s[k] != s[i]
  {
    forall k | 0 <= k < |s| && k != i
      ensures s[k] != s[i]
    {
      if k < i { DistinctAt(s, k, i); } else { DistinctAt(s, i, k); }
    }
  }

  /** The outer loop: every sell in list order; sells outside the tax year
      are skipped. Lots and sells end as ProcessSales describes. */
  method MatchSells(sells: seq<Sell>, buys: seq<Asset>)
    requires Distinct(buys) && Distinct(sells)
    modifies sells, buys
    ensures Lots(buys) == ProcessSales(old(Lots(buys)), old(Sales(sells))).lots
    ensures Sales(sells) == ProcessSales(old(Lots(buys)), old(Sales(sells))).sales
  {
    ghost var target := ProcessFrom(Lots(buys), Sales(sells), 0);
    ProcessFromIsProcessSales(Lots(buys), Sales(sells), 0);
    assert Sales(sells)[..0] == [] && Sales(sells)[0..] == Sales(sells);
    for i := 0 to |sells|
      invariant target == ProcessFrom(Lots(buys), Sales(sells), i)
    {
      MatchAt(sells, i, buys);
    }
  }

  /** The lots after matching, in input order (the order the report uses). */
  function MatchedLots(rows: seq<seq<string>>, number: string -> real, day: string -> int): seq<Lot>
    requires QuantitiesPositive(rows, number)
  {
    Reverse(ProcessSales(Reverse(InputLots(rows, |rows|, number, day)), Reverse(InputSales(rows, |rows|, number, day))).lots)
  }

  /** The rows of the report of a whole run. */
  function CostBasisReport(rows: seq<seq<string>>, number: string -> real, day: string -> int): seq<ReportRow>
    requires QuantitiesPositive(rows, number)
  {
    ReportOf(ProcessSales(Reverse(InputLots(rows, |rows|, number, day)), Reverse(InputSales(rows, |rows|, number, day))).lots)
  }

  /** A whole run: build the lists, match, and produce the report rows. */
  method Run(rows: seq<seq<string>>, number: string -> real, day: string -> int)
    returns (report: seq<ReportRow>)
    requires QuantitiesPositive(rows, number)
    ensures report == CostBasisReport(rows, number, day)
  {
    var buys, sells := BuildLists(rows, number, day);
    BuysNewestFirstIsReversed(rows, |rows|, number, day);
    SellsNewestFirstIsReversed(rows, |rows|, number, day);
    MatchSells(sells, buys);
    report := ReportOf(Lots(buys));
  }

  /** After matching, every lot is still the purchase it was, in input
      order, with its invariant kept. */
  lemma MatchedLotsEvolve(rows: seq<seq<string>>, number: string -> real, day: string -> int)
    requires QuantitiesPositive(rows, number)
    ensures var inputs, matched := InputLots(rows, |rows|, number, day), MatchedLots(rows, number, day);
      |matched| == |inputs|
      && forall k :: 0 <= k < |inputs| ==> LotInvariant(matched[k]) && Evolves(inputs[k], matched[k])
  {
    ReversedPassEvolves(InputLots(rows, |rows|, number, day), InputSales(rows, |rows|, number, day));
  }

  /** Matching the reversed lists of valid lots and sells, then reversing
      the lots back, keeps every lot's invariant and lets it only evolve,
      position by position. */
  lemma ReversedPassEvolves(inputs: seq<Lot>, sales: seq<Sale>)
    requires forall k :: 0 <= k < |inputs| ==> LotInvariant(inputs[k])
    requires forall k :: 0 <= k < |sales| ==> SaleInvariant(sales[k])
    ensures var matched := Reverse(ProcessSales(Reverse(inputs), Reverse(sales)).lots);
      |matched| == |inputs|
      && forall k :: 0 <= k < |inputs| ==> LotInvariant(matched[k]) && Evolves(inputs[k], matched[k])
  {
    var n := |inputs|;
    var buys := Reverse(inputs);
    forall k | 0 <= k < n ensures LotInvariant(buys[k]) { ReverseAt(inputs, k); }
    forall k | 0 <= k < |sales| ensures SaleInvariant(Reverse(sales)[k]) { ReverseAt(sales, k); }
    ProcessSalesKeepsInvariants(buys, Reverse(sales));
    var after := ProcessSales(buys, Reverse(sales)).lots;
    var matched := Reverse(after);
    forall k | 0 <= k < n
      ensures LotInvariant(matched[k]) && Evolves(inputs[k], matched[k])
    {
      var j := n - 1 - k;
      ReverseAt(after, k);
      ReverseAt(inputs, j);
      assert matched[k] == after[j] && inputs[k] == buys[j];
    }
  }

  /** The report lists the matched lots in input order, and its units
      column accounts for every unit bought except Dust-sized remainders. */
  lemma ReportAccountsForPurchases(rows: seq<seq<string>>, number: string -> real, day: string -> int)
    requires QuantitiesPositive(rows, number)
    ensures var inputs, matched := InputLots(rows, |rows|, number, day), MatchedLots(rows, number, day);
      CostBasisReport(rows, number, day) == Rows(matched)
      && SumRowUnits(CostBasisReport(rows, number, day)) + SumDustLeft(matched) == SumOriginalUnits(inputs)
  {
    var matched := MatchedLots(rows, number, day);
    MatchedLotsEvolve(rows, number, day);
    RowsAccountForUnits(matched);
    SameOriginalUnits(InputLots(rows, |rows|, number, day), matched);
  }

  lemma {:induction false} SameOriginalUnits(a: seq<Lot>, b: seq<Lot>)
    requires |a| == |b| && forall k :: 0 <= k < |a| ==> a[k].originalUnits == b[k].originalUnits
    ensures SumOriginalUnits(a) == SumOriginalUnits(b)
  {
    if a != [] {
      SameOriginalUnits(a[1..], b[1..]);
    }
  }
}
