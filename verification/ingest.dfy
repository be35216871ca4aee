/** Reading transactions: which split CSV rows become buys and which become
    sells. Number and date parsing are outside the model; they are passed in
    as the functions `number` (Ruby's String#to_f) and `day` (the day number
    of a date field). */
module Ingest {
  import opened Records

  datatype RowKind = Skipped | BuyRow | SellRow | Other

  /** The first-field check: the field contains at least one decimal digit. */
  predicate HasDigit(field: string)
  {
    exists i :: 0 <= i < |field| && '0' <= field[i] <= '9'
  }

  /** Rows with fewer than 8 fields or with no digit in the first field are
      skipped; otherwise field 1 decides between a buy, a sell and anything
      else (a send or another kind, which the matcher ignores). */
  function Classify(parts: seq<string>): (kind: RowKind)
    ensures kind == Skipped <==> |parts| < 8 || !HasDigit(parts[0])
    ensures kind == BuyRow <==> |parts| >= 8 && HasDigit(parts[0]) && parts[1] == "Buy"
    ensures kind == SellRow <==> |parts| >= 8 && HasDigit(parts[0]) && parts[1] == "Sell"
    ensures kind == Other <==> |parts| >= 8 && HasDigit(parts[0]) && parts[1] != "Buy" && parts[1] != "Sell"
  {
    if |parts| < 8 || !HasDigit(parts[0]) then Skipped
    else if parts[1] == "Buy" then BuyRow
    else if parts[1] == "Sell" then SellRow
    else Other
  }

  /** A buy or a sell: the rows the matcher reads. */
  predicate IsTrade(parts: seq<string>)
  {
    Classify(parts) == BuyRow || Classify(parts) == SellRow
  }

  /** The rows the model can construct: every buy and sell has a positive
      quantity (field 3), since its unit price divides by it. */
  predicate QuantitiesPositive(rows: seq<seq<string>>, number: string -> real)
  {
    forall i :: 0 <= i < |rows| ==> IsTrade(rows[i]) ==> number(rows[i][3]) > 0.0
  }

  /** The Asset of a buy row: currency from field 2, date from field 0,
      units from field 3, amount spent from field 5. */
  function BuyOf(parts: seq<string>, number: string -> real, day: string -> int): (lot: Lot)
    requires Classify(parts) == BuyRow && number(parts[3]) > 0.0
    ensures LotInvariant(lot) && lot.gainLoss == []
    ensures lot.currency == parts[2] && lot.buyDate == day(parts[0])
    ensures lot.originalUnits == lot.remaining == number(parts[3]) && lot.amountSpent == number(parts[5])
  {
    NewLot(parts[2], day(parts[0]), number(parts[3]), number(parts[5]))
  }

  /** The Sell of a sell row: date from field 0, currency from field 2,
      units from field 3, proceeds from field 5. */
  function SellOf(parts: seq<string>, number: string -> real, day: string -> int): (sale: Sale)
    requires Classify(parts) == SellRow && number(parts[3]) > 0.0
    ensures SaleInvariant(sale)
    ensures sale.sellDate == day(parts[0]) && sale.currency == parts[2]
    ensures sale.unitsSold == sale.remaining == number(parts[3]) && sale.amount == number(parts[5])
  {
    NewSale(day(parts[0]), parts[2], number(parts[3]), number(parts[5]))
  }

  /** The buys among the first n rows, in input order, each freshly
      constructed; the buys of the whole input are InputLots(rows, |rows|, ...). */
  function InputLots(rows: seq<seq<string>>, n: nat, number: string -> real, day: string -> int): (lots: seq<Lot>)
    requires n <= |rows| && QuantitiesPositive(rows, number)
    ensures |lots| <= n
    ensures forall k :: 0 <= k < |lots| ==> LotInvariant(lots[k]) && lots[k].gainLoss == []
  {
    if n == 0 then []
    else
      InputLots(rows, n - 1, number, day)
      + if Classify(rows[n - 1]) == BuyRow then [BuyOf(rows[n - 1], number, day)] else []
  }

  /** The sells among the first n rows, in input order, each freshly constructed. */
  function InputSales(rows: seq<seq<string>>, n: nat, number: string -> real, day: string -> int): (sales: seq<Sale>)
    requires n <= |rows| && QuantitiesPositive(rows, number)
    ensures |sales| <= n
    ensures forall k :: 0 <= k < |sales| ==> SaleInvariant(sales[k]) && sales[k].remaining == sales[k].unitsSold
  {
    if n == 0 then []
    else
      InputSales(rows, n - 1, number, day)
      + if Classify(rows[n - 1]) == SellRow then [SellOf(rows[n - 1], number, day)] else []
  }

  /** The buy list after one more row: a buy row puts its Asset in front
      (Array#unshift); any other row leaves the list alone. */
  function BuysAfter(parts: seq<string>, number: string -> real, day: string -> int, lots: seq<Lot>): seq<Lot>
    requires Classify(parts) == BuyRow ==> number(parts[3]) > 0.0
  {
    if Classify(parts) == BuyRow then [BuyOf(parts, number, day)] + lots else lots
  }

  /** The sell list after one more row. */
  function SellsAfter(parts: seq<string>, number: string -> real, day: string -> int, sales: seq<Sale>): seq<Sale>
    requires Classify(parts) == SellRow ==> number(parts[3]) > 0.0
  {
    if Classify(parts) == SellRow then [SellOf(parts, number, day)] + sales else sales
  }

  /** The buy list as the script builds it from the first n rows, newest buy first. */
  function BuysNewestFirst(rows: seq<seq<string>>, n: nat, number: string -> real, day: string -> int): seq<Lot>
    requires n <= |rows| && QuantitiesPositive(rows, number)
  {
    if n == 0 then [] else BuysAfter(rows[n - 1], number, day, BuysNewestFirst(rows, n - 1, number, day))
  }

  /** The sell list as the script builds it, newest sell first. */
  function SellsNewestFirst(rows: seq<seq<string>>, n: nat, number: string -> real, day: string -> int): seq<Sale>
    requires n <= |rows| && QuantitiesPositive(rows, number)
  {
    if n == 0 then [] else SellsAfter(rows[n - 1], number, day, SellsNewestFirst(rows, n - 1, number, day))
  }

  /** Putting each buy in front yields the buys in reverse chronological
      (reverse input) order. */
  lemma {:induction false} BuysNewestFirstIsReversed(rows: seq<seq<string>>, n: nat, number: string -> real, day: string -> int)
    requires n <= |rows| && QuantitiesPositive(rows, number)
    ensures BuysNewestFirst(rows, n, number, day) == Reverse(InputLots(rows, n, number, day))
  {
    if n > 0 {
      BuysNewestFirstIsReversed(rows, n - 1, number, day);
      var before := InputLots(rows, n - 1, number, day);
      if Classify(rows[n - 1]) == BuyRow {
        ReverseSnoc(before, BuyOf(rows[n - 1], number, day));
      } else {
        assert InputLots(rows, n, number, day) == before + [] == before;
        assert [] + Reverse(before) == Reverse(before);
      }
    }
  }

  /** The same for the sells. */
  lemma {:induction false} SellsNewestFirstIsReversed(rows: seq<seq<string>>, n: nat, number: string -> real, day: string -> int)
    requires n <= |rows| && QuantitiesPositive(rows, number)
    ensures SellsNewestFirst(rows, n, number, day) == Reverse(InputSales(rows, n, number, day))
  {
    if n > 0 {
      SellsNewestFirstIsReversed(rows, n - 1, number, day);
      var before := InputSales(rows, n - 1, number, day);
      if Classify(rows[n - 1]) == SellRow {
        ReverseSnoc(before, SellOf(rows[n - 1], number, day));
      } else {
        assert InputSales(rows, n, number, day) == before + [] == before;
        assert [] + Reverse(before) == Reverse(before);
      }
    }
  }

  /** The positions of the buy and sell rows among the first n rows. */
  function TradeRows(rows: seq<seq<string>>, n: nat): set<nat>
    requires n <= |rows|
  {
    set i: nat | i < n && IsTrade(rows[i])
  }

  /** Every input row is a buy, a sell, or contributes to neither list: among
      the first n rows, the two lists together hold exactly one entry per
      buy or sell row. */
  lemma {:induction false} RowsSplitIntoBuysAndSells(rows: seq<seq<string>>, n: nat, number: string -> real, day: string -> int)
    requires n <= |rows| && QuantitiesPositive(rows, number)
    ensures |InputLots(rows, n, number, day)| + |InputSales(rows, n, number, day)| == |TradeRows(rows, n)|
  {
    if n > 0 {
      RowsSplitIntoBuysAndSells(rows, n - 1, number, day);
      var kind := Classify(rows[n - 1]);
      assert |InputLots(rows, n, number, day)|
             == |InputLots(rows, n - 1, number, day)| + if kind == BuyRow then 1 else 0;
      assert |InputSales(rows, n, number, day)|
             == |InputSales(rows, n - 1, number, day)| + if kind == SellRow then 1 else 0;
      TradeRowsStep(rows, n);
    }
  }

  /** One more row adds its position to the trade rows exactly when it is a trade. */
  lemma TradeRowsStep(rows: seq<seq<string>>, n: nat)
    requires 0 < n <= |rows|
    ensures |TradeRows(rows, n)| == |TradeRows(rows, n - 1)| + if IsTrade(rows[n - 1]) then 1 else 0
  {
    if IsTrade(rows[n - 1]) {
      assert n - 1 !in TradeRows(rows, n - 1);
      assert TradeRows(rows, n) == TradeRows(rows, n - 1) + {n - 1};
    } else {
      assert TradeRows(rows, n) == TradeRows(rows, n - 1);
    }
  }
}
