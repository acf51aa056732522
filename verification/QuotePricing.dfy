/** Pricing a customer RFQ and expanding it into the lines of an offline order
    (contact_stage_bar/models/customer_rfq.py). Money and weights are exact reals; the margin
    percentage, a lookup by weight, is an argument every result holds for. */
module QuotePricing {
  import opened Basics

  /** A size line: its quantity counts stones or carats, as the RFQ says. */
  datatype Row = Row(quantity: real, caratPerPiece: real, costing: real)

  datatype Rfq = Rfq(
    rows: seq<Row>, inPieces: bool, piecesPerCarat: real,
    carat: real, totalCarat: real, quantity: int, meleeParcel: bool,
    price: real, differentPrices: bool)

  /** row is the size line an order line came from, -1 where the RFQ has none. */
  datatype OrderLine = OrderLine(price: real, row: int)

  const THRESHOLD := 50
  const DEFAULT_PIECES_PER_CARAT := 22.0

  // ── Rounding ─────────────────────────────────────────────────

  /** int(x): towards zero. */
  function Truncated(x: real): (n: int)
    ensures x >= 0.0 ==> n as real <= x < n as real + 1.0 && n >= 0
    ensures x < 0.0 ==> n as real - 1.0 < x <= n as real
  {
    if x >= 0.0 then x.Floor else -((-x).Floor)
  }

  /** round(x): to the nearest whole number, a tie to the even one. */
  function Rounded(x: real): (n: int)
    ensures -0.5 <= x - n as real <= 0.5
    ensures (x - n as real == 0.5 || x - n as real == -0.5) ==> n % 2 == 0
  {
    var low := x.Floor;
    var rest := x - low as real;
    if rest < 0.5 || (rest == 0.5 && low % 2 == 0) then low else low + 1
  }

  /** Money at a rate, or a weight made of equal stones. */
  function Extended(rate: real, amount: real): real {
    rate * amount
  }

  /** One share of n. */
  function Share(total: real, n: real): real
    requires n != 0.0
  {
    total / n
  }

  lemma ExtendedAdds(rate: real, a: real, b: real)
    ensures Extended(rate, a + b) == Extended(rate, a) + Extended(rate, b)
    ensures Extended(rate, 0.0) == 0.0 && Extended(rate, 1.0) == rate
  {
  }

  lemma ExtendedRegroups(rate: real, w: real, n: real)
    ensures Extended(Extended(rate, w), n) == Extended(rate, Extended(w, n))
  {
    assert (rate * w) * n == rate * (w * n);
  }

  lemma ExtendedGrows(w: real, a: real, b: real)
    requires w > 0.0 && a < b
    ensures Extended(w, a) < Extended(w, b)
  {
  }

  lemma ExtendedDiffers(rate: real, a: real, b: real)
    requires rate != 0.0
    ensures Extended(rate, a) == Extended(rate, b) <==> a == b
  {
    if Extended(rate, a) == Extended(rate, b) {
      assert rate * (a - b) == 0.0;
    }
  }

  lemma SharesMakeTheWhole(total: real, n: real)
    requires n > 0.0
    ensures Extended(Share(total, n), n) == total
    ensures Share(total, n) == 0.0 <==> total == 0.0
  {
  }

  // ── What a quote comes to ────────────────────────────────────

  /** The weight of one stone of a row. */
  function StoneCarat(q: Rfq, row: Row): (w: real)
    ensures w != 0.0
  {
    if row.caratPerPiece != 0.0 then row.caratPerPiece
    else 1.0 / (if q.piecesPerCarat != 0.0 then q.piecesPerCarat else DEFAULT_PIECES_PER_CARAT)
  }

  function Weight(q: Rfq, row: Row): real {
    if q.inPieces then Extended(StoneCarat(q, row), row.quantity) else row.quantity
  }

  function Count(q: Rfq, row: Row): int {
    if q.inPieces then Truncated(row.quantity) else Rounded(row.quantity)
  }

  function TotalWeight(q: Rfq, rows: seq<Row>): real {
    if rows == [] then 0.0 else TotalWeight(q, rows[..|rows| - 1]) + Weight(q, rows[|rows| - 1])
  }

  function TotalCosting(rows: seq<Row>): real {
    if rows == [] then 0.0
    else TotalCosting(rows[..|rows| - 1]) + Extended(rows[|rows| - 1].costing, rows[|rows| - 1].quantity)
  }

  function TotalCount(q: Rfq, rows: seq<Row>): (n: nat) {
    if rows == [] then 0 else TotalCount(q, rows[..|rows| - 1]) + Max(Count(q, rows[|rows| - 1]), 0)
  }

  /** The rows' weight; failing that the header's. */
  function EffectiveCarat(q: Rfq): real {
    if TotalWeight(q, q.rows) != 0.0 then TotalWeight(q, q.rows)
    else if q.carat != 0.0 then q.carat
    else q.totalCarat
  }

  function BasePrice(q: Rfq): real {
    if q.differentPrices && q.rows != [] then TotalCosting(q.rows) else Extended(q.price, EffectiveCarat(q))
  }

  function Quoted(q: Rfq, margin: real): real {
    BasePrice(q) + Extended(BasePrice(q), margin / 100.0)
  }

  function Rate(q: Rfq, margin: real): real {
    if EffectiveCarat(q) != 0.0 then Share(Quoted(q, margin), EffectiveCarat(q)) else q.price
  }

  /** _rfq_stone_count. */
  function StoneCount(q: Rfq): nat {
    if q.rows != [] then TotalCount(q, q.rows)
    else if q.quantity != 0 then Max(1, q.quantity)
    else 1
  }

  /** The count the totals are divided by: a melee parcel is one line, whatever its header says. */
  function PricedCount(q: Rfq): nat {
    if q.rows == [] && q.meleeParcel then 1 else StoneCount(q)
  }

  function OrderCarat(q: Rfq): real {
    if q.rows != [] || q.meleeParcel then EffectiveCarat(q) else Extended(EffectiveCarat(q), StoneCount(q) as real)
  }

  function OrderTotal(q: Rfq, margin: real): real {
    Extended(Rate(q, margin), OrderCarat(q))
  }

  function TotalPrice(q: Rfq, margin: real): real {
    if PricedCount(q) != 0 then Share(OrderTotal(q, margin), PricedCount(q) as real) else Quoted(q, margin)
  }

  // ── The lines ────────────────────────────────────────────────

  function LineCarat(q: Rfq, row: Row): real
    requires Count(q, row) > 0
  {
    if q.inPieces then StoneCarat(q, row) else Share(row.quantity, Count(q, row) as real)
  }

  function Repeated(line: OrderLine, n: nat): seq<OrderLine> {
    seq(n, i => line)
  }

  function RowLine(q: Rfq, margin: real, unitPrice: real, i: nat): OrderLine
    requires i < |q.rows| && Count(q, q.rows[i]) > 0
  {
    var w := LineCarat(q, q.rows[i]);
    OrderLine(if w != 0.0 then Extended(Rate(q, margin), w) else unitPrice, i)
  }

  predicate NoRowTooLarge(q: Rfq) {
    forall i | 0 <= i < |q.rows| :: Count(q, q.rows[i]) <= THRESHOLD
  }

  /** The lines of the first n rows. */
  function Expanded(q: Rfq, margin: real, unitPrice: real, n: nat): seq<OrderLine>
    requires n <= |q.rows|
  {
    if n == 0 then []
    else
      var before := Expanded(q, margin, unitPrice, n - 1);
      if Count(q, q.rows[n - 1]) <= 0 then before
      else before + Repeated(RowLine(q, margin, unitPrice, n - 1), Count(q, q.rows[n - 1]))
  }

  function LegacyQuantity(q: Rfq): int {
    if q.meleeParcel then 1 else if q.quantity != 0 then q.quantity else 1
  }

  function BuiltLines(q: Rfq, margin: real, unitPrice: real): Result<seq<OrderLine>> {
    if q.rows != [] then
      if NoRowTooLarge(q) then Ok(Expanded(q, margin, unitPrice, |q.rows|)) else Err
    else if LegacyQuantity(q) > THRESHOLD then Err
    else Ok(Repeated(OrderLine(unitPrice, -1), Max(1, LegacyQuantity(q))))
  }

  /** The pricing guards and the expansion of action_create_offline_order. */
  function OfflineOrder(q: Rfq, margin: real): Result<seq<OrderLine>> {
    if OrderTotal(q, margin) == 0.0 then Err
    else
      var unitPrice := if TotalPrice(q, margin) != 0.0 then TotalPrice(q, margin) else q.price;
      var built := BuiltLines(q, margin, unitPrice);
      if built.Ok? && built.value == [] then Err else built
  }

  // ── The program ──────────────────────────────────────────────

  class Quote {
    const rfq: Rfq
    var rate: real
    var orderTotal: real
    var totalPrice: real

    constructor (rfq: Rfq)
      ensures this.rfq == rfq
    {
      this.rfq := rfq;
      rate, orderTotal, totalPrice := 0.0, 0.0, 0.0;
    }

    method CountStones() returns (total: nat)
      ensures total == StoneCount(rfq)
    {
      if rfq.rows == [] {
        return if rfq.quantity != 0 then Max(1, rfq.quantity) else 1;
      }
      total := 0;
      for i := 0 to |rfq.rows|
        invariant total == TotalCount(rfq, rfq.rows[..i])
      {
        assert rfq.rows[..i + 1][..i] == rfq.rows[..i];
        var count := Count(rfq, rfq.rows[i]);
        if count > 0 {
          total := total + count;
        }
      }
      assert rfq.rows[..|rfq.rows|] == rfq.rows;
    }

    /** _compute_pricing_totals. */
    method ComputePricingTotals(margin: real)
      modifies this
      ensures rate == Rate(rfq, margin) && orderTotal == OrderTotal(rfq, margin) &&
          totalPrice == TotalPrice(rfq, margin)
    {
      hide Extended, Share, StoneCarat, Count;
      var weight, costing := 0.0, 0.0;
      for i := 0 to |rfq.rows|
        invariant weight == TotalWeight(rfq, rfq.rows[..i]) && costing == TotalCosting(rfq.rows[..i])
      {
        assert rfq.rows[..i + 1][..i] == rfq.rows[..i];
        weight := weight + Weight(rfq, rfq.rows[i]);
        costing := costing + Extended(rfq.rows[i].costing, rfq.rows[i].quantity);
      }
      assert rfq.rows[..|rfq.rows|] == rfq.rows;
      if weight == 0.0 {
        weight := rfq.carat;
      }
      if weight == 0.0 {
        weight := rfq.totalCarat;
      }
      var base := if rfq.differentPrices && rfq.rows != [] then costing else Extended(rfq.price, weight);
      var quoted := base + Extended(base, margin / 100.0);
      rate := if weight != 0.0 then Share(quoted, weight) else rfq.price;
      var count := CountStones();
      var carat := weight;
      if rfq.rows == [] {
        if rfq.meleeParcel {
          count := 1;
        } else {
          carat := Extended(weight, count as real);
        }
      }
      orderTotal := Extended(rate, carat);
      totalPrice := if count != 0 then Share(orderTotal, count as real) else quoted;
    }

    /** _build_offline_order_lines. */
    method BuildOfflineOrderLines(ghost margin: real, unitPrice: real) returns (r: Result<seq<OrderLine>>)
      requires rate == Rate(rfq, margin)
      ensures r == BuiltLines(rfq, margin, unitPrice)
    {
      hide Extended, Share, StoneCarat, Count, Rate;
      var lines: seq<OrderLine> := [];
      if rfq.rows != [] {
        for i := 0 to |rfq.rows|
          invariant lines == Expanded(rfq, margin, unitPrice, i)
          invariant forall k | 0 <= k < i :: Count(rfq, rfq.rows[k]) <= THRESHOLD
        {
          var count := Count(rfq, rfq.rows[i]);
          if count <= 0 {
            continue;
          }
          if count > THRESHOLD {
            return Err;
          }
          var w := if rfq.inPieces then StoneCarat(rfq, rfq.rows[i]) else Share(rfq.rows[i].quantity, count as real);
          var line := OrderLine(if w != 0.0 then Extended(rate, w) else unitPrice, i);
          ghost var before := lines;
          for n := 0 to count
            invariant lines == before + Repeated(line, n)
          {
            lines := lines + [line];
          }
        }
        return Ok(lines);
      }
      var quantity := if rfq.meleeParcel then 1 else if rfq.quantity != 0 then rfq.quantity else 1;
      if quantity > THRESHOLD {
        return Err;
      }
      for n := 0 to Max(1, quantity)
        invariant lines == Repeated(OrderLine(unitPrice, -1), n)
      {
        lines := lines + [OrderLine(unitPrice, -1)];
      }
      return Ok(lines);
    }

    method CreateOfflineOrder(margin: real) returns (r: Result<seq<OrderLine>>)
      modifies this
      ensures r == OfflineOrder(rfq, margin)
    {
      ComputePricingTotals(margin);
      if orderTotal == 0.0 {
        return Err;
      }
      var unitPrice := if totalPrice != 0.0 then totalPrice else rfq.price;
      r := BuildOfflineOrderLines(margin, unitPrice);
      if r.Ok? && r.value == [] {
        return Err;
      }
    }
  }

  // ── The lines add up ─────────────────────────────────────────

  function SumOf(lines: seq<OrderLine>): real {
    if lines == [] then 0.0 else SumOf(lines[..|lines| - 1]) + lines[|lines| - 1].price
  }

  lemma SumOfOneMore(lines: seq<OrderLine>, line: OrderLine)
    ensures SumOf(lines + [line]) == SumOf(lines) + line.price
  {
    assert (lines + [line])[..|lines|] == lines;
  }

  lemma {:induction false} SumOfRepeated(lines: seq<OrderLine>, line: OrderLine, n: nat)
    ensures SumOf(lines + Repeated(line, n)) == SumOf(lines) + Extended(line.price, n as real)
    decreases n
  {
    hide Extended, SumOf;
    if n == 0 {
      ExtendedAdds(line.price, 0.0, 0.0);
      assert lines + Repeated(line, n) == lines;
    } else {
      SumOfRepeated(lines, line, n - 1);
      assert lines + Repeated(line, n) == (lines + Repeated(line, n - 1)) + [line];
      SumOfOneMore(lines + Repeated(line, n - 1), line);
      ExtendedAdds(line.price, (n - 1) as real, 1.0);
      assert n as real == (n - 1) as real + 1.0;
    }
  }

  /** What the stones generated for one row weigh. */
  function RowBuilt(q: Rfq, row: Row): real {
    if Count(q, row) <= 0 then 0.0 else Extended(LineCarat(q, row), Count(q, row) as real)
  }

  function BuiltWeight(q: Rfq, n: nat): real
    requires n <= |q.rows|
  {
    if n == 0 then 0.0 else BuiltWeight(q, n - 1) + RowBuilt(q, q.rows[n - 1])
  }

  lemma LinesHaveWeight(q: Rfq, row: Row)
    requires Count(q, row) > 0
    ensures LineCarat(q, row) != 0.0
  {
    if !q.inPieces {
      SharesMakeTheWhole(row.quantity, Count(q, row) as real);
    }
  }

  lemma {:induction false} LinesWorth(q: Rfq, margin: real, unitPrice: real, n: nat)
    requires n <= |q.rows|
    ensures SumOf(Expanded(q, margin, unitPrice, n)) == Extended(Rate(q, margin), BuiltWeight(q, n))
    ensures |Expanded(q, margin, unitPrice, n)| == TotalCount(q, q.rows[..n])
  {
    hide Rate, LineCarat, StoneCarat, Count, Extended, Share;
    var rate := Rate(q, margin);
    ExtendedAdds(rate, 0.0, 0.0);
    if n > 0 {
      LinesWorth(q, margin, unitPrice, n - 1);
      assert q.rows[..n][..n - 1] == q.rows[..n - 1];
      var row := q.rows[n - 1];
      if Count(q, row) > 0 {
        SumOfRepeated(Expanded(q, margin, unitPrice, n - 1), RowLine(q, margin, unitPrice, n - 1), Count(q, row));
        LinesHaveWeight(q, row);
        ExtendedRegroups(rate, LineCarat(q, row), Count(q, row) as real);
      }
      ExtendedAdds(rate, BuiltWeight(q, n - 1), RowBuilt(q, row));
    }
  }

  /** A row is built without loss: whole stones, or a weight that rounds to some stone. */
  predicate KeepsItsWeight(q: Rfq, row: Row) {
    row.quantity == 0.0 || (if q.inPieces then row.quantity == row.quantity.Floor as real else row.quantity > 0.5)
  }

  predicate NoNegativeRow(q: Rfq) {
    && q.piecesPerCarat >= 0.0
    && forall i | 0 <= i < |q.rows| :: q.rows[i].quantity >= 0.0 && q.rows[i].caratPerPiece >= 0.0
  }

  /** What a row's stones weigh against the row: the same if it keeps its weight, less if not. */
  lemma RowLoss(q: Rfq, row: Row)
    requires row.quantity >= 0.0 && StoneCarat(q, row) > 0.0
    ensures 0.0 <= RowBuilt(q, row) <= Weight(q, row)
    ensures RowBuilt(q, row) == Weight(q, row) <==> KeepsItsWeight(q, row)
    ensures Weight(q, row) == 0.0 <==> row.quantity == 0.0
  {
    hide StoneCarat, Extended, Share;
    ExtendedAdds(StoneCarat(q, row), 0.0, 0.0);
    if q.inPieces {
      var n := Truncated(row.quantity);
      if n as real < row.quantity {
        ExtendedGrows(StoneCarat(q, row), n as real, row.quantity);
      }
      if 0.0 < row.quantity {
        ExtendedGrows(StoneCarat(q, row), 0.0, row.quantity);
      }
      if 0 < n {
        ExtendedGrows(StoneCarat(q, row), 0.0, n as real);
      }
    } else if Count(q, row) > 0 {
      SharesMakeTheWhole(row.quantity, Count(q, row) as real);
    }
  }

  lemma StonesWeighSomething(q: Rfq, row: Row)
    requires q.piecesPerCarat >= 0.0 && row.caratPerPiece >= 0.0
    ensures StoneCarat(q, row) > 0.0
  {
  }

  lemma {:induction false} LossAddsUp(q: Rfq, n: nat)
    requires NoNegativeRow(q) && n <= |q.rows|
    ensures BuiltWeight(q, n) <= TotalWeight(q, q.rows[..n])
    ensures BuiltWeight(q, n) == TotalWeight(q, q.rows[..n]) <==> forall i | 0 <= i < n :: KeepsItsWeight(q, q.rows[i])
    ensures 0.0 <= TotalWeight(q, q.rows[..n])
    ensures TotalWeight(q, q.rows[..n]) == 0.0 ==> TotalCount(q, q.rows[..n]) == 0
  {
    hide KeepsItsWeight, StoneCarat, RowBuilt, Weight, Extended;
    if n > 0 {
      var row := q.rows[n - 1];
      LossAddsUp(q, n - 1);
      assert q.rows[..n][..n - 1] == q.rows[..n - 1];
      StonesWeighSomething(q, row);
      RowLoss(q, row);
    }
  }

  /** An RFQ without negative quantities, at any margin: the order is created exactly when the
      quote comes to something, no count passes the threshold and some stone is counted. The
      order then has as many lines as the quote was priced for, and their prices add up to
      the Order Total exactly when every row keeps its weight. */
  lemma LinesAddUpExactlyWhenRowsKeepTheirWeight(q: Rfq, margin: real)
    requires NoNegativeRow(q)
    ensures OfflineOrder(q, margin).Ok? <==>
            && OrderTotal(q, margin) != 0.0
            && (if q.rows != [] then NoRowTooLarge(q) && StoneCount(q) > 0 else LegacyQuantity(q) <= THRESHOLD)
    ensures OfflineOrder(q, margin).Ok? ==>
            var lines := OfflineOrder(q, margin).value;
            && |lines| == PricedCount(q)
            && (SumOf(lines) == OrderTotal(q, margin) <==> forall i | 0 <= i < |q.rows| :: KeepsItsWeight(q, q.rows[i]))
  {
    hide Rate, KeepsItsWeight, StoneCarat, Count, RowBuilt, EffectiveCarat, Extended, Share;
    if OrderTotal(q, margin) != 0.0 {
      var unitPrice := if TotalPrice(q, margin) != 0.0 then TotalPrice(q, margin) else q.price;
      ExtendedAdds(OrderCarat(q), 0.0, 0.0);
      RateIsNotZero(q, margin);
      if q.rows != [] {
        assert q.rows[..|q.rows|] == q.rows;
        LinesWorth(q, margin, unitPrice, |q.rows|);
        LossAddsUp(q, |q.rows|);
        if TotalWeight(q, q.rows) != 0.0 {
          WeightIsEffective(q);
          ExtendedDiffers(Rate(q, margin), BuiltWeight(q, |q.rows|), TotalWeight(q, q.rows));
        }
      } else {
        LegacyLinesAddUp(q, margin);
      }
    }
  }

  lemma RateIsNotZero(q: Rfq, margin: real)
    requires OrderTotal(q, margin) != 0.0
    ensures Rate(q, margin) != 0.0
  {
    hide Rate, OrderCarat;
  }

  lemma WeightIsEffective(q: Rfq)
    requires TotalWeight(q, q.rows) != 0.0
    ensures EffectiveCarat(q) == TotalWeight(q, q.rows)
  {
  }

  lemma LegacyLinesAddUp(q: Rfq, margin: real)
    requires q.rows == [] && OrderTotal(q, margin) != 0.0
    ensures
      var n := Max(1, LegacyQuantity(q));
      && n == PricedCount(q)
      && TotalPrice(q, margin) != 0.0
      && SumOf(Repeated(OrderLine(TotalPrice(q, margin), -1), n)) == OrderTotal(q, margin)
  {
    hide OrderTotal, Extended, Share;
    var n, total := Max(1, LegacyQuantity(q)), OrderTotal(q, margin);
    SharesMakeTheWhole(total, n as real);
    var line := OrderLine(TotalPrice(q, margin), -1);
    SumOfRepeated([], line, n);
    assert [] + Repeated(line, n) == Repeated(line, n);
  }

  /** Half a carat rounds to no stone at all: the quote charges for it, the order does not. */
  lemma HalfCaratIsLost()
    ensures
      var q := Rfq([Row(0.5, 0.0, 0.0), Row(2.0, 0.0, 0.0)], false, 22.0, 0.0, 0.0, 0, false, 100.0, false);
      && OfflineOrder(q, 0.0).Ok?
      && SumOf(OfflineOrder(q, 0.0).value) != OrderTotal(q, 0.0)
  {
    var q := Rfq([Row(0.5, 0.0, 0.0), Row(2.0, 0.0, 0.0)], false, 22.0, 0.0, 0.0, 0, false, 100.0, false);
    assert q.rows[..2] == q.rows && q.rows[..2][..1] == q.rows[..1] && q.rows[..1][..0] == [];
    assert TotalWeight(q, q.rows[..1]) == 0.5;
    assert TotalWeight(q, q.rows) == TotalWeight(q, q.rows[..1]) + 2.0;
    assert Count(q, q.rows[0]) == 0 && Count(q, q.rows[1]) == 2;
    assert TotalCount(q, q.rows[..0]) == 0 && TotalCount(q, q.rows[..1]) == 0;
    assert TotalCount(q, q.rows) == TotalCount(q, q.rows[..1]) + 2;
    assert EffectiveCarat(q) == 2.5 && BasePrice(q) == 250.0;
    assert Quoted(q, 0.0) == 250.0;
    assert Rate(q, 0.0) == 100.0;
    assert OrderTotal(q, 0.0) == Extended(100.0, 2.5) == 250.0;
    assert !KeepsItsWeight(q, q.rows[0]);
    LinesAddUpExactlyWhenRowsKeepTheirWeight(q, 0.0);
  }

  /** Any RFQ, any margin: an order that is created has as many lines as the RFQ's stone count,
      which is said to mirror the expansion, unless it is a melee parcel whose header still
      holds a quantity above one. */
  lemma StoneCountMirrorsExactlyWhen(q: Rfq, margin: real)
    requires OfflineOrder(q, margin).Ok?
    ensures |OfflineOrder(q, margin).value| == PricedCount(q)
    ensures |OfflineOrder(q, margin).value| == StoneCount(q) <==> !(q.rows == [] && q.meleeParcel && q.quantity > 1)
  {
    hide OrderTotal, TotalPrice, Rate, StoneCarat, Count, Extended, Share;
    var unitPrice := if TotalPrice(q, margin) != 0.0 then TotalPrice(q, margin) else q.price;
    if q.rows != [] {
      LinesWorth(q, margin, unitPrice, |q.rows|);
      assert q.rows[..|q.rows|] == q.rows;
    }
  }

  /** A melee parcel that kept a quantity of three: three stones counted, one line made. */
  lemma StaleQuantityIsCounted()
    ensures
      var q := Rfq([], false, 22.0, 2.0, 0.0, 3, true, 100.0, false);
      OfflineOrder(q, 0.0).Ok? && |OfflineOrder(q, 0.0).value| == 1 && StoneCount(q) == 3
  {
  }

  // ── What a quote comes to, in figures ────────────────────────

  /** One more size line adds its carats, or its pieces at their weight - failing one of its own a
      piece weighs one carat over the RFQ's pieces per carat, 22 when it has none - and its costing
      times its quantity. */
  lemma OneMoreRowAdds(q: Rfq, rows: seq<Row>, row: Row)
    ensures TotalWeight(q, []) == 0.0 && TotalCosting([]) == 0.0
    ensures
      var piece := if row.caratPerPiece != 0.0 then row.caratPerPiece
        else if q.piecesPerCarat != 0.0 then 1.0 / q.piecesPerCarat
        else 1.0 / 22.0;
      TotalWeight(q, rows + [row]) == TotalWeight(q, rows) + if q.inPieces then piece * row.quantity else row.quantity
    ensures TotalCosting(rows + [row]) == TotalCosting(rows) + row.costing * row.quantity
  {
    OneMoreRow(q, rows, row);
  }

  lemma OneMoreRow(q: Rfq, rows: seq<Row>, row: Row)
    ensures TotalWeight(q, rows + [row]) == TotalWeight(q, rows) + Weight(q, row)
    ensures TotalCosting(rows + [row]) == TotalCosting(rows) + Extended(row.costing, row.quantity)
  {
    hide Weight, Extended;
    assert (rows + [row])[..|rows|] == rows;
  }

  /** The weight a quote is reckoned on: its size lines'; failing that the header's carats; failing
      that the total carats. */
  lemma WeightOfQuote(q: Rfq)
    ensures TotalWeight(q, q.rows) != 0.0 ==> EffectiveCarat(q) == TotalWeight(q, q.rows)
    ensures q.rows == [] && q.carat != 0.0 ==> EffectiveCarat(q) == q.carat
    ensures q.rows == [] && q.carat == 0.0 ==> EffectiveCarat(q) == q.totalCarat
    ensures EffectiveCarat(q) == 0.0 <==> TotalWeight(q, q.rows) == 0.0 && q.carat == 0.0 && q.totalCarat == 0.0
  {
  }

  /** The order total of a quote that weighs something is the price of its weight, or of its size
      lines each at its own costing, plus the margin; of a header without size lines that is no
      melee parcel, that times its quantity, at least once. A lone price without weight comes to
      nothing. */
  lemma OrderTotalIsPricePlusMargin(q: Rfq, margin: real)
    ensures
      var w := EffectiveCarat(q);
      var price := if q.differentPrices && q.rows != [] then TotalCosting(q.rows) else q.price * w;
      var times := if q.rows == [] && !q.meleeParcel then Max(1, q.quantity) else 1;
      OrderTotal(q, margin) == if w == 0.0 then 0.0 else (price + price * (margin / 100.0)) * times as real
  {
    var w, quoted := EffectiveCarat(q), Quoted(q, margin);
    hide EffectiveCarat, TotalCosting;
    if w != 0.0 {
      RateTimesWeight(quoted, w, if q.rows != [] || q.meleeParcel then 1.0 else StoneCount(q) as real);
    }
  }

  lemma RateTimesWeight(quoted: real, w: real, n: real)
    requires w != 0.0
    ensures Extended(Share(quoted, w), w) == quoted
    ensures Extended(Share(quoted, w), Extended(w, n)) == quoted * n
  {
    var rate := quoted / w;
    assert rate * w == quoted;
    assert rate * (w * n) == (rate * w) * n;
  }

  /** A line is priced at the order total over the number of lines, and each line of a size line at
      the rate times its own weight. The rate is the order's price per carat. */
  lemma RateIsPricePerCarat(q: Rfq, margin: real)
    ensures EffectiveCarat(q) != 0.0 && q.rows != [] ==> Rate(q, margin) * EffectiveCarat(q) == OrderTotal(q, margin)
    ensures PricedCount(q) != 0 ==> TotalPrice(q, margin) * PricedCount(q) as real == OrderTotal(q, margin)
    ensures PricedCount(q) == 0 && EffectiveCarat(q) != 0.0 ==> TotalPrice(q, margin) == OrderTotal(q, margin)
    ensures EffectiveCarat(q) == 0.0 ==> Rate(q, margin) == q.price
  {
    OrderTotalIsPricePlusMargin(q, margin);
    hide OrderTotal, EffectiveCarat, TotalCosting;
    if PricedCount(q) != 0 {
      SharesMakeTheWhole(OrderTotal(q, margin), PricedCount(q) as real);
    }
    if EffectiveCarat(q) != 0.0 {
      RateTimesWeight(Quoted(q, margin), EffectiveCarat(q), 1.0);
    }
  }

  /** The stones of a size line: whole pieces, the fraction dropped; or carats to the nearest whole
      one. More than fifty from one line, or from a header, and no order is made. */
  lemma TooManyStonesAreRefused(q: Rfq, margin: real)
    requires OrderTotal(q, margin) != 0.0
    ensures q.rows == [] ==> (OfflineOrder(q, margin).Err? <==> !q.meleeParcel && q.quantity > 50)
    ensures q.rows != [] ==>
      (OfflineOrder(q, margin).Err? <==>
          StoneCount(q) == 0 || exists i :: 0 <= i < |q.rows| && AboveFifty(q, q.rows[i]))
  {
    hide OrderTotal, TotalPrice, Rate;
    forall i | 0 <= i < |q.rows|
      ensures Count(q, q.rows[i]) > 50 <==> AboveFifty(q, q.rows[i])
    {
      CountAboveFifty(q, q.rows[i]);
    }
    hide Count, AboveFifty;
    if q.rows != [] && NoRowTooLarge(q) {
      LinesWorth(q, margin, if TotalPrice(q, margin) != 0.0 then TotalPrice(q, margin) else q.price, |q.rows|);
      assert q.rows[..|q.rows|] == q.rows;
    }
  }

  predicate AboveFifty(q: Rfq, row: Row) {
    if q.inPieces then row.quantity >= 51.0 else row.quantity > 50.5
  }

  lemma CountAboveFifty(q: Rfq, row: Row)
    ensures Count(q, row) > 50 <==> AboveFifty(q, row)
  {
    if q.inPieces {
      if row.quantity >= 0.0 {
        assert row.quantity >= 51.0 <==> row.quantity.Floor >= 51;
      }
    }
  }
}
