/** The aged partner balance (accounting_pdf_reports/report/report_aged_partner.py): due dates
    as day numbers, residuals in the company's currency as exact reals. The report covers the
    journal items its queries have in common; each query adds its own range of due dates. */
module AgedBalance {
  /** What of an item was reconciled on a day. */
  datatype Match = Match(day: int, amount: real)

  /** A journal item, with the debits and the credits reconciled with it. */
  datatype Item = Item(partner: nat, due: int, balance: real, debits: seq<Match>, credits: seq<Match>)

  datatype Period = Period(start: int, stop: int)

  datatype Row = Row(partner: nat, notDue: real, buckets: seq<real>, total: real)

  /** What was reconciled up to the report's date. */
  function MatchedBy(ms: seq<Match>, date: int): real {
    if ms == [] then 0.0
    else MatchedBy(ms[..|ms| - 1], date) + if ms[|ms| - 1].day <= date then ms[|ms| - 1].amount else 0.0
  }

  /** What an item adds to the report; a zero balance is passed over. */
  function Amount(m: Item, date: int): real {
    if m.balance == 0.0 then 0.0 else m.balance + MatchedBy(m.debits, date) - MatchedBy(m.credits, date)
  }

  /** An item settled by credits on or before the date adds nothing, and one settled afterwards all
      of its balance; so does a credit settled by debits. */
  lemma SettledItemsAddNothing(m: Item, date: int, day: int)
    ensures m.debits == [] && m.credits == [Match(day, m.balance)] ==>
      Amount(m, date) == if day <= date then 0.0 else m.balance
    ensures m.credits == [] && m.debits == [Match(day, -m.balance)] ==>
      Amount(m, date) == if day <= date then 0.0 else m.balance
  {
    assert forall r :: MatchedBy([r], date) == if r.day <= date then r.amount else 0.0;
  }

  /** Reconciling a debit item with a credit item, whatever the amount and the day, moves that
      amount between them and leaves what they add together as it was. */
  lemma ReconcilingMovesNothing(a: Item, b: Item, r: Match, date: int)
    requires a.balance != 0.0 && b.balance != 0.0
    ensures
      var after, paid := a.(credits := a.credits + [r]), b.(debits := b.debits + [r]);
      && Amount(after, date) + Amount(paid, date) == Amount(a, date) + Amount(b, date)
      && Amount(after, date) == Amount(a, date) - if r.day <= date then r.amount else 0.0
  {
    assert (a.credits + [r])[..|a.credits|] == a.credits && (b.debits + [r])[..|b.debits|] == b.debits;
  }

  /** Which query finds an item due on a day: 0 to 4 for the buckets, oldest first, 6 for not
      yet due. The oldest bucket has no start. */
  predicate FoundBy(periods: seq<Period>, date: int, i: nat, due: int)
    requires |periods| == 5
  {
    if i == 6 then due >= date
    else i < 5 && due <= periods[i].stop && (i == 0 || periods[i].start <= due)
  }

  /** The items of one partner that one query finds, added up. */
  function SumFound(items: seq<Item>, periods: seq<Period>, date: int, i: nat, partner: nat): real
    requires |periods| == 5
  {
    if items == [] then 0.0
    else
      var n := |items| - 1;
      var m := items[n];
      SumFound(items[..n], periods, date, i, partner)
      + if m.partner == partner && FoundBy(periods, date, i, m.due) then Amount(m, date) else 0.0
  }

  function SumOf(items: seq<Item>, date: int, partner: nat): real {
    if items == [] then 0.0
    else
      var m := items[|items| - 1];
      SumOf(items[..|items| - 1], date, partner) + if m.partner == partner then Amount(m, date) else 0.0
  }

  /** Each bucket ends the day before the next one starts, the last the day before the date. */
  predicate Adjoining(periods: seq<Period>, date: int, length: nat) {
    && |periods| == 5
    && periods[4].stop == date - 1
    && (forall i | 0 <= i < 5 :: periods[i].start == periods[i].stop - length + 1)
    && (forall i | 0 <= i < 4 :: periods[i].stop == periods[i + 1].start - 1)
  }

  /** Every due date is found by exactly one query. */
  lemma BucketsPartitionTheDates(periods: seq<Period>, date: int, length: nat, due: int)
    requires length > 0 && Adjoining(periods, date, length)
    ensures exists i :: FoundBy(periods, date, i, due) && forall j :: FoundBy(periods, date, j, due) ==> j == i
  {
    var i := if due >= date then 6
             else if due >= periods[4].start then 4
             else if due >= periods[3].start then 3
             else if due >= periods[2].start then 2
             else if due >= periods[1].start then 1
             else 0;
    assert periods[0].stop < periods[1].start <= periods[1].stop < periods[2].start;
    assert periods[2].start <= periods[2].stop < periods[3].start <= periods[3].stop;
    assert periods[3].stop < periods[4].start <= periods[4].stop < date;
    assert FoundBy(periods, date, i, due);
    forall j | FoundBy(periods, date, j, due)
      ensures j == i
    {
      assert j == 6 || j == 0 || j == 1 || j == 2 || j == 3 || j == 4;
    }
  }

  /** Bucket 4 finds what is overdue by up to one period, bucket 3 by more than one and up to two,
      and so on; bucket 0 whatever is overdue by more than four; query 6 what is not overdue. */
  lemma BucketsAreDaysOverdue(periods: seq<Period>, date: int, length: nat, due: int)
    requires length > 0 && Adjoining(periods, date, length)
    ensures FoundBy(periods, date, 6, due) <==> date - due <= 0
    ensures FoundBy(periods, date, 4, due) <==> 0 < date - due <= length
    ensures FoundBy(periods, date, 3, due) <==> length < date - due <= 2 * length
    ensures FoundBy(periods, date, 2, due) <==> 2 * length < date - due <= 3 * length
    ensures FoundBy(periods, date, 1, due) <==> 3 * length < date - due <= 4 * length
    ensures FoundBy(periods, date, 0, due) <==> 4 * length < date - due
    ensures !FoundBy(periods, date, 5, due)
  {
    assert periods[4].start == date - length && periods[3].stop == date - length - 1;
    assert periods[3].start == date - 2 * length && periods[2].stop == date - 2 * length - 1;
    assert periods[2].start == date - 3 * length && periods[1].stop == date - 3 * length - 1;
    assert periods[1].start == date - 4 * length && periods[0].stop == date - 4 * length - 1;
  }

  /** No item is lost between the queries and none is found twice. */
  lemma {:induction false} BucketsLoseNothing(items: seq<Item>, periods: seq<Period>, date: int, length: nat,
      partner: nat)
    requires length > 0 && Adjoining(periods, date, length)
    ensures SumOf(items, date, partner)
         == SumFound(items, periods, date, 6, partner) + SumFound(items, periods, date, 0, partner)
          + SumFound(items, periods, date, 1, partner) + SumFound(items, periods, date, 2, partner)
          + SumFound(items, periods, date, 3, partner) + SumFound(items, periods, date, 4, partner)
  {
    if items != [] {
      var n := |items| - 1;
      BucketsLoseNothing(items[..n], periods, date, length, partner);
      BucketsPartitionTheDates(periods, date, length, items[n].due);
    }
  }

  // ── The program ──────────────────────────────────────────────

  /** The five periods, from the report's date backwards. */
  method Periods(date: int, length: nat) returns (periods: seq<Period>)
    ensures Adjoining(periods, date, length)
  {
    periods := [];
    var start := date;
    for i := 5 downto 0
      invariant |periods| == 5 - i && start == date - (5 - i) * length
      invariant forall k | 0 <= k < |periods| :: periods[k].start == periods[k].stop - length + 1
      invariant forall k | 0 <= k < |periods| - 1 :: periods[k].stop == periods[k + 1].start - 1
      invariant periods != [] ==> periods[|periods| - 1].stop == date - 1 && periods[0].start == start
    {
      var stop := start - length;
      periods := [Period(stop, start - 1)] + periods;
      start := stop;
    }
  }

  /** The loop over the reconciliations of one item. */
  method TotalMatched(ms: seq<Match>, date: int) returns (total: real)
    ensures total == MatchedBy(ms, date)
  {
    total := 0.0;
    for i := 0 to |ms|
      invariant total == MatchedBy(ms[..i], date)
    {
      assert ms[..i + 1][..i] == ms[..i];
      if ms[i].day <= date {
        total := total + ms[i].amount;
      }
    }
    assert ms[..|ms|] == ms;
  }

  /** One query's loop: what it found, by partner. */
  method Collect(items: seq<Item>, periods: seq<Period>, date: int, i: nat) returns (found: map<nat, real>)
    requires |periods| == 5
    ensures Collected(found, items, periods, date, i)
  {
    found := map[];
    for k := 0 to |items|
      invariant forall p :: (if p in found then found[p] else 0.0) == SumFound(items[..k], periods, date, i, p)
    {
      assert items[..k + 1][..k] == items[..k];
      var m := items[k];
      if !FoundBy(periods, date, i, m.due) {
        continue;
      }
      if m.partner !in found {
        found := found[m.partner := 0.0];
      }
      if m.balance == 0.0 {
        continue;
      }
      var debits := TotalMatched(m.debits, date);
      var credits := TotalMatched(m.credits, date);
      found := found[m.partner := found[m.partner] + (m.balance + debits - credits)];
    }
    assert items[..|items|] == items;
  }

  /** A row read across: its buckets, its total in place 5, its not-due amount in place 6. */
  function Cell(row: Row, i: nat): real {
    if i == 6 then row.notDue else if i == 5 then row.total else if i < |row.buckets| then row.buckets[i] else 0.0
  }

  predicate AddsAcross(row: Row) {
    Cell(row, 5) == Cell(row, 6) + Cell(row, 0) + Cell(row, 1) + Cell(row, 2) + Cell(row, 3) + Cell(row, 4)
  }

  function SumColumn(rows: seq<Row>, i: nat): real {
    if rows == [] then 0.0 else SumColumn(rows[..|rows| - 1], i) + Cell(rows[|rows| - 1], i)
  }

  lemma OneMoreRow(rows: seq<Row>, row: Row)
    ensures forall i :: SumColumn(rows + [row], i) == SumColumn(rows, i) + Cell(row, i)
  {
    assert (rows + [row])[..|rows|] == rows;
  }

  /** The columns of the totals line add up across as every row does. */
  lemma {:induction false} TotalsAddUpAcross(rows: seq<Row>)
    requires forall r | 0 <= r < |rows| :: AddsAcross(rows[r])
    ensures SumColumn(rows, 5)
         == SumColumn(rows, 6) + SumColumn(rows, 0) + SumColumn(rows, 1) + SumColumn(rows, 2) + SumColumn(rows, 3) +
             SumColumn(rows, 4)
  {
    hide Cell;
    if rows != [] {
      TotalsAddUpAcross(rows[..|rows| - 1]);
    }
  }

  /** One partner's row, summed across. */
  method PartnerRow(undue: map<nat, real>, history: seq<map<nat, real>>, ghost items: seq<Item>,
      ghost periods: seq<Period>, ghost date: int, ghost length: nat, p: nat)
    returns (row: Row)
    requires length > 0 && Adjoining(periods, date, length) && |history| == 5
    requires Collected(undue, items, periods, date, 6) &&
        forall i | 0 <= i < 5 :: Collected(history[i], items, periods, date, i)
    ensures IsRow(row, items, periods, date, p)
    ensures AddsAcross(row)
  {
    var notDue := if p in undue then undue[p] else 0.0;
    var buckets: seq<real> := [];
    var sum := notDue;
    for i := 0 to 5
      invariant |buckets| == i
      invariant forall k | 0 <= k < i :: buckets[k] == SumFound(items, periods, date, k, p)
      invariant sum == notDue + (if i > 0 then buckets[0] else 0.0) + (if i > 1 then buckets[1] else 0.0)
                       + (if i > 2 then buckets[2] else 0.0) + (if i > 3 then buckets[3] else 0.0) +
                           (if i > 4 then buckets[4] else 0.0)
    {
      var cell := if p in history[i] then history[i][p] else 0.0;
      assert Collected(history[i], items, periods, date, i);
      buckets := buckets + [cell];
      sum := sum + cell;
    }
    BucketsLoseNothing(items, periods, date, length, p);
    row := Row(p, notDue, buckets, sum);
  }

  /** _get_partner_move_lines: a row per partner, in the partners' order, and the totals line:
      five columns, the grand total in place 5, the not-due column in place 6. Rows of zeros
      count in the totals like the others; the report merely does not print them. */
  method PartnerLines(items: seq<Item>, partners: seq<nat>, date: int, length: nat)
    returns (ghost periods: seq<Period>, rows: seq<Row>, total: seq<real>)
    requires length > 0
    ensures Adjoining(periods, date, length)
    ensures |rows| == |partners| && forall r | 0 <= r < |rows| :: IsRow(rows[r], items, periods, date, partners[r])
    ensures |total| == 7 && forall i | 0 <= i < 7 :: total[i] == SumColumn(rows, i)
    ensures total[5] == total[6] + total[0] + total[1] + total[2] + total[3] + total[4]
  {
    hide SumFound, SumOf, IsRow, Cell, Collected;
    var ps := Periods(date, length);
    periods := ps;
    var undue := Collect(items, ps, date, 6);
    var history: seq<map<nat, real>> := [];
    for i := 0 to 5
      invariant |history| == i
      invariant forall k | 0 <= k < i :: Collected(history[k], items, ps, date, k)
    {
      var found := Collect(items, ps, date, i);
      history := history + [found];
    }
    rows := [];
    total := [0.0, 0.0, 0.0, 0.0, 0.0, 0.0, 0.0];
    for n := 0 to |partners|
      invariant |rows| == n && |total| == 7
      invariant forall r | 0 <= r < n :: IsRow(rows[r], items, ps, date, partners[r])
      invariant forall r | 0 <= r < n :: AddsAcross(rows[r])
      invariant forall i | 0 <= i < 7 :: total[i] == SumColumn(rows, i)
    {
      var row := PartnerRow(undue, history, items, ps, date, length, partners[n]);
      OneMoreRow(rows, row);
      ghost var before := total;
      total := total[6 := total[6] + Cell(row, 6)];
      for i := 0 to 5
        invariant |total| == 7 && total[5] == before[5] && total[6] == before[6] + Cell(row, 6)
        invariant forall k | 0 <= k < 5 :: total[k] == before[k] + if k < i then Cell(row, k) else 0.0
      {
        total := total[i := total[i] + Cell(row, i)];
      }
      total := total[5 := total[5] + Cell(row, 5)];
      rows := rows + [row];
    }
    TotalsAddUpAcross(rows);
  }

  ghost predicate Collected(found: map<nat, real>, items: seq<Item>, periods: seq<Period>, date: int, i: nat)
    requires |periods| == 5
  {
    forall p :: (if p in found then found[p] else 0.0) == SumFound(items, periods, date, i, p)
  }

  /** A partner's row: each cell what its query found, the total all of the partner's items. */
  ghost predicate IsRow(row: Row, items: seq<Item>, periods: seq<Period>, date: int, partner: nat)
    requires |periods| == 5
  {
    && row.partner == partner && |row.buckets| == 5
    && row.notDue == SumFound(items, periods, date, 6, partner)
    && (forall i | 0 <= i < 5 :: row.buckets[i] == SumFound(items, periods, date, i, partner))
    && row.total == SumOf(items, date, partner)
  }
}
