/** Merging a parcel's stones into slip rows (contact_stage_bar/models/
    lgd_inventory_sale_line.py:48-91): certified stones one by one, the others by what they
    look like and cost. Stripped text, carats already read as numbers, rates in ten-thousandths. */
module SlipRows {
  datatype Stone = Stone(
    certificate: string, shape: string, color: string, clarity: string, stoneType: string,
    hsn: string, caratText: string, rate: int, qty: real, carats: real, amount: real)

  /** What uncertified stones must share to share a row; shapes whatever their case. */
  datatype Kind = Kind(shape: string, color: string, clarity: string, stoneType: string, hsn: string, caratText: string,
      rate: int)

  /** first describes the row; the text of its carats holds only while one stone owns it. */
  datatype Row = Row(first: Stone, qty: real, carats: real, amount: real, count: nat)

  function Upper(s: string): (u: string)
    ensures |u| == |s|
  {
    seq(|s|, i requires 0 <= i < |s| => if 'a' <= s[i] <= 'z' then s[i] - 'a' + 'A' else s[i])
  }

  function KindOf(s: Stone): Kind {
    Kind(Upper(s.shape), s.color, s.clarity, s.stoneType, s.hsn, s.caratText, s.rate)
  }

  predicate Certified(s: Stone) {
    s.certificate != ""
  }

  /** Do two places of the list share a row? */
  predicate Shares(lines: seq<Stone>, i: nat, j: nat)
    requires i < |lines| && j < |lines|
  {
    i == j || (!Certified(lines[i]) && !Certified(lines[j]) && KindOf(lines[i]) == KindOf(lines[j]))
  }

  /** The same letter, or the small and the capital of one. */
  predicate SameLetter(c: char, d: char) {
    || c == d
    || ('a' <= c <= 'z' && d == c - 'a' + 'A')
    || ('A' <= c <= 'Z' && d == c - 'A' + 'a')
  }

  /** Two stones share a row if and only if neither has a certificate and they agree in colour,
      clarity, stone type, tax code, carats and rate, and letter by letter in shape. */
  lemma SharesExactlyWhen(lines: seq<Stone>, i: nat, j: nat)
    requires i < |lines| && j < |lines| && i != j
    ensures Shares(lines, i, j) <==>
      var a, b := lines[i], lines[j];
      && a.certificate == "" && b.certificate == ""
      && |a.shape| == |b.shape| && (forall k | 0 <= k < |a.shape| :: SameLetter(a.shape[k], b.shape[k]))
      && a.color == b.color && a.clarity == b.clarity && a.stoneType == b.stoneType && a.hsn == b.hsn
      && a.caratText == b.caratText && a.rate == b.rate
  {
    var a, b := lines[i], lines[j];
    SameUpper(a.shape, b.shape);
  }

  lemma SameUpper(s: string, t: string)
    ensures Upper(s) == Upper(t) <==> |s| == |t| && forall k | 0 <= k < |s| :: SameLetter(s[k], t[k])
  {
    if |s| == |t| {
      forall k | 0 <= k < |s|
        ensures Upper(s)[k] == Upper(t)[k] <==> SameLetter(s[k], t[k])
      {
      }
    }
  }

  lemma SharingIsAnEquivalence(lines: seq<Stone>, i: nat, j: nat, k: nat)
    requires i < |lines| && j < |lines| && k < |lines|
    ensures Shares(lines, i, i)
    ensures Shares(lines, i, j) ==> Shares(lines, j, i)
    ensures Shares(lines, i, j) && Shares(lines, j, k) ==> Shares(lines, i, k)
  {
  }

  function Plus(row: Row, s: Stone): Row {
    row.(qty := row.qty + s.qty, carats := row.carats + s.carats, amount := row.amount + s.amount,
        count := row.count + 1)
  }

  /** The class of place i, summed. */
  function ClassOf(lines: seq<Stone>, i: nat, n: nat): Row
    requires i < |lines| && n <= |lines|
  {
    if n == 0 then Row(lines[i], 0.0, 0.0, 0.0, 0)
    else if Shares(lines, i, n - 1) then Plus(ClassOf(lines, i, n - 1), lines[n - 1])
    else ClassOf(lines, i, n - 1)
  }

  predicate IsFirst(lines: seq<Stone>, i: nat)
    requires i < |lines|
  {
    forall j | 0 <= j < i :: !Shares(lines, i, j)
  }

  /** The rows are the classes, each standing where its first stone stood. */
  predicate Grouped(rows: seq<Row>, firsts: seq<nat>, lines: seq<Stone>, n: nat)
    requires n <= |lines|
  {
    && |rows| == |firsts|
    && (forall r | 0 <= r < |firsts| ::
        firsts[r] < n && IsFirst(lines, firsts[r]) && rows[r] == ClassOf(lines, firsts[r], n))
    && (forall r, q | 0 <= r < q < |firsts| :: firsts[r] < firsts[q])
    && (forall i | 0 <= i < n && IsFirst(lines, i) :: i in firsts)
  }

  /** Nothing before place i shares a row with it: its class starts there. */
  lemma {:induction false} FirstStandsAlone(lines: seq<Stone>, i: nat, n: nat)
    requires i < |lines| && n <= i && IsFirst(lines, i)
    ensures ClassOf(lines, i, n) == Row(lines[i], 0.0, 0.0, 0.0, 0)
  {
    if n > 0 {
      FirstStandsAlone(lines, i, n - 1);
    }
  }

  /** Every place shares with exactly one first. */
  lemma {:induction false} HasAFirst(lines: seq<Stone>, i: nat) returns (f: nat)
    requires i < |lines|
    ensures f <= i && IsFirst(lines, f) && Shares(lines, f, i)
  {
    if IsFirst(lines, i) {
      f := i;
    } else {
      var j :| 0 <= j < i && Shares(lines, i, j);
      f := HasAFirst(lines, j);
    }
  }

  // ── The program ──────────────────────────────────────────────

  /** lgd_group_slip_rows: rows updated in place through the index of what was seen. */
  method GroupSlipRows(lines: seq<Stone>) returns (rows: seq<Row>, ghost firsts: seq<nat>)
    ensures Grouped(rows, firsts, lines, |lines|)
  {
    hide KindOf, Grouped, Shares, Seen;
    rows, firsts := [], [];
    NothingGrouped(lines);
    var seen: map<Kind, nat> := map[];
    for i := 0 to |lines|
      invariant Grouped(rows, firsts, lines, i)
      invariant Seen(seen, firsts, lines, i)
    {
      var s := lines[i];
      var kind := KindOf(s);
      SeenPointsHome(seen, rows, firsts, lines, i);
      if !Certified(s) && kind in seen {
        var r := seen[kind];
        RowGrows(rows, firsts, lines, i, r);
        rows := rows[r := Plus(rows[r], s)];
      } else {
        NewRow(rows, firsts, lines, i);
        if !Certified(s) {
          seen := seen[kind := |rows|];
        }
        rows := rows + [Row(s, s.qty, s.carats, s.amount, 1)];
        firsts := firsts + [i];
      }
    }
  }

  lemma NothingGrouped(lines: seq<Stone>)
    ensures Grouped([], [], lines, 0) && Seen(map[], [], lines, 0)
  {
  }

  /** The index points every kind met so far to its row. */
  ghost predicate Seen(seen: map<Kind, nat>, firsts: seq<nat>, lines: seq<Stone>, n: nat)
    requires n <= |lines|
  {
    && (forall r | 0 <= r < |firsts| :: firsts[r] < n)
    && (forall k | k in seen ::
        seen[k] < |firsts| && !Certified(lines[firsts[seen[k]]]) && KindOf(lines[firsts[seen[k]]]) == k)
    && (forall j | 0 <= j < n && !Certified(lines[j]) :: KindOf(lines[j]) in seen)
  }

  /** A kind in the index leads to a row the stone shares; a kind not in it is met here first;
      and either way the index can be kept. */
  lemma SeenPointsHome(seen: map<Kind, nat>, rows: seq<Row>, firsts: seq<nat>, lines: seq<Stone>, i: nat)
    requires i < |lines| && Seen(seen, firsts, lines, i) && Grouped(rows, firsts, lines, i)
    ensures
      var kind := KindOf(lines[i]);
      if !Certified(lines[i]) && kind in seen then
        && seen[kind] < |rows| == |firsts| && firsts[seen[kind]] < |lines|
        && Shares(lines, firsts[seen[kind]], i) && Seen(seen, firsts, lines, i + 1)
      else
        && (Certified(lines[i]) || forall j | 0 <= j < i && !Certified(lines[j]) :: KindOf(lines[j]) != kind)
        && Seen(if Certified(lines[i]) then seen else seen[kind := |rows|], firsts + [i], lines, i + 1)
  {
    hide KindOf, ClassOf, IsFirst;
  }

  lemma OnlyOneFirst(lines: seq<Stone>, firsts: seq<nat>, i: nat, r: nat)
    requires i < |lines| && r < |firsts| &&
        (forall q | 0 <= q < |firsts| :: firsts[q] < |lines| && IsFirst(lines, firsts[q]))
    requires forall q, p | 0 <= q < p < |firsts| :: firsts[q] < firsts[p]
    requires Shares(lines, firsts[r], i)
    ensures forall q | 0 <= q < |firsts| && q != r :: !Shares(lines, firsts[q], i)
  {
    forall q | 0 <= q < |firsts| && q != r
      ensures !Shares(lines, firsts[q], i)
    {
      assert if q < r then !Shares(lines, firsts[r], firsts[q]) else !Shares(lines, firsts[q], firsts[r]);
    }
  }

  lemma RowGrows(rows: seq<Row>, firsts: seq<nat>, lines: seq<Stone>, i: nat, r: nat)
    requires i < |lines| && r < |firsts| && Grouped(rows, firsts, lines, i) && Shares(lines, firsts[r], i)
    ensures Grouped(rows[r := Plus(rows[r], lines[i])], firsts, lines, i + 1)
  {
    hide Shares;
    OnlyOneFirst(lines, firsts, i, r);
    SharingIsAnEquivalence(lines, firsts[r], i, i);
    assert !IsFirst(lines, i);
  }

  lemma NewRow(rows: seq<Row>, firsts: seq<nat>, lines: seq<Stone>, i: nat)
    requires i < |lines| && Grouped(rows, firsts, lines, i)
    requires Certified(lines[i]) || forall j | 0 <= j < i && !Certified(lines[j]) ::
        KindOf(lines[j]) != KindOf(lines[i])
    ensures Grouped(rows + [Row(lines[i], lines[i].qty, lines[i].carats, lines[i].amount, 1)], firsts + [i], lines,
        i + 1)
  {
    assert IsFirst(lines, i);
    FirstStandsAlone(lines, i, i);
  }

  // ── Nothing is lost ──────────────────────────────────────────

  function Quantity(rows: seq<Row>): real {
    if rows == [] then 0.0 else Quantity(rows[..|rows| - 1]) + rows[|rows| - 1].qty
  }

  function Carats(rows: seq<Row>): real {
    if rows == [] then 0.0 else Carats(rows[..|rows| - 1]) + rows[|rows| - 1].carats
  }

  function Amount(rows: seq<Row>): real {
    if rows == [] then 0.0 else Amount(rows[..|rows| - 1]) + rows[|rows| - 1].amount
  }

  function Count(rows: seq<Row>): nat {
    if rows == [] then 0 else Count(rows[..|rows| - 1]) + rows[|rows| - 1].count
  }

  /** Each stone on a row of its own. */
  function Unmerged(lines: seq<Stone>): seq<Row> {
    seq(|lines|, i requires 0 <= i < |lines| => Row(lines[i], lines[i].qty, lines[i].carats, lines[i].amount, 1))
  }

  predicate SameTotals(rows: seq<Row>, other: seq<Row>) {
    Quantity(rows) == Quantity(other) && Carats(rows) == Carats(other) && Amount(rows) == Amount(other) &&
        Count(rows) == Count(other)
  }

  /** The classes of the firsts, summed over the first n places. */
  function Classes(lines: seq<Stone>, firsts: seq<nat>, n: nat): seq<Row>
    requires n <= |lines| && forall r | 0 <= r < |firsts| :: firsts[r] < |lines|
  {
    seq(|firsts|, r requires 0 <= r < |firsts| => ClassOf(lines, firsts[r], n))
  }

  /** Adding a stone to one row adds it once to every total. */
  lemma {:induction false} OneRowMore(rows: seq<Row>, r: nat, s: Stone)
    requires r < |rows|
    ensures
      var more := rows[r := Plus(rows[r], s)];
      && Quantity(more) == Quantity(rows) + s.qty && Carats(more) == Carats(rows) + s.carats
      && Amount(more) == Amount(rows) + s.amount && Count(more) == Count(rows) + 1
  {
    var n, more := |rows| - 1, rows[r := Plus(rows[r], s)];
    if r < n {
      OneRowMore(rows[..n], r, s);
      assert more[..n] == rows[..n][r := Plus(rows[r], s)];
    } else {
      assert more[..n] == rows[..n];
    }
  }

  lemma {:induction false} EmptyClasses(lines: seq<Stone>, firsts: seq<nat>)
    requires forall r | 0 <= r < |firsts| :: firsts[r] < |lines|
    ensures SameTotals(Classes(lines, firsts, 0), [])
  {
    if firsts != [] {
      var n := |firsts| - 1;
      EmptyClasses(lines, firsts[..n]);
      assert Classes(lines, firsts, 0)[..n] == Classes(lines, firsts[..n], 0);
    }
  }

  lemma NothingUnmerged()
    ensures Unmerged([]) == []
  {
  }

  lemma {:induction false} ClassesKeepTotals(lines: seq<Stone>, firsts: seq<nat>, n: nat)
    requires n <= |lines|
    requires forall r | 0 <= r < |firsts| :: firsts[r] < |lines| && IsFirst(lines, firsts[r])
    requires forall r, q | 0 <= r < q < |firsts| :: firsts[r] < firsts[q]
    requires forall i | 0 <= i < |lines| && IsFirst(lines, i) :: i in firsts
    ensures SameTotals(Classes(lines, firsts, n), Unmerged(lines[..n]))
  {
    hide Shares, IsFirst, ClassOf, Unmerged, Plus, KindOf;
    if n == 0 {
      assert lines[..0] == [];
      NothingUnmerged();
      EmptyClasses(lines, firsts);
    } else {
      ClassesKeepTotals(lines, firsts, n - 1);
      var f := HasAFirst(lines, n - 1);
      var r :| 0 <= r < |firsts| && firsts[r] == f;
      ClassesGrow(lines, firsts, n - 1, r);
      OneRowMore(Classes(lines, firsts, n - 1), r, lines[n - 1]);
      UnmergedGrows(lines, n - 1);
    }
  }

  lemma ClassesGrow(lines: seq<Stone>, firsts: seq<nat>, i: nat, r: nat)
    requires i < |lines| && r < |firsts| &&
        (forall q | 0 <= q < |firsts| :: firsts[q] < |lines| && IsFirst(lines, firsts[q]))
    requires forall q, p | 0 <= q < p < |firsts| :: firsts[q] < firsts[p]
    requires Shares(lines, firsts[r], i)
    ensures
      var before := Classes(lines, firsts, i);
      Classes(lines, firsts, i + 1) == before[r := Plus(before[r], lines[i])]
  {
    OnlyOneFirst(lines, firsts, i, r);
  }

  lemma UnmergedGrows(lines: seq<Stone>, i: nat)
    requires i < |lines|
    ensures
      var before, after := Unmerged(lines[..i]), Unmerged(lines[..i + 1]);
      && Quantity(after) == Quantity(before) + lines[i].qty && Carats(after) == Carats(before) + lines[i].carats
      && Amount(after) == Amount(before) + lines[i].amount && Count(after) == Count(before) + 1
  {
    assert Unmerged(lines[..i + 1])[..i] == Unmerged(lines[..i]);
  }

  /** Grouped rows hold what the stones held: no certified stone is merged, no two uncertified
      rows are of one kind, and all four totals are those of the stones one by one. */
  lemma GroupingLosesNothing(rows: seq<Row>, firsts: seq<nat>, lines: seq<Stone>)
    requires Grouped(rows, firsts, lines, |lines|)
    ensures SameTotals(rows, Unmerged(lines))
    ensures forall r | 0 <= r < |rows| && Certified(rows[r].first) ::
                rows[r] == Row(rows[r].first, rows[r].first.qty, rows[r].first.carats, rows[r].first.amount, 1)
    ensures forall r, q | 0 <= r < q < |rows| && !Certified(rows[r].first) && !Certified(rows[q].first) ::
                KindOf(rows[r].first) != KindOf(rows[q].first)
  {
    assert lines[..|lines|] == lines;
    ClassesKeepTotals(lines, firsts, |lines|);
    forall r | 0 <= r < |rows|
      ensures rows[r].first == lines[firsts[r]]
      ensures Certified(lines[firsts[r]]) ==> rows[r] == Unmerged(lines)[firsts[r]]
    {
      ClassStartsAtItsFirst(lines, firsts[r], |lines|);
    }
    assert rows == Classes(lines, firsts, |lines|);
    forall r, q | 0 <= r < q < |rows| && !Certified(rows[r].first) && !Certified(rows[q].first)
      ensures KindOf(rows[r].first) != KindOf(rows[q].first)
    {
      assert !Shares(lines, firsts[q], firsts[r]);
    }
  }

  lemma {:induction false} ClassStartsAtItsFirst(lines: seq<Stone>, i: nat, n: nat)
    requires i < |lines| && n <= |lines|
    ensures ClassOf(lines, i, n).first == lines[i]
    ensures Certified(lines[i]) ==> ClassOf(lines, i, n) == if i < n then Unmerged(lines)[i]
        else Row(lines[i], 0.0, 0.0, 0.0, 0)
  {
    if n > 0 {
      ClassStartsAtItsFirst(lines, i, n - 1);
    }
  }
}
