/** When one run of the numbering repair is enough: exactly from the series, the counters and
    the numbers in circulation, all of which can be looked at before the run. */
module NumberingIdempotence {
  import opened Basics
  import opened Numerals
  import opened DocSeries
  import opened NumberingRepair

  /** The document types whose numbers are repaired, in the order they are taken. */
  const REPAIRED: seq<DocType> := [OrderConfirmation, MemoOut, MemoIn]

  /** A registry over these series and counters, in which these and no other numbers are held. */
  ghost predicate Over(r: Registry, series: map<Key, Series>, cs: seq<Counter>, numbers: set<string>) {
    && r.series == series && r.counters == cs && AllNumbers(r.fields) == numbers
    && |r.fields| == |REPAIRED| && forall i | 0 <= i < |REPAIRED| :: r.fields[i].docType == REPAIRED[i]
  }

  /** A second run would find nothing to do. */
  ghost predicate OneRunIsEnough(r: Registry) {
    Repair(r).Ok? ==>
      var first := Repair(r).value.0;
      Repair(first).Ok? && Repair(first).value.0 == first
  }

  /** No series the repair draws from can still render, with the row it has after merging or
      would create, a number that is held already. */
  ghost predicate NothingComesAgain(series: map<Key, Series>, cs: seq<Counter>, numbers: set<string>) {
    forall k, x {:trigger ComesAgain(Merged(cs), series[k], x)} | k in series && k.0 in REPAIRED && x in numbers ::
      !ComesAgain(Merged(cs), series[k], x)
  }

  // ── Enough ───────────────────────────────────────────────────

  /** Then the earliest holder of each number keeps it, every later one gets a number nobody
      held, and one run leaves nothing to do. */
  lemma OneRunWhenNothingComesAgain(r: Registry)
    requires Over(r, r.series, r.counters, AllNumbers(r.fields)) &&
        NothingComesAgain(r.series, r.counters, AllNumbers(r.fields))
    requires Repair(r).Ok?
    ensures
      var (first, clash) := Repair(r).value;
      && !clash && Clean(first) && Repair(first) == Ok((first, false)) && |first.fields| == |r.fields|
      && forall i | 0 <= i < |r.fields| :: Reissued(r.fields[i], first.fields[i], AllNumbers(r.fields))
  {
    var drawn := set k | k in r.series && k.0 in REPAIRED :: r.series[k];
    forall t | t in drawn
      ensures DrawsClear(Merged(r.counters), t, AllNumbers(r.fields))
    {
      var k :| k in r.series && k.0 in REPAIRED && r.series[k] == t;
      forall x | x in AllNumbers(r.fields)
        ensures !ComesAgain(Merged(r.counters), t, x)
      {
        assert !ComesAgain(Merged(r.counters), r.series[k], x);
      }
    }
    forall i | 0 <= i < |r.fields|
      ensures RepeatsDrawFrom(r.series, r.fields[i], drawn)
    {
      assert r.fields[i].docType in REPAIRED;
    }
    HealthyRepair(r, drawn);
    CleanIsLeftAlone(Repair(r).value.0);
  }

  // ── Needed ───────────────────────────────────────────────────

  lemma SmallerIsNotLonger(a: nat, b: nat, width: nat)
    requires a <= b
    ensures |Padded(a, width)| <= |Padded(b, width)|
  {
    var w := |Digits(b)|;
    DigitCount(b, w);
    DigitCount(a, w);
  }

  /** One number, held over and over: repeats draw the row's next numbers one by one, until one
      of them is that number. */
  ghost predicate Closing(cs: seq<Counter>, s: Series, x: string, n: nat, p: Progress, m: nat) {
    && |p.numbers| == m >= 1 && p.numbers[0] == x
    && OneRowPerPrefix(p.counters)
    && RowFor(p.counters, s) == RowFor(cs, s).(next := NextRunning(cs, s) + m - 1)
    && (m == n - NextRunning(cs, s) + 2 ==> p.clash)
  }

  lemma ClosingStep(series: map<Key, Series>, cs: seq<Counter>, dt: DocType, d: Document, s: Series, n: nat,
      p: Progress, m: nat)
    requires (dt, d.channel) in series && series[(dt, d.channel)] == s
    requires |d.number| <= MAX_LEN && n >= NextRunning(cs, s) && d.number == Render(RowFor(cs, s).(next := n))
    requires Closing(cs, s, d.number, n, p, m) && m <= n - NextRunning(cs, s) + 1
    ensures RenumberOne(series, dt, p, d).Ok? && Closing(cs, s, d.number, n, RenumberOne(series, dt, p, d).value, m + 1)
  {
    hide RowFor, FullPrefix, Padded;
    var row := RowFor(p.counters, s);
    assert p.numbers[0] in p.numbers;
    SmallerIsNotLonger(row.next, n, row.padding);
    DrawIsTheRow(p.counters, s);
    assert Draw(p.counters, s).Ok?;
    RowAfterDraw(p.counters, s, s);
    DrawKeepsOneRow(p.counters, s);
  }

  lemma DrawIsTheRow(cs: seq<Counter>, s: Series)
    ensures Draw(cs, s).Ok? <==> |Render(RowFor(cs, s))| <= MAX_LEN
  {
  }

  lemma {:induction false} RepeatsReachIt(series: map<Key, Series>, cs: seq<Counter>, f: Field, d: Document, s: Series,
      n: nat, m: nat)
    requires OneRowPerPrefix(cs) && (f.docType, d.channel) in series && series[(f.docType, d.channel)] == s
    requires |d.number| <= MAX_LEN && n >= NextRunning(cs, s) && d.number == Render(RowFor(cs, s).(next := n))
    requires 1 <= m <= |f.records| && m <= n - NextRunning(cs, s) + 2 &&
        forall i | 0 <= i < |f.records| :: f.records[i] == d
    ensures Renumber(series, cs, f, m).Ok? && Closing(cs, s, d.number, n, Renumber(series, cs, f, m).value, m)
  {
    hide ComesAgain, RowFor, Render, Closing, RenumberOne, NextRunning, OneRowPerPrefix;
    if m == 1 {
      assert Renumber(series, cs, f, 0) == Ok(Progress(cs, [], false));
      FirstIsKept(series, cs, f.docType, d, s, n);
    } else {
      RepeatsReachIt(series, cs, f, d, s, n, m - 1);
      ClosingStep(series, cs, f.docType, d, s, n, Renumber(series, cs, f, m - 1).value, m - 1);
    }
  }

  lemma FirstIsKept(series: map<Key, Series>, cs: seq<Counter>, dt: DocType, d: Document, s: Series, n: nat)
    requires OneRowPerPrefix(cs) && n >= NextRunning(cs, s)
    ensures RenumberOne(series, dt, Progress(cs, [], false), d) == Ok(Progress(cs, [d.number], false))
    ensures Closing(cs, s, d.number, n, Progress(cs, [d.number], false), 1)
  {
    assert [] + [d.number] == [d.number];
    assert RowFor(cs, s) == RowFor(cs, s).(next := NextRunning(cs, s));
  }

  /** A field that clashes, among fields without repeats, makes the whole run clash. */
  lemma {:induction false} OneFieldClashes(r: Registry, cs: seq<Counter>, at: nat, n: nat)
    requires at < |r.fields| && n <= |r.fields| &&
        forall i | 0 <= i < |r.fields| && i != at :: NumbersDistinct(r.fields[i])
    requires
      var p := Renumber(r.series, cs, r.fields[at], |r.fields[at].records|);
      p.Ok? && p.value.clash
    ensures RenumberFields(r, cs, n).Ok?
    ensures n <= at ==> RenumberFields(r, cs, n).value.counters == cs
    ensures n > at ==> RenumberFields(r, cs, n).value.clash
  {
    if n > 0 {
      OneFieldClashes(r, cs, at, n - 1);
      if n - 1 != at {
        var before, f := RenumberFields(r, cs, n - 1).value, r.fields[n - 1];
        NothingToRenumberIn(r.series, before.counters, f, |f.records|);
      }
    }
  }

  lemma {:induction false} Listed(numbers: set<string>) returns (list: seq<string>)
    ensures Distinct(list) && forall x :: x in list <==> x in numbers
  {
    list := [];
    if numbers != {} {
      var x :| x in numbers;
      var rest := Listed(numbers - {x});
      list := rest + [x];
      assert Distinct(list);
    }
  }

  function HeldBy(ch: Channel, numbers: seq<string>): seq<Document> {
    seq(|numbers|, i requires 0 <= i < |numbers| => Document(ch, numbers[i]))
  }

  /** The registry that shows it: one number held by so many documents of the series' type that
      the repeats draw up to it, and every other number by one document of another type. */
  function Showing(series: map<Key, Series>, cs: seq<Counter>, at: nat, ch: Channel, repeats: seq<string>,
      list: seq<string>): Registry
    requires at < 3
  {
    var rest := (at + 1) % 3;
    Registry(series, cs, seq(3, i requires 0 <= i < 3 =>
      Field(REPAIRED[i], HeldBy(ch, if i == at then repeats else if i == rest then list else []))))
  }

  lemma NumbersHeldBy(dt: DocType, ch: Channel, numbers: seq<string>)
    ensures forall x :: x in NumbersOf(Field(dt, HeldBy(ch, numbers))) <==> x in numbers
  {
    var f := Field(dt, HeldBy(ch, numbers));
    forall x | x in numbers
      ensures x in NumbersOf(f)
    {
      var i :| 0 <= i < |numbers| && numbers[i] == x;
      assert f.records[i] in f.records;
    }
  }

  lemma DistinctHeldBy(dt: DocType, ch: Channel, numbers: seq<string>)
    requires Distinct(numbers)
    ensures NumbersDistinct(Field(dt, HeldBy(ch, numbers)))
  {
  }

  lemma ShowingIsOver(series: map<Key, Series>, cs: seq<Counter>, at: nat, ch: Channel, repeats: seq<string>,
      list: seq<string>, numbers: set<string>)
    requires at < 3 && Distinct(list) && (forall x :: x in list <==> x in numbers) &&
        forall x | x in repeats :: x in numbers
    ensures
      var r := Showing(series, cs, at, ch, repeats, list);
      Over(r, series, cs, numbers) && forall i | 0 <= i < |r.fields| && i != at :: NumbersDistinct(r.fields[i])
  {
    var r, rest := Showing(series, cs, at, ch, repeats, list), (at + 1) % 3;
    forall i | 0 <= i < 3
      ensures forall x | x in NumbersOf(r.fields[i]) :: x in numbers
      ensures i == rest ==> forall x | x in numbers :: x in NumbersOf(r.fields[i])
    {
      NumbersHeldBy(REPAIRED[i], ch, if i == at then repeats else if i == rest then list else []);
    }
    forall i | 0 <= i < |r.fields| && i != at
      ensures NumbersDistinct(r.fields[i])
    {
      DistinctHeldBy(REPAIRED[i], ch, if i == rest then list else []);
    }
    assert r.fields[rest] in r.fields;
    forall x
      ensures x in AllNumbers(r.fields) <==> x in numbers
    {
    }
  }

  /** Were some held number to come again, this registry would need a second run. */
  lemma ComingAgainShows(series: map<Key, Series>, cs: seq<Counter>, numbers: set<string>, k: Key, x: string)
    returns (r: Registry)
    requires k in series && k.0 in REPAIRED && x in numbers && ComesAgain(Merged(cs), series[k], x)
    ensures Over(r, series, cs, numbers) && !OneRunIsEnough(r)
  {
    hide Over, ComesAgain, RowFor, Render, Showing, IsOldest;
    var s, before := series[k], Merged(cs);
    var n := Again(before, s, x);
    var at :| 0 <= at < 3 && REPAIRED[at] == k.0;
    var count := n - NextRunning(before, s) + 2;
    var repeats := seq(count, _ => x);
    var list := Listed(numbers);
    r := Showing(series, cs, at, k.1, repeats, list);
    ShowingIsOver(series, cs, at, k.1, repeats, list, numbers);
    MergedStandsFurthest(cs);
    ShowingFields(series, cs, at, k.1, repeats, list);
    var f := r.fields[at];
    assert forall i | 0 <= i < |f.records| :: f.records[i] == Document(k.1, x);
    RepeatsReachIt(series, before, f, Document(k.1, x), s, n, count);
    ClosedClashes(before, s, x, n, Renumber(series, before, f, count).value, count);
    OneFieldClashes(r, before, at, 3);
    IdempotentExactlyWithoutClash(r);
  }

  lemma Again(cs: seq<Counter>, s: Series, x: string) returns (n: nat)
    requires ComesAgain(cs, s, x)
    ensures n >= NextRunning(cs, s) && x == Render(RowFor(cs, s).(next := n)) && |x| <= MAX_LEN
  {
    n :| n >= NextRunning(cs, s) && x == Render(RowFor(cs, s).(next := n));
  }

  lemma ClosedClashes(cs: seq<Counter>, s: Series, x: string, n: nat, p: Progress, m: nat)
    requires Closing(cs, s, x, n, p, m) && m == n - NextRunning(cs, s) + 2
    ensures p.clash
  {
  }

  lemma ShowingFields(series: map<Key, Series>, cs: seq<Counter>, at: nat, ch: Channel, repeats: seq<string>,
      list: seq<string>)
    requires at < 3
    ensures
      var r := Showing(series, cs, at, ch, repeats, list);
      r.series == series && r.counters == cs && |r.fields| == 3 &&
          r.fields[at] == Field(REPAIRED[at], HeldBy(ch, repeats))
  {
  }

  // ── Main result ──────────────────────────────────────────────

  /** For any series, counters and numbers in circulation: one run is enough for every registry
      over them - the repair is idempotent, as its documentation has it - if and only if no
      series it draws from can still render one of those numbers. */
  lemma IdempotentExactlyWhenNothingComesAgain(series: map<Key, Series>, cs: seq<Counter>, numbers: set<string>)
    ensures (forall r | Over(r, series, cs, numbers) :: OneRunIsEnough(r)) <==> NothingComesAgain(series, cs, numbers)
  {
    hide Over, OneRunIsEnough, ComesAgain;
    if NothingComesAgain(series, cs, numbers) {
      forall r | Over(r, series, cs, numbers)
        ensures OneRunIsEnough(r)
      {
        EnoughFor(r, series, cs, numbers);
      }
    } else {
      var k, x :| k in series && k.0 in REPAIRED && x in numbers && ComesAgain(Merged(cs), series[k], x);
      var r := ComingAgainShows(series, cs, numbers, k, x);
    }
  }

  lemma EnoughFor(r: Registry, series: map<Key, Series>, cs: seq<Counter>, numbers: set<string>)
    requires Over(r, series, cs, numbers) && NothingComesAgain(series, cs, numbers)
    ensures OneRunIsEnough(r)
  {
    if Repair(r).Ok? {
      OneRunWhenNothingComesAgain(r);
    }
  }
}
