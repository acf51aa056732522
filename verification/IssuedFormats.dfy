/** What the numbers handed out look like: over any run, the row issued under a full prefix is the
    format of the series that drew under it first, from its Start No on. */
module IssuedFormats {
  import opened Basics
  import opened Numerals
  import opened DocSeries
  import opened NumberingRuns

  /** The series behind each number issued, as it stood when it was drawn. */
  ghost function Drawers(b: Book, es: seq<Event>): seq<Series>
    decreases |es|
  {
    if es == [] then []
    else
      var n := |es| - 1;
      var was, e := After(b, es[..n]), es[n];
      if e.NextNumber? && e.key in was.series && |After(b, es).issued| > |was.issued|
      then Drawers(b, es[..n]) + [was.series[e.key]]
      else Drawers(b, es[..n])
  }

  /** The one that drew first under a full prefix. */
  function Founder(ds: seq<Series>, prefix: string): (f: Option<Series>)
    ensures f.Some? ==> FullPrefix(f.value) == prefix && f.value in ds
    ensures f.None? <==> forall d | d in ds :: FullPrefix(d) != prefix
  {
    if ds == [] then None
    else if FullPrefix(ds[0]) == prefix then Some(ds[0])
    else Founder(ds[1..], prefix)
  }

  function DrawnUnder(ds: seq<Series>, prefix: string): nat {
    if ds == [] then 0
    else DrawnUnder(ds[..|ds| - 1], prefix) + if FullPrefix(ds[|ds| - 1]) == prefix then 1 else 0
  }

  /** The format a series draws in once others have drawn: that of the first under its prefix,
      its own if there is none. */
  function DrawsAs(ds: seq<Series>, s: Series): (f: Series)
    ensures FullPrefix(f) == FullPrefix(s)
  {
    var f := Founder(ds, FullPrefix(s));
    if f.Some? then f.value else s
  }

  /** The number the series' next draw gets. */
  function NextNumberOf(ds: seq<Series>, s: Series): string {
    var f := DrawsAs(ds, s);
    Format(f, Max(f.startNo, 1) + DrawnUnder(ds, FullPrefix(s)))
  }

  /** The counter of a prefix fits what was drawn under it. */
  ghost predicate RowFits(cs: seq<Counter>, ds: seq<Series>, prefix: string) {
    var f, k := Founder(ds, prefix), Furthest(cs, prefix);
    if f.None? then k == -1
    else k >= 0 && cs[k] == Counter(prefix, Width(f.value), Max(f.value.startNo, 1) + DrawnUnder(ds, prefix))
  }

  ghost predicate Fits(cs: seq<Counter>, ds: seq<Series>) {
    OneRowPerPrefix(cs) && forall prefix {:trigger RowFits(cs, ds, prefix)} :: RowFits(cs, ds, prefix)
  }

  lemma {:induction false} NoneDrawnWithoutFounder(ds: seq<Series>, prefix: string)
    requires Founder(ds, prefix).None?
    ensures DrawnUnder(ds, prefix) == 0
  {
    if ds != [] {
      var n := |ds| - 1;
      assert forall d | d in ds[..n] :: d in ds;
      assert ds[n] in ds;
      NoneDrawnWithoutFounder(ds[..n], prefix);
    }
  }

  lemma {:induction false} FounderStays(ds: seq<Series>, d: Series, prefix: string)
    ensures Founder(ds + [d], prefix) ==
      if Founder(ds, prefix).Some? then Founder(ds, prefix) else if FullPrefix(d) == prefix then Some(d) else None
    ensures DrawnUnder(ds + [d], prefix) == DrawnUnder(ds, prefix) + if FullPrefix(d) == prefix then 1 else 0
  {
    hide FullPrefix;
    assert (ds + [d])[..|ds|] == ds;
    if ds != [] {
      FounderStays(ds[1..], d, prefix);
      assert (ds + [d])[1..] == ds[1..] + [d];
    }
  }

  /** A draw is refused exactly when the number it would get has outgrown the rule; otherwise it
      hands out that number. */
  lemma DrawGivesTheNext(cs: seq<Counter>, ds: seq<Series>, s: Series)
    requires Fits(cs, ds)
    ensures Draw(cs, s).Err? <==> |NextNumberOf(ds, s)| > MAX_LEN
    ensures Draw(cs, s).Ok? ==> Draw(cs, s).value.1 == NextNumberOf(ds, s) && Fits(Draw(cs, s).value.0, ds + [s])
  {
    var prefix, f := FullPrefix(s), DrawsAs(ds, s);
    var rows, n := WithCounter(cs, s), Max(f.startNo, 1) + DrawnUnder(ds, prefix);
    hide FullPrefix, Padded, Width, DrawsAs, DrawnUnder, Furthest, WithCounter, Fits;
    DrawnRow(cs, ds, s);
    var k := Furthest(rows, prefix);
    assert rows[k] == Counter(prefix, Width(f), n);
    if Draw(cs, s).Ok? {
      DrawAdvancesFit(cs, ds, s);
    }
  }

  lemma NoneDrawn(ds: seq<Series>, prefix: string)
    ensures Founder(ds, prefix).None? ==> DrawnUnder(ds, prefix) == 0
  {
    if Founder(ds, prefix).None? {
      NoneDrawnWithoutFounder(ds, prefix);
    }
  }

  /** The row the draw takes its number from. */
  lemma DrawnRow(cs: seq<Counter>, ds: seq<Series>, s: Series)
    requires Fits(cs, ds)
    ensures
      var rows, f, prefix := WithCounter(cs, s), DrawsAs(ds, s), FullPrefix(s);
      && OneRowPerPrefix(rows)
      && rows[Furthest(rows, prefix)] == Counter(prefix, Width(f), Max(f.startNo, 1) + DrawnUnder(ds, prefix))
      && forall p | p != prefix ::
           if Furthest(cs, p) == -1 then Furthest(rows, p) == -1
           else Furthest(rows, p) >= 0 && rows[Furthest(rows, p)] == cs[Furthest(cs, p)]
  {
    var prefix := FullPrefix(s);
    assert RowFits(cs, ds, prefix);
    NoneDrawn(ds, prefix);
    hide FullPrefix, Width;
    if Furthest(cs, prefix) == -1 {
      NewRowLeavesOthers(cs, NewCounter(s), prefix);
      assert (cs + [NewCounter(s)])[..|cs|] == cs;
    }
  }

  lemma DrawAdvancesFit(cs: seq<Counter>, ds: seq<Series>, s: Series)
    requires Fits(cs, ds) && Draw(cs, s).Ok?
    ensures Fits(Draw(cs, s).value.0, ds + [s])
  {
    var prefix := FullPrefix(s);
    var before, later := WithCounter(cs, s), Draw(cs, s).value.0;
    var k := Furthest(before, prefix);
    DrawnRow(cs, ds, s);
    assert later == before[k := before[k].(next := before[k].next + 1)];
    hide FullPrefix, Padded, Width, WithCounter, Draw, Founder, DrawnUnder, Furthest, RowFits;
    MovedRowLeavesOthers(before, k, before[k].next + 1, prefix);
    forall p
      ensures RowFits(later, ds + [s], p)
    {
      assert RowFits(cs, ds, p);
      OneRowFits(cs, before, ds, s, p);
    }
  }

  lemma OneRowFits(cs: seq<Counter>, rows: seq<Counter>, ds: seq<Series>, s: Series, p: string)
    requires OneRowPerPrefix(rows) && Furthest(rows, FullPrefix(s)) >= 0 && RowFits(cs, ds, p)
    requires
      var f := DrawsAs(ds, s);
      rows[Furthest(rows, FullPrefix(s))] ==
          Counter(FullPrefix(s), Width(f), Max(f.startNo, 1) + DrawnUnder(ds, FullPrefix(s)))
    requires p != FullPrefix(s) ==>
      if Furthest(cs, p) == -1 then Furthest(rows, p) == -1
      else Furthest(rows, p) >= 0 && rows[Furthest(rows, p)] == cs[Furthest(cs, p)]
    ensures
      var k := Furthest(rows, FullPrefix(s));
      RowFits(rows[k := rows[k].(next := rows[k].next + 1)], ds + [s], p)
  {
    hide FullPrefix, Width;
    var k := Furthest(rows, FullPrefix(s));
    FounderStays(ds, s, p);
    MovedRowStays(rows, k, rows[k].next + 1, p);
    hide Furthest, DrawnUnder, Founder, OneRowPerPrefix;
  }

  lemma MovedRowStays(cs: seq<Counter>, k: nat, next: nat, prefix: string)
    requires OneRowPerPrefix(cs) && k < |cs|
    ensures Furthest(cs[k := cs[k].(next := next)], prefix) == Furthest(cs, prefix)
  {
    var moved := cs[k := cs[k].(next := next)];
    assert forall i | 0 <= i < |cs| :: moved[i].prefix == cs[i].prefix;
    assert OneRowPerPrefix(moved);
    var i := Furthest(cs, prefix);
    if i >= 0 {
      FurthestIsTheRow(moved, i);
    }
  }

  /** Every number issued is the one its series' draw had to get. */
  ghost predicate AllAsDue(issued: seq<string>, ds: seq<Series>) {
    |issued| == |ds| && forall i | 0 <= i < |issued| :: issued[i] == NextNumberOf(ds[..i], ds[i])
  }

  lemma {:induction false} RunFits(series: map<Key, Series>, es: seq<Event>)
    ensures
      var b, ds := After(Book(series, [], []), es), Drawers(Book(series, [], []), es);
      Fits(b.counters, ds) && AllAsDue(b.issued, ds)
    decreases |es|
  {
    var start := Book(series, [], []);
    if es == [] {
      forall prefix
        ensures RowFits([], [], prefix)
      {
      }
    } else {
      var n := |es| - 1;
      RunFits(series, es[..n]);
      var was, ds, e := After(start, es[..n]), Drawers(start, es[..n]), es[n];
      hide Fits, NextNumberOf;
      if e.NextNumber? && e.key in was.series {
        var s := was.series[e.key];
        DrawGivesTheNext(was.counters, ds, s);
        if Draw(was.counters, s).Ok? {
          OneMoreAsDue(was.issued, ds, s);
        }
      }
    }
  }

  lemma OneMoreAsDue(issued: seq<string>, ds: seq<Series>, s: Series)
    requires AllAsDue(issued, ds)
    ensures AllAsDue(issued + [NextNumberOf(ds, s)], ds + [s])
  {
    hide NextNumberOf;
    var more, later := issued + [NextNumberOf(ds, s)], ds + [s];
    forall i | 0 <= i < |more|
      ensures more[i] == NextNumberOf(later[..i], later[i])
    {
      assert later[..i] == ds[..i];
      assert ds[..|ds|] == ds;
    }
  }

  // ── Main results ─────────────────────────────────────────────

  /** The i-th number is the format of the series that drew first under its prefix, as many after
      that one's Start No as were drawn under it before; and as long as any within its digits. */
  ghost predicate InFoundersFormat(issued: seq<string>, ds: seq<Series>, i: nat)
    requires i < |ds|
  {
    var prefix := FullPrefix(ds[i]);
    && i < |issued| && Founder(ds, prefix).Some?
    && var f := Founder(ds, prefix).value;
    && var n := Max(f.startNo, 1) + DrawnUnder(ds[..i], prefix);
    && issued[i] == Format(f, n)
    && (1 <= f.digits && n < Pow10(f.digits) ==> |issued[i]| == |prefix| + f.digits)
  }

  lemma DueIsInFoundersFormat(issued: seq<string>, ds: seq<Series>, i: nat)
    requires AllAsDue(issued, ds) && i < |ds|
    ensures InFoundersFormat(issued, ds, i)
  {
    hide FullPrefix, Padded, Format, Founder, DrawnUnder, DrawsAs, Pow10;
    var prefix := FullPrefix(ds[i]);
    FounderOfLonger(ds, i, prefix);
    var f := Founder(ds, prefix).value;
    var n := Max(f.startNo, 1) + DrawnUnder(ds[..i], prefix);
    assert issued[i] == NextNumberOf(ds[..i], ds[i]);
    if 1 <= f.digits && n < Pow10(f.digits) {
      FormatsShareTheirLength(f, n);
    }
  }

  /** Over any run from no counters: the numbers issued under a full prefix are, one after the
      other, the format of the series that drew under it first, running from its Start No, never
      below one; so two of them within its digits are equally long. */
  lemma IssuedInTheFoundersFormat(series: map<Key, Series>, es: seq<Event>)
    ensures
      var issued, ds := After(Book(series, [], []), es).issued, Drawers(Book(series, [], []), es);
      |ds| == |issued| && forall i | 0 <= i < |ds| :: InFoundersFormat(issued, ds, i)
  {
    var issued, ds := After(Book(series, [], []), es).issued, Drawers(Book(series, [], []), es);
    RunFits(series, es);
    hide After, Drawers, Fits, InFoundersFormat;
    forall i | 0 <= i < |ds|
      ensures InFoundersFormat(issued, ds, i)
    {
      DueIsInFoundersFormat(issued, ds, i);
    }
  }

  lemma {:induction false} FounderOfLonger(ds: seq<Series>, i: nat, prefix: string)
    requires i < |ds| && FullPrefix(ds[i]) == prefix
    ensures Founder(ds, prefix) == Some(DrawsAs(ds[..i], ds[i]))
  {
    hide FullPrefix;
    if i > 0 && FullPrefix(ds[0]) != prefix {
      FounderOfLonger(ds[1..], i - 1, prefix);
      assert ds[1..][..i - 1] == ds[..i][1..];
    }
  }

  /** And the next draw, wherever a run has got to: refused if and only if the number due has more
      than sixteen characters, and handing out that number otherwise. */
  lemma NextDrawIsDue(series: map<Key, Series>, es: seq<Event>, key: Key)
    requires key in After(Book(series, [], []), es).series
    ensures
      var b, ds := After(Book(series, [], []), es), Drawers(Book(series, [], []), es);
      var due := NextNumberOf(ds, b.series[key]);
      Step(b, NextNumber(key)).issued == if |due| > 16 then b.issued else b.issued + [due]
  {
    var b, ds := After(Book(series, [], []), es), Drawers(Book(series, [], []), es);
    RunFits(series, es);
    DrawGivesTheNext(b.counters, ds, b.series[key]);
  }

  /** The first draw under a prefix: the series' own format at its Start No. */
  lemma FirstDraw(cs: seq<Counter>, s: Series)
    requires forall i | 0 <= i < |cs| :: cs[i].prefix != FullPrefix(s)
    ensures
      var number := FullPrefix(s) + Padded(Max(s.startNo, 1), Max(s.digits, 1));
      Draw(cs, s).Err? <==> |number| > 16
    ensures Draw(cs, s).Ok? ==> Draw(cs, s).value.1 == FullPrefix(s) + Padded(Max(s.startNo, 1), Max(s.digits, 1))
  {
    assert Furthest(cs, FullPrefix(s)) == -1;
    assert (cs + [NewCounter(s)])[..|cs|] == cs;
    hide FullPrefix, Padded;
  }
}
