/** The numbering of a whole business: series, their counters and every number handed out,
    through any run of draws, edits of a series and financial-year rolls. */
module NumberingRuns {
  import opened Basics
  import opened Numerals
  import opened DocSeries

  datatype Book = Book(series: map<Key, Series>, counters: seq<Counter>, issued: seq<string>)

  datatype Event =
    | NextNumber(key: Key)
    | EditSeries(key: Key, to: Series)
    | RollYear(year: nat, month: nat, chosen: set<Key>)

  /** The series the button was pressed on; all of them when it was pressed on none. */
  function Chosen(series: map<Key, Series>, chosen: set<Key>): (ks: set<Key>)
    ensures ks <= series.Keys
  {
    if chosen == {} then series.Keys else series.Keys * chosen
  }

  function Rolled(series: map<Key, Series>, fy: string, chosen: set<Key>): map<Key, Series> {
    map k | k in series :: if k in Chosen(series, chosen) then series[k].(fyCode := fy) else series[k]
  }

  predicate AllChecked(series: map<Key, Series>) {
    forall k | k in series :: CheckFormat(series[k])
  }

  /** One action; an action that is refused changes nothing. */
  ghost function Step(b: Book, e: Event): Book {
    match e
    case NextNumber(key) =>
      if key in b.series && Draw(b.counters, b.series[key]).Ok?
      then
        var (rows, number) := Draw(b.counters, b.series[key]).value;
        b.(counters := rows, issued := b.issued + [number])
      else b
    case EditSeries(key, to) => if CheckFormat(to) then b.(series := b.series[key := to]) else b
    case RollYear(year, month, chosen) =>
      if 1 <= month <= 12 && AllChecked(Rolled(b.series, FyCode(year, month), chosen))
      then b.(series := Rolled(b.series, FyCode(year, month), chosen))
      else b
  }

  ghost function After(b: Book, es: seq<Event>): Book
    decreases |es|
  {
    if es == [] then b else Step(After(b, es[..|es| - 1]), es[|es| - 1])
  }

  // ── The imperative face of the same actions ──────────────────

  class Numbering {
    var series: map<Key, Series>
    var counters: seq<Counter>
    var issued: seq<string>

    ghost function Contents(): Book
      reads this
    {
      Book(series, counters, issued)
    }

    constructor (series: map<Key, Series>)
      ensures Contents() == Book(series, [], [])
    {
      this.series := series;
      counters := [];
      issued := [];
    }

    /** _lgd_sequence: the position of the series' row, created on first use. */
    method Sequence(s: Series) returns (k: nat)
      modifies this`counters
      ensures counters == WithCounter(old(counters), s)
      ensures k < |counters| && k == Furthest(counters, FullPrefix(s))
    {
      var found := -1;
      for i := 0 to |counters|
        invariant found == Furthest(counters[..i], FullPrefix(s))
        invariant counters == old(counters)
      {
        assert counters[..i + 1][..i] == counters[..i];
        if counters[i].prefix == FullPrefix(s) && (found == -1 || counters[i].next > counters[found].next) {
          found := i;
        }
      }
      assert counters[..|counters|] == counters;
      if found == -1 {
        assert (counters + [NewCounter(s)])[..|counters|] == counters;
        counters := counters + [NewCounter(s)];
        found := |counters| - 1;
      }
      k := found;
    }

    /** _lgd_next_number: draws, and leaves everything as it was when it refuses. */
    method Next(key: Key) returns (r: Result<string>)
      modifies this
      ensures Contents() == Step(old(Contents()), NextNumber(key))
      ensures r.Ok? <==> key in series && Draw(old(counters), series[key]).Ok?
      ensures r.Ok? ==> issued == old(issued) + [r.value]
    {
      if key !in series {
        return Err;
      }
      var before := counters;
      var k := Sequence(series[key]);
      var number := Render(counters[k]);
      if |number| > MAX_LEN {
        counters := before;
        return Err;
      }
      counters := counters[k := counters[k].(next := counters[k].next + 1)];
      issued := issued + [number];
      return Ok(number);
    }

    /** action_lgd_roll_financial_year: moves the series that are behind; refuses when there
        is none, or when a moved series would fail its check. */
    method RollFinancialYear(year: nat, month: nat, chosen: set<Key>) returns (rolled: bool)
      requires 1 <= month <= 12
      modifies this
      ensures Contents() == Step(old(Contents()), RollYear(year, month, chosen))
      ensures rolled <==>
              && AllChecked(Rolled(old(series), FyCode(year, month), chosen))
              && exists k :: k in Chosen(old(series), chosen) && old(series)[k].fyCode != FyCode(year, month)
      ensures series.Keys == old(series).Keys
      ensures forall k | k in series ::
          var moves := rolled && (chosen == {} || k in chosen);
          series[k] == if moves then old(series)[k].(fyCode := FyCode(year, month)) else old(series)[k]
      ensures AllChecked(old(series)) ==>
          (rolled <==>
            exists k :: k in old(series) && (chosen == {} || k in chosen) &&
                old(series)[k].fyCode != FyCode(year, month))
    {
      if AllChecked(series) {
        RollAlwaysPasses(series, year, month, chosen);
      }
      assert forall k :: k in Chosen(series, chosen) <==> k in series && (chosen == {} || k in chosen);
      hide CheckFormat, FyCode, Chosen;
      var target := FyCode(year, month);
      var stale := set k | k in Chosen(series, chosen) && series[k].fyCode != target;
      if stale == {} {
        assert forall k | k in Chosen(series, chosen) :: k !in stale;
        assert Rolled(series, target, chosen) == series;
        return false;
      }
      var k0 :| k0 in stale;
      assert k0 in Chosen(series, chosen);
      var moved := MoveTo(series, stale, target);
      assert moved == Rolled(series, target, chosen);
      rolled := AllChecked(moved);
      if rolled {
        series := moved;
      }
    }
  }

  method MoveTo(series: map<Key, Series>, stale: set<Key>, target: string) returns (moved: map<Key, Series>)
    requires stale <= series.Keys
    ensures moved.Keys == series.Keys
    ensures forall k | k in series :: moved[k] == if k in stale then series[k].(fyCode := target) else series[k]
  {
    moved := series;
    var todo := stale;
    while todo != {}
      invariant todo <= stale && moved.Keys == series.Keys
      invariant forall k | k in series :: moved[k] == if k in stale - todo then series[k].(fyCode := target)
          else series[k]
      decreases todo
    {
      var k :| k in todo;
      moved := moved[k := moved[k].(fyCode := target)];
      todo := todo - {k};
    }
  }

  // ── What every run keeps ─────────────────────────────────────

  /** The running numbers issued under one full prefix, in the order they were issued. */
  function Under(issued: seq<string>, prefix: string): seq<nat> {
    if issued == [] then []
    else
      var n := |issued| - 1;
      var rest := Under(issued[..n], prefix);
      match Issued(issued[n])
      case Some((p, k)) => if p == prefix then rest + [k] else rest
      case None => rest
  }

  predicate Consecutive(r: seq<nat>) {
    forall i | 0 <= i < |r| :: r[i] == r[0] + i
  }

  /** Under one prefix: no counter and nothing issued, or a counter standing right after an
      unbroken row of numbers. */
  ghost predicate InStep(b: Book, prefix: string) {
    var r := Under(b.issued, prefix);
    && Consecutive(r)
    && (NextOf(b.counters, prefix) == -1 ==> r == [])
    && (NextOf(b.counters, prefix) != -1 ==> r != [] && r[0] >= 1 && NextOf(b.counters, prefix) == r[|r| - 1] + 1)
  }

  predicate LegalPrefix(prefix: string) {
    forall i | 0 <= i < |prefix| :: LegalChar(prefix[i])
  }

  ghost predicate Inv(b: Book) {
    && AllChecked(b.series)
    && OneRowPerPrefix(b.counters)
    && (forall i | 0 <= i < |b.counters| :: LegalPrefix(b.counters[i].prefix))
    && (forall prefix {:trigger InStep(b, prefix)} :: InStep(b, prefix))
    && (forall i | 0 <= i < |b.issued| :: Issued(b.issued[i]).Some? && Legal(b.issued[i]))
  }

  lemma CheckedPrefixIsLegal(s: Series)
    requires CheckFormat(s)
    ensures LegalPrefix(FullPrefix(s))
  {
    LegalByPrefix(s, Pow10(s.digits) - 1);
  }

  lemma UnderAfter(issued: seq<string>, number: string, p: string, k: nat, prefix: string)
    requires Issued(number) == Some((p, k))
    ensures Under(issued + [number], prefix) == if p == prefix then Under(issued, prefix) + [k]
        else Under(issued, prefix)
  {
    hide Issued;
    assert (issued + [number])[..|issued|] == issued;
  }

  lemma NextRunningStands(cs: seq<Counter>, s: Series)
    ensures NextOf(cs, FullPrefix(s)) == -1 ==> NextRunning(cs, s) >= 1
    ensures NextOf(cs, FullPrefix(s)) != -1 ==> NextRunning(cs, s) == NextOf(cs, FullPrefix(s))
  {
  }

  lemma DrawKeepsStep(b: Book, key: Key, prefix: string)
    requires Inv(b) && key in b.series && Draw(b.counters, b.series[key]).Ok?
    ensures InStep(Step(b, NextNumber(key)), prefix)
  {
    hide Issued, Draw, NextOf, NextRunning, FullPrefix, Under, OneRowPerPrefix, AllChecked, Legal, LegalPrefix;
    var s := b.series[key];
    var (rows, number) := Draw(b.counters, s).value;
    assert InStep(b, prefix);
    DrawAdvances(b.counters, s);
    UnderAfter(b.issued, number, FullPrefix(s), NextRunning(b.counters, s), prefix);
    NextRunningStands(b.counters, s);
  }

  lemma DrawKeepsPrefixes(b: Book, key: Key)
    requires Inv(b) && key in b.series && Draw(b.counters, b.series[key]).Ok?
    ensures
      var (rows, number) := Draw(b.counters, b.series[key]).value;
      (forall i | 0 <= i < |rows| :: LegalPrefix(rows[i].prefix)) && Legal(number)
  {
    var s := b.series[key];
    CheckedPrefixIsLegal(s);
    var before := WithCounter(b.counters, s);
    var k := Furthest(before, FullPrefix(s));
  }

  lemma DrawKeepsInv(b: Book, key: Key)
    requires Inv(b) && key in b.series && Draw(b.counters, b.series[key]).Ok?
    ensures Inv(Step(b, NextNumber(key)))
  {
    hide Issued, NextOf, NextRunning, RowFor, FullPrefix, Under, InStep, Draw;
    DrawAdvances(b.counters, b.series[key]);
    DrawKeepsPrefixes(b, key);
    forall prefix
      ensures InStep(Step(b, NextNumber(key)), prefix)
    {
      DrawKeepsStep(b, key, prefix);
    }
  }

  /** Rolling the year never fails a series that passed before: every FY code is as long. */
  lemma RollAlwaysPasses(series: map<Key, Series>, year: nat, month: nat, chosen: set<Key>)
    requires AllChecked(series) && 1 <= month <= 12
    ensures AllChecked(Rolled(series, FyCode(year, month), chosen))
  {
    YearCodeShape(StartYear(year, month));
    forall k | k in series
      ensures CheckFormat(Rolled(series, FyCode(year, month), chosen)[k])
    {
      SameLengthFyPasses(series[k], FyCode(year, month));
    }
  }

  lemma SameLengthFyPasses(s: Series, fy: string)
    requires CheckFormat(s) && |fy| == 4 && AllDigits(fy)
    ensures CheckFormat(s.(fyCode := fy))
  {
    var t := s.(fyCode := fy);
    var last := Pow10(s.digits) - 1;
    FormatsShareTheirLength(s, last);
    FormatsShareTheirLength(t, last);
    LegalByPrefix(s, last);
    LegalByPrefix(t, last);
    forall i | 0 <= i < |FullPrefix(t)|
      ensures LegalChar(FullPrefix(t)[i])
    {
      if i <= |s.prefix| {
        assert FullPrefix(t)[i] == FullPrefix(s)[i];
      } else if i <= |s.prefix| + 4 {
        assert FullPrefix(t)[i] == fy[i - |s.prefix| - 1];
      }
    }
  }

  lemma StepKeepsInv(b: Book, e: Event)
    requires Inv(b)
    ensures Inv(Step(b, e))
  {
    match e
    case NextNumber(key) =>
      if key in b.series && Draw(b.counters, b.series[key]).Ok? {
        DrawKeepsInv(b, key);
      }
    case EditSeries(_, _) =>
      SeriesDoNotMatter(b, Step(b, e));
    case RollYear(_, _, _) =>
      SeriesDoNotMatter(b, Step(b, e));
  }

  lemma SeriesDoNotMatter(b: Book, t: Book)
    requires Inv(b) && t.counters == b.counters && t.issued == b.issued && AllChecked(t.series)
    ensures Inv(t)
  {
    forall prefix
      ensures InStep(t, prefix)
    {
      assert InStep(b, prefix);
    }
  }

  lemma {:induction false} RunKeepsInv(series: map<Key, Series>, es: seq<Event>)
    requires AllChecked(series)
    ensures Inv(After(Book(series, [], []), es))
    decreases |es|
  {
    if es != [] {
      RunKeepsInv(series, es[..|es| - 1]);
      StepKeepsInv(After(Book(series, [], []), es[..|es| - 1]), es[|es| - 1]);
    }
  }

  lemma {:induction false} UnderGrows(issued: seq<string>, i: nat, prefix: string)
    requires i <= |issued|
    ensures Under(issued[..i], prefix) <= Under(issued, prefix)
    decreases |issued|
  {
    if i < |issued| {
      var n := |issued| - 1;
      assert issued[..n][..i] == issued[..i];
      UnderGrows(issued[..n], i, prefix);
    } else {
      assert issued[..i] == issued;
    }
  }

  lemma TwoPlaces(issued: seq<string>, i: nat, j: nat, prefix: string, k: nat) returns (x: nat, y: nat)
    requires i < j < |issued| && Issued(issued[i]) == Some((prefix, k)) && Issued(issued[j]) == Some((prefix, k))
    ensures x < y < |Under(issued, prefix)| && Under(issued, prefix)[x] == k && Under(issued, prefix)[y] == k
  {
    var early, late := Under(issued[..i + 1], prefix), Under(issued[..j + 1], prefix);
    assert issued[..i + 1][..i] == issued[..i];
    assert issued[..j + 1][..j] == issued[..j];
    assert issued[..j][..i + 1] == issued[..i + 1];
    UnderGrows(issued[..j], i + 1, prefix);
    UnderGrows(issued, j + 1, prefix);
    x, y := |early| - 1, |late| - 1;
    assert late[x] == early[x];
  }

  /** Two equal numbers would be two equal entries of one unbroken row. */
  lemma NoNumberTwice(b: Book, i: nat, j: nat)
    requires Inv(b) && i < j < |b.issued|
    ensures b.issued[i] != b.issued[j]
  {
    var Some((prefix, k)) := Issued(b.issued[i]);
    assert InStep(b, prefix);
    if b.issued[i] == b.issued[j] {
      var x, y := TwoPlaces(b.issued, i, j, prefix, k);
      assert false;
    }
  }

  /** Over any run from no counters at all: the numbers handed out are pairwise distinct,
      whichever series share a prefix; each is legal under Rule 46(b); and under every full
      prefix the running numbers follow each other without a gap. */
  lemma IssuedNumbersAreStatutory(series: map<Key, Series>, es: seq<Event>)
    requires AllChecked(series)
    ensures
      var issued := After(Book(series, [], []), es).issued;
      && (forall i, j | 0 <= i < j < |issued| :: issued[i] != issued[j])
      && (forall i | 0 <= i < |issued| :: Legal(issued[i]))
      && (forall prefix :: Consecutive(Under(issued, prefix)))
  {
    var b := After(Book(series, [], []), es);
    RunKeepsInv(series, es);
    forall i, j | 0 <= i < j < |b.issued|
      ensures b.issued[i] != b.issued[j]
    {
      NoNumberTwice(b, i, j);
    }
    forall prefix
      ensures Consecutive(Under(b.issued, prefix))
    {
      assert InStep(b, prefix);
    }
  }
}
