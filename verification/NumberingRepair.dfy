/** The numbering repair: merge counters that share a prefix, reissue duplicate document
    numbers, push counters past what is issued - and how often it has to run. */
module NumberingRepair {
  import opened Basics
  import opened Numerals
  import opened DocSeries

  /** A record with a number; records are kept in the order of their ids. */
  datatype Document = Document(channel: Channel, number: string)

  /** One of the fields that hold issued numbers. */
  datatype Field = Field(docType: DocType, records: seq<Document>)

  datatype Registry = Registry(series: map<Key, Series>, counters: seq<Counter>, fields: seq<Field>)

  // ── Pass 1: one row per prefix ───────────────────────────────

  /** The oldest row of the prefix takes the furthest number of the two. */
  function Absorb(kept: seq<Counter>, c: Counter): seq<Counter> {
    var k := Furthest(kept, c.prefix);
    if k == -1 then kept + [c] else kept[k := kept[k].(next := Max(kept[k].next, c.next))]
  }

  function Merged(cs: seq<Counter>): seq<Counter> {
    if cs == [] then [] else Absorb(Merged(cs[..|cs| - 1]), cs[|cs| - 1])
  }

  /** Merging leaves one row per prefix, standing where the furthest of its group stood: no
      number the group issued can be handed out again. */
  lemma {:induction false} MergedStandsFurthest(cs: seq<Counter>)
    ensures OneRowPerPrefix(Merged(cs))
    ensures forall p :: NextOf(Merged(cs), p) == NextOf(cs, p)
  {
    hide Issued;
    if cs != [] {
      var n := |cs| - 1;
      var kept, c := Merged(cs[..n]), cs[n];
      MergedStandsFurthest(cs[..n]);
      var k := Furthest(kept, c.prefix);
      forall p
        ensures OneRowPerPrefix(Merged(cs)) && NextOf(Merged(cs), p) == NextOf(cs, p)
      {
        assert NextOf(kept, p) == NextOf(cs[..n], p);
        assert NextOf(kept, c.prefix) == NextOf(cs[..n], c.prefix);
        if k == -1 {
          NewRowLeavesOthers(kept, c, p);
        } else {
          MovedRowLeavesOthers(kept, k, Max(kept[k].next, c.next), p);
        }
      }
    }
  }

  /** c is, but for where it stands, the first row of its prefix. */
  ghost predicate IsOldest(cs: seq<Counter>, c: Counter) {
    exists i :: 0 <= i < |cs| && cs[i] == c.(next := cs[i].next) && forall h | 0 <= h < i :: cs[h].prefix != c.prefix
  }

  /** Every row left is the oldest of its group, padding included. */
  lemma {:induction false} MergedKeepsOldest(cs: seq<Counter>)
    ensures forall j | 0 <= j < |Merged(cs)| :: IsOldest(cs, Merged(cs)[j])
  {
    if cs != [] {
      var n := |cs| - 1;
      var kept, c := Merged(cs[..n]), cs[n];
      MergedKeepsOldest(cs[..n]);
      MergedStandsFurthest(cs[..n]);
      var k := Furthest(kept, c.prefix);
      forall j | 0 <= j < |Merged(cs)|
        ensures IsOldest(cs, Merged(cs)[j])
      {
        if j < |kept| {
          assert IsOldest(cs[..n], kept[j]);
          OldestStays(cs, kept[j]);
          assert IsOldest(cs, kept[j]);
          SameRowElsewhere(cs, kept[j], Merged(cs)[j].next);
        } else {
          assert k == -1 && NextOf(cs[..n], c.prefix) == -1;
          assert cs[n] == Merged(cs)[j];
        }
      }
    }
  }

  lemma OldestStays(cs: seq<Counter>, c: Counter)
    requires cs != [] && IsOldest(cs[..|cs| - 1], c)
    ensures IsOldest(cs, c)
  {
    var before := cs[..|cs| - 1];
    var i :| 0 <= i < |before| && before[i] == c.(next := before[i].next) &&
        forall h | 0 <= h < i :: before[h].prefix != c.prefix;
    assert cs[i] == before[i] && forall h | 0 <= h < i :: before[h] == cs[h];
  }

  lemma SameRowElsewhere(cs: seq<Counter>, c: Counter, next: nat)
    requires IsOldest(cs, c)
    ensures IsOldest(cs, c.(next := next))
  {
    var i :| 0 <= i < |cs| && cs[i] == c.(next := cs[i].next) && forall h | 0 <= h < i :: cs[h].prefix != c.prefix;
    assert cs[i] == c.(next := next).(next := cs[i].next);
  }

  /** Where no prefix has two rows, there is nothing to merge. */
  lemma {:induction false} NothingToMerge(cs: seq<Counter>)
    requires OneRowPerPrefix(cs)
    ensures Merged(cs) == cs
  {
    if cs != [] {
      var n := |cs| - 1;
      NothingToMerge(cs[..n]);
      assert Furthest(cs[..n], cs[n].prefix) == -1;
      assert cs[..n] + [cs[n]] == cs;
    }
  }

  // ── Pass 2: one document per number ──────────────────────────

  /** After some records of a field: the counters, the records' numbers, and whether a fresh
      number ever met one already seen - which nothing in the repair looks at. */
  datatype Progress = Progress(counters: seq<Counter>, numbers: seq<string>, clash: bool)

  function RenumberOne(series: map<Key, Series>, dt: DocType, before: Progress, d: Document): Result<Progress> {
    if d.number !in before.numbers then Ok(before.(numbers := before.numbers + [d.number]))
    else if (dt, d.channel) !in series then Err
    else match Draw(before.counters, series[(dt, d.channel)])
      case Err => Err
      case Ok((rows, reissue)) =>
        Ok(Progress(rows, before.numbers + [reissue], before.clash || reissue in before.numbers))
  }

  function Renumber(series: map<Key, Series>, cs: seq<Counter>, f: Field, n: nat): Result<Progress>
    requires n <= |f.records|
  {
    if n == 0 then Ok(Progress(cs, [], false))
    else match Renumber(series, cs, f, n - 1)
      case Err => Err
      case Ok(before) => RenumberOne(series, f.docType, before, f.records[n - 1])
  }

  function WithNumbers(f: Field, numbers: seq<string>): Field
    requires |numbers| == |f.records|
  {
    f.(records := seq(|numbers|, i requires 0 <= i < |numbers| => f.records[i].(number := numbers[i])))
  }

  lemma {:induction false} RenumberCounts(series: map<Key, Series>, cs: seq<Counter>, f: Field, n: nat)
    requires n <= |f.records| && Renumber(series, cs, f, n).Ok?
    ensures |Renumber(series, cs, f, n).value.numbers| == n
  {
    if n > 0 {
      RenumberCounts(series, cs, f, n - 1);
    }
  }

  /** The counters and fields after the first n fields, and whether any of them clashed. */
  datatype Pass = Pass(counters: seq<Counter>, fields: seq<Field>, clash: bool)

  function RenumberFields(r: Registry, cs: seq<Counter>, n: nat): Result<Pass>
    requires n <= |r.fields|
  {
    if n == 0 then Ok(Pass(cs, [], false))
    else match RenumberFields(r, cs, n - 1)
      case Err => Err
      case Ok(before) =>
        var f := r.fields[n - 1];
        match Renumber(r.series, before.counters, f, |f.records|)
        case Err => Err
        case Ok(p) =>
          RenumberCounts(r.series, before.counters, f, |f.records|);
          Ok(Pass(p.counters, before.fields + [WithNumbers(f, p.numbers)], before.clash || p.clash))
  }

  // ── Pass 3: counters past what is issued ─────────────────────

  /** The highest running number issued under a prefix; -1 when there is none. */
  function Top(records: seq<Document>, prefix: string): (top: int)
    ensures top >= -1
    ensures forall i | 0 <= i < |records| && Issued(records[i].number).Some? &&
        Issued(records[i].number).value.0 == prefix ::
      Issued(records[i].number).value.1 <= top
  {
    if records == [] then -1
    else
      var n := |records| - 1;
      var rest := Top(records[..n], prefix);
      match Issued(records[n].number)
      case Some((p, k)) => if p == prefix then Max(rest, k) else rest
      case None => rest
  }

  function Advanced(cs: seq<Counter>, f: Field): seq<Counter> {
    seq(|cs|, i requires 0 <= i < |cs| => cs[i].(next := Max(cs[i].next, Top(f.records, cs[i].prefix) + 1)))
  }

  function AdvancedAll(cs: seq<Counter>, fields: seq<Field>): seq<Counter> {
    if fields == [] then cs else Advanced(AdvancedAll(cs, fields[..|fields| - 1]), fields[|fields| - 1])
  }

  /** _lgd_repair_numbering: all three passes, or - when a draw is refused - nothing. The
      flag is not part of the program: it records whether pass 2 clashed. */
  function Repair(r: Registry): Result<(Registry, bool)> {
    match RenumberFields(r, Merged(r.counters), |r.fields|)
    case Err => Err
    case Ok(p) => Ok((Registry(r.series, AdvancedAll(p.counters, p.fields), p.fields), p.clash))
  }

  // ── What a healthy registry is ───────────────────────────────

  ghost predicate NumbersDistinct(f: Field) {
    forall i, j | 0 <= i < j < |f.records| :: f.records[i].number != f.records[j].number
  }

  /** The counter of this number's prefix, if there is one, is past it. */
  ghost predicate Passed(cs: seq<Counter>, number: string) {
    Issued(number).Some? && NextOf(cs, Issued(number).value.0) != -1 ==>
        Issued(number).value.1 < NextOf(cs, Issued(number).value.0)
  }

  ghost predicate AllPassed(cs: seq<Counter>, f: Field) {
    forall i | 0 <= i < |f.records| :: Passed(cs, f.records[i].number)
  }

  /** Nothing left for the repair to do. */
  ghost predicate Clean(r: Registry) {
    && OneRowPerPrefix(r.counters)
    && forall i | 0 <= i < |r.fields| :: NumbersDistinct(r.fields[i]) && AllPassed(r.counters, r.fields[i])
  }

  /** A number that appears a second time in its field. */
  predicate Repeats(f: Field, j: int)
    requires 0 <= j < |f.records|
  {
    exists i :: 0 <= i < j && f.records[i].number == f.records[j].number
  }

  /** The next draw of this series is past every one of the numbers. */
  ghost predicate DrawsPast(cs: seq<Counter>, s: Series, numbers: set<string>) {
    Past(numbers, FullPrefix(s), NextRunning(cs, s))
  }

  ghost predicate Past(numbers: set<string>, prefix: string, next: nat) {
    forall x {:trigger Issued(x)} | x in numbers && Issued(x).Some? && Issued(x).value.0 == prefix ::
        Issued(x).value.1 < next
  }

  lemma NextRunningByPrefix(cs: seq<Counter>, s: Series)
    ensures NextRunning(cs, s) == if NextOf(cs, FullPrefix(s)) == -1 then Max(s.startNo, 1)
        else NextOf(cs, FullPrefix(s))
  {
    if NextOf(cs, FullPrefix(s)) == -1 {
      assert (cs + [NewCounter(s)])[..|cs|] == cs;
    }
  }

  // ── Pass 2 in general ────────────────────────────────────────

  ghost predicate OnlyForward(cs: seq<Counter>, later: seq<Counter>) {
    forall p :: NextOf(cs, p) <= NextOf(later, p)
  }

  /** A number left twice is in the hands of a series that has a counter. */
  ghost predicate TwiceHasCounter(series: map<Key, Series>, f: Field, p: Progress)
    requires |p.numbers| <= |f.records|
  {
    forall i, j | 0 <= i < j < |p.numbers| && p.numbers[i] == p.numbers[j] ::
      (f.docType, f.records[j].channel) in series
      && NextOf(p.counters, FullPrefix(series[(f.docType, f.records[j].channel)])) != -1
  }

  ghost predicate Leaves(series: map<Key, Series>, cs: seq<Counter>, f: Field, p: Progress, n: nat)
    requires n <= |f.records|
  {
    && |p.numbers| == n && OneRowPerPrefix(p.counters) && OnlyForward(cs, p.counters)
    && (p.clash <==> !Distinct(p.numbers))
    && TwiceHasCounter(series, f, p)
  }

  lemma DrawGoesForward(cs: seq<Counter>, s: Series)
    requires OneRowPerPrefix(cs) && Draw(cs, s).Ok?
    ensures
      var rows := Draw(cs, s).value.0;
      OneRowPerPrefix(rows) && OnlyForward(cs, rows) && NextOf(rows, FullPrefix(s)) != -1
  {
    DrawAdvances(cs, s);
    NextRunningByPrefix(cs, s);
  }

  lemma ReissueLeaves(series: map<Key, Series>, cs: seq<Counter>, f: Field, was: Progress, rows: seq<Counter>,
      number: string)
    requires |was.numbers| < |f.records| && Leaves(series, cs, f, was, |was.numbers|)
    requires OneRowPerPrefix(rows) && OnlyForward(was.counters, rows)
    requires
      var key := (f.docType, f.records[|was.numbers|].channel);
      number in was.numbers ==> key in series && NextOf(rows, FullPrefix(series[key])) != -1
    ensures Leaves(series, cs, f, Progress(rows, was.numbers + [number], was.clash || number in was.numbers),
        |was.numbers| + 1)
  {
    hide FullPrefix, NextOf;
    AppendDistinct(was.numbers, number);
    var p := Progress(rows, was.numbers + [number], was.clash || number in was.numbers);
    forall i, j | 0 <= i < j < |p.numbers| && p.numbers[i] == p.numbers[j]
      ensures (f.docType, f.records[j].channel) in series
      ensures NextOf(p.counters, FullPrefix(series[(f.docType, f.records[j].channel)])) != -1
    {
      if j < |was.numbers| {
        assert was.numbers[i] == was.numbers[j];
        CounterStays(was.counters, rows, FullPrefix(series[(f.docType, f.records[j].channel)]));
      }
    }
  }

  lemma CounterStays(cs: seq<Counter>, later: seq<Counter>, prefix: string)
    requires OnlyForward(cs, later) && NextOf(cs, prefix) != -1
    ensures NextOf(later, prefix) != -1
  {
    assert NextOf(cs, prefix) <= NextOf(later, prefix);
  }

  /** Whatever the counters, pass 2 only moves them forward; it clashes exactly when it
      leaves a number twice; and a number it leaves twice is in the hands of a series that
      has a counter by then. */
  lemma {:induction false} RenumberLeaves(series: map<Key, Series>, cs: seq<Counter>, f: Field, n: nat)
    requires OneRowPerPrefix(cs) && n <= |f.records| && Renumber(series, cs, f, n).Ok?
    ensures Leaves(series, cs, f, Renumber(series, cs, f, n).value, n)
  {
    hide Issued, Draw, FullPrefix;
    if n > 0 {
      RenumberLeaves(series, cs, f, n - 1);
      var was, d := Renumber(series, cs, f, n - 1).value, f.records[n - 1];
      if d.number in was.numbers {
        var s := series[(f.docType, d.channel)];
        DrawGoesForward(was.counters, s);
        var (rows, number) := Draw(was.counters, s).value;
        ReissueLeaves(series, cs, f, was, rows, number);
      } else {
        ReissueLeaves(series, cs, f, was, was.counters, d.number);
        assert was.clash || d.number in was.numbers <==> was.clash;
      }
    }
  }

  lemma AppendDistinct(s: seq<string>, x: string)
    ensures Distinct(s + [x]) <==> Distinct(s) && x !in s
  {
    var t := s + [x];
    if Distinct(t) {
      forall i | 0 <= i < |s|
        ensures s[i] != x
      {
        assert t[i] != t[|s|];
      }
      forall i, j | 0 <= i < j < |s|
        ensures s[i] != s[j]
      {
        assert t[i] != t[j];
      }
    }
  }

  // ── Pass 2 when no draw can meet a number ────────────────────

  /** The series' row can still render this number, now or after more draws. */
  ghost predicate ComesAgain(cs: seq<Counter>, s: Series, number: string) {
    |number| <= MAX_LEN && exists n: nat :: n >= NextRunning(cs, s) && number == Render(RowFor(cs, s).(next := n))
  }

  ghost predicate DrawsClear(cs: seq<Counter>, s: Series, numbers: set<string>) {
    forall x {:trigger ComesAgain(cs, s, x)} | x in numbers :: !ComesAgain(cs, s, x)
  }

  lemma RenderSplits(s: Series, c: Counter)
    requires c.prefix == FullPrefix(s)
    ensures Issued(Render(c)) == Some((FullPrefix(s), c.next))
  {
    FullPrefixSplits(s, c.next, c.padding);
  }

  lemma PastIsClear(cs: seq<Counter>, s: Series, numbers: set<string>)
    requires DrawsPast(cs, s, numbers)
    ensures DrawsClear(cs, s, numbers)
  {
    forall x | x in numbers && ComesAgain(cs, s, x)
      ensures false
    {
      var n: nat :| n >= NextRunning(cs, s) && x == Render(RowFor(cs, s).(next := n));
      RenderSplits(s, RowFor(cs, s).(next := n));
      assert false;
    }
  }

  lemma NotFrom(cs: seq<Counter>, s: Series, number: string, n: nat)
    requires !ComesAgain(cs, s, number) && |number| <= MAX_LEN && n >= NextRunning(cs, s)
    ensures number != Render(RowFor(cs, s).(next := n))
  {
  }

  /** A draw moves the row it draws from, and no other. */
  lemma RowAfterDraw(cs: seq<Counter>, s: Series, t: Series)
    requires OneRowPerPrefix(cs) && Draw(cs, s).Ok?
    ensures
      var (rows, number) := Draw(cs, s).value;
      && number == Render(RowFor(cs, s)) && |number| <= MAX_LEN
      && RowFor(rows, t) == if FullPrefix(t) == FullPrefix(s) then RowFor(cs, s).(next := NextRunning(cs, s) + 1)
          else RowFor(cs, t)
  {
    DrawKeepsOneRow(cs, s);
    var before, rows := WithCounter(cs, s), Draw(cs, s).value.0;
    var k := Furthest(before, FullPrefix(s));
    assert rows[k] == RowFor(cs, s).(next := NextRunning(cs, s) + 1);
    if FullPrefix(t) == FullPrefix(s) {
      FurthestIsTheRow(rows, k);
    } else {
      OtherRowStays(cs, s, t);
    }
  }

  lemma OtherRowStays(cs: seq<Counter>, s: Series, t: Series)
    requires OneRowPerPrefix(cs) && Draw(cs, s).Ok? && FullPrefix(t) != FullPrefix(s)
    ensures RowFor(Draw(cs, s).value.0, t) == RowFor(cs, t)
  {
    hide Render, FullPrefix;
    DrawKeepsOneRow(cs, s);
    DrawAdvances(cs, s);
    var rows, q := Draw(cs, s).value.0, FullPrefix(t);
    var i := Furthest(cs, q);
    if i >= 0 {
      assert rows[i] == cs[i];
      FurthestIsTheRow(rows, i);
    } else {
      assert NextOf(rows, q) == NextOf(cs, q) == -1;
      CreatedRow(rows, t);
      CreatedRow(cs, t);
    }
  }

  lemma CreatedRow(cs: seq<Counter>, t: Series)
    requires Furthest(cs, FullPrefix(t)) == -1
    ensures RowFor(cs, t) == NewCounter(t)
  {
    assert (cs + [NewCounter(t)])[..|cs|] == cs;
  }

  lemma DrawKeepsOneRow(cs: seq<Counter>, s: Series)
    requires OneRowPerPrefix(cs) && Draw(cs, s).Ok?
    ensures OneRowPerPrefix(Draw(cs, s).value.0)
  {
    DrawAdvances(cs, s);
  }

  /** A draw of s hands out a number none of the numbers is; and for any series clear of them
      all, the row it draws from afterwards is clear of them and of the new one. */
  lemma DrawStaysClear(cs: seq<Counter>, s: Series, numbers: set<string>, t: Series)
    requires OneRowPerPrefix(cs) && Draw(cs, s).Ok?
    requires DrawsClear(cs, s, numbers) && DrawsClear(cs, t, numbers)
    ensures
      var (rows, number) := Draw(cs, s).value;
      number !in numbers && DrawsClear(rows, t, numbers + {number})
  {
    hide RowFor, Render, FullPrefix;
    RowAfterDraw(cs, s, t);
    var (rows, number) := Draw(cs, s).value;
    assert RowFor(cs, s) == RowFor(cs, s).(next := NextRunning(cs, s));
    assert ComesAgain(cs, s, number);
    forall x | x in numbers + {number} && ComesAgain(rows, t, x)
      ensures false
    {
      var n: nat :| n >= NextRunning(rows, t) && x == Render(RowFor(rows, t).(next := n));
      RenderSplits(t, RowFor(rows, t).(next := n));
      RenderSplits(s, RowFor(cs, s));
      if x in numbers {
        var u := if FullPrefix(t) == FullPrefix(s) then s else t;
        assert RowFor(rows, t).(next := n) == RowFor(cs, u).(next := n);
        NotFrom(cs, u, x, n);
      }
      assert false;
    }
  }

  ghost predicate AllDrawClear(cs: seq<Counter>, drawn: set<Series>, numbers: set<string>) {
    forall t {:trigger DrawsClear(cs, t, numbers)} | t in drawn :: DrawsClear(cs, t, numbers)
  }

  /** The series of the records that repeat a number are all among these. */
  ghost predicate RepeatsDrawFrom(series: map<Key, Series>, f: Field, drawn: set<Series>) {
    forall j {:trigger Repeats(f, j)} | 0 <= j < |f.records| && Repeats(f, j) &&
        (f.docType, f.records[j].channel) in series ::
      series[(f.docType, f.records[j].channel)] in drawn
  }

  function NumbersOf(f: Field): set<string> {
    set d | d in f.records :: d.number
  }

  /** What pass 2 does to a field then: the earliest holder of a number keeps it, every later
      one gets a number nobody had, and no number is left twice. */
  ghost predicate KeepsEarliest(f: Field, numbers: seq<string>, known: set<string>) {
    && |numbers| <= |f.records|
    && Distinct(numbers)
    && forall i {:trigger Repeats(f, i)} | 0 <= i < |numbers| ::
         if Repeats(f, i) then numbers[i] !in known else numbers[i] == f.records[i].number
  }

  /** After pass 2 has dealt with the first n records of a field this way. */
  ghost predicate HealthyProgress(f: Field, p: Progress, n: nat, known: set<string>, drawn: set<Series>) {
    && |p.numbers| == n && !p.clash
    && OneRowPerPrefix(p.counters)
    && KeepsEarliest(f, p.numbers, known)
    && AllDrawClear(p.counters, drawn, known + Held(p.numbers))
  }

  function Held(numbers: seq<string>): set<string> {
    set x | x in numbers
  }

  lemma {:induction false} HealthyRenumber(series: map<Key, Series>, cs: seq<Counter>, f: Field, n: nat,
      known: set<string>, drawn: set<Series>)
    requires OneRowPerPrefix(cs) && n <= |f.records| && Renumber(series, cs, f, n).Ok?
    requires NumbersOf(f) <= known && RepeatsDrawFrom(series, f, drawn) && AllDrawClear(cs, drawn, known)
    ensures HealthyProgress(f, Renumber(series, cs, f, n).value, n, known, drawn)
  {
    if n == 0 {
      assert known + Held([]) == known;
    } else {
      HealthyRenumber(series, cs, f, n - 1, known, drawn);
      HealthyStep(series, f, Renumber(series, cs, f, n - 1).value, n - 1, known, drawn);
    }
  }

  lemma HealthyStep(series: map<Key, Series>, f: Field, was: Progress, n: nat, known: set<string>, drawn: set<Series>)
    requires n < |f.records| && HealthyProgress(f, was, n, known, drawn) && NumbersOf(f) <= known
    requires RepeatsDrawFrom(series, f, drawn)
    requires RenumberOne(series, f.docType, was, f.records[n]).Ok?
    ensures HealthyProgress(f, RenumberOne(series, f.docType, was, f.records[n]).value, n + 1, known, drawn)
  {
    SeenExactlyWhenRepeated(f, n, was.numbers, known);
    if Repeats(f, n) {
      HealthyReissue(f, was, series[(f.docType, f.records[n].channel)], known, drawn);
    } else {
      HealthyKeep(f, was, known, drawn);
    }
  }

  lemma KeepsEarliestGrows(f: Field, numbers: seq<string>, x: string, known: set<string>)
    requires |numbers| < |f.records| && KeepsEarliest(f, numbers, known) && x !in numbers
    requires if Repeats(f, |numbers|) then x !in known else x == f.records[|numbers|].number
    ensures KeepsEarliest(f, numbers + [x], known)
  {
    AppendDistinct(numbers, x);
    forall i | 0 <= i < |numbers + [x]|
      ensures if Repeats(f, i) then (numbers + [x])[i] !in known else (numbers + [x])[i] == f.records[i].number
    {
    }
  }

  lemma HealthyKeep(f: Field, was: Progress, known: set<string>, drawn: set<Series>)
    requires |was.numbers| < |f.records| && HealthyProgress(f, was, |was.numbers|, known, drawn)
    requires NumbersOf(f) <= known && !Repeats(f, |was.numbers|)
    ensures HealthyProgress(f, was.(numbers := was.numbers + [f.records[|was.numbers|].number]), |was.numbers| + 1,
        known, drawn)
  {
    var d := f.records[|was.numbers|];
    SeenExactlyWhenRepeated(f, |was.numbers|, was.numbers, known);
    KeepsEarliestGrows(f, was.numbers, d.number, known);
    assert d in f.records && d.number in known;
    assert known + Held(was.numbers + [d.number]) == known + Held(was.numbers);
  }

  lemma HealthyReissue(f: Field, was: Progress, s: Series, known: set<string>, drawn: set<Series>)
    requires |was.numbers| < |f.records| && HealthyProgress(f, was, |was.numbers|, known, drawn)
    requires Repeats(f, |was.numbers|) && s in drawn && Draw(was.counters, s).Ok?
    ensures
      var (rows, number) := Draw(was.counters, s).value;
      number !in was.numbers && HealthyProgress(f, Progress(rows, was.numbers + [number], false), |was.numbers| + 1,
          known, drawn)
  {
    var (rows, number) := Draw(was.counters, s).value;
    var held := known + Held(was.numbers);
    DrawKeepsOneRow(was.counters, s);
    assert DrawsClear(was.counters, s, held);
    forall t | t in drawn
      ensures number !in held && DrawsClear(rows, t, held + {number})
    {
      assert DrawsClear(was.counters, t, held);
      DrawStaysClear(was.counters, s, held, t);
    }
    KeepsEarliestGrows(f, was.numbers, number, known);
  }

  lemma SeenExactlyWhenRepeated(f: Field, j: nat, numbers: seq<string>, known: set<string>)
    requires j < |f.records| && |numbers| == j && NumbersOf(f) <= known && KeepsEarliest(f, numbers, known)
    ensures f.records[j].number in numbers <==> Repeats(f, j)
  {
    assert f.records[j] in f.records && f.records[j].number in known;
    if Repeats(f, j) {
      var i := FirstHolder(f, j);
      assert !Repeats(f, i) && numbers[i] == f.records[j].number;
    }
    if f.records[j].number in numbers {
      var i :| 0 <= i < j && numbers[i] == f.records[j].number;
      assert !Repeats(f, i);
    }
  }

  lemma {:induction false} FirstHolder(f: Field, j: nat) returns (i: nat)
    requires j < |f.records| && Repeats(f, j)
    ensures i < j && f.records[i].number == f.records[j].number && !Repeats(f, i)
  {
    i :| 0 <= i < j && f.records[i].number == f.records[j].number;
    if Repeats(f, i) {
      i := FirstHolder(f, i);
    }
  }

  // ── Pass 3 ───────────────────────────────────────────────────

  lemma AdvancedAt(cs: seq<Counter>, f: Field)
    ensures |Advanced(cs, f)| == |cs|
    ensures forall i | 0 <= i < |cs| ::
        Advanced(cs, f)[i] == cs[i].(next := Max(cs[i].next, Top(f.records, cs[i].prefix) + 1))
  {
    hide Top;
  }

  lemma AdvancedPrefix(cs: seq<Counter>, f: Field, p: string)
    requires OneRowPerPrefix(cs) && OneRowPerPrefix(Advanced(cs, f))
    ensures NextOf(Advanced(cs, f), p) == if NextOf(cs, p) == -1 then -1 else Max(NextOf(cs, p), Top(f.records, p) + 1)
  {
    hide Top, Advanced, OneRowPerPrefix;
    var moved, k := Advanced(cs, f), Furthest(cs, p);
    AdvancedAt(cs, f);
    if k >= 0 {
      FurthestIsTheRow(moved, k);
    } else {
      assert forall i | 0 <= i < |moved| :: moved[i].prefix != p;
    }
  }

  lemma AdvancedStands(cs: seq<Counter>, f: Field)
    requires OneRowPerPrefix(cs)
    ensures OneRowPerPrefix(Advanced(cs, f))
    ensures forall p :: NextOf(Advanced(cs, f), p) == if NextOf(cs, p) == -1 then -1
        else Max(NextOf(cs, p), Top(f.records, p) + 1)
  {
    hide Top, Advanced, NextOf;
    AdvancedAt(cs, f);
    forall p
      ensures NextOf(Advanced(cs, f), p) == if NextOf(cs, p) == -1 then -1
          else Max(NextOf(cs, p), Top(f.records, p) + 1)
    {
      AdvancedPrefix(cs, f, p);
    }
  }

  /** A field whose numbers are passed stays so when the counters move forward. */
  ghost predicate Forward(cs: seq<Counter>, later: seq<Counter>) {
    forall p :: NextOf(cs, p) <= NextOf(later, p) && (NextOf(cs, p) == -1 <==> NextOf(later, p) == -1)
  }

  lemma AdvancedGoesForward(cs: seq<Counter>, before: seq<Counter>, f: Field)
    requires OneRowPerPrefix(before) && Forward(cs, before)
    ensures Forward(cs, Advanced(before, f)) && Forward(before, Advanced(before, f))
  {
    AdvancedStands(before, f);
  }

  lemma {:induction false} AdvancedAllPasses(cs: seq<Counter>, fields: seq<Field>)
    requires OneRowPerPrefix(cs)
    ensures OneRowPerPrefix(AdvancedAll(cs, fields)) && Forward(cs, AdvancedAll(cs, fields))
    ensures forall i | 0 <= i < |fields| :: AllPassed(AdvancedAll(cs, fields), fields[i])
  {
    if fields != [] {
      var n := |fields| - 1;
      var before := AdvancedAll(cs, fields[..n]);
      AdvancedAllPasses(cs, fields[..n]);
      AdvancedGoesForward(cs, before, fields[n]);
      AdvancedStands(before, fields[n]);
      hide Advanced, NextOf, AllPassed, OneRowPerPrefix;
      forall i | 0 <= i < n
        ensures AllPassed(before, fields[i])
      {
        assert fields[..n][i] == fields[i];
      }
      OneMoreFieldPasses(before, fields);
    }
  }

  lemma OneMoreFieldPasses(before: seq<Counter>, fields: seq<Field>)
    requires fields != [] && OneRowPerPrefix(before)
    requires forall i | 0 <= i < |fields| - 1 :: AllPassed(before, fields[i])
    ensures forall i | 0 <= i < |fields| :: AllPassed(Advanced(before, fields[|fields| - 1]), fields[i])
  {
    var n := |fields| - 1;
    assert Forward(before, before);
    AdvancedGoesForward(before, before, fields[n]);
    hide Advanced, NextOf;
    forall i | 0 <= i < |fields|
      ensures AllPassed(Advanced(before, fields[n]), fields[i])
    {
      if i < n {
        StaysPassed(before, Advanced(before, fields[n]), fields[i]);
      } else {
        TopIsPassed(before, fields[n]);
      }
    }
  }

  lemma StaysPassed(cs: seq<Counter>, later: seq<Counter>, f: Field)
    requires Forward(cs, later) && AllPassed(cs, f)
    ensures AllPassed(later, f)
  {
    hide Issued, NextOf;
    forall i | 0 <= i < |f.records|
      ensures Passed(later, f.records[i].number)
    {
      assert Passed(cs, f.records[i].number);
    }
  }

  lemma TopIsPassed(cs: seq<Counter>, f: Field)
    requires OneRowPerPrefix(cs)
    ensures AllPassed(Advanced(cs, f), f)
  {
    AdvancedStands(cs, f);
    hide Issued, NextOf, Advanced;
    forall i | 0 <= i < |f.records|
      ensures Passed(Advanced(cs, f), f.records[i].number)
    {
      var number := f.records[i].number;
      if Issued(number).Some? {
        assert Issued(number).value.1 <= Top(f.records, Issued(number).value.0);
      }
    }
  }

  lemma {:induction false} TopBelow(cs: seq<Counter>, records: seq<Document>, prefix: string)
    requires NextOf(cs, prefix) != -1
    requires forall i | 0 <= i < |records| :: Passed(cs, records[i].number)
    ensures Top(records, prefix) < NextOf(cs, prefix)
  {
    if records != [] {
      var n := |records| - 1;
      assert forall i | 0 <= i < n :: records[..n][i] == records[i];
      TopBelow(cs, records[..n], prefix);
      assert Passed(cs, records[n].number);
    }
  }

  lemma NothingToAdvanceIn(cs: seq<Counter>, f: Field)
    requires OneRowPerPrefix(cs) && AllPassed(cs, f)
    ensures Advanced(cs, f) == cs
  {
    hide Top, Issued, Advanced;
    AdvancedAt(cs, f);
    forall i | 0 <= i < |cs|
      ensures Advanced(cs, f)[i] == cs[i]
    {
      FurthestIsTheRow(cs, i);
      TopBelow(cs, f.records, cs[i].prefix);
    }
  }

  /** On counters that have passed everything, pass 3 does nothing. */
  lemma {:induction false} NothingToAdvance(cs: seq<Counter>, fields: seq<Field>)
    requires OneRowPerPrefix(cs) && forall i | 0 <= i < |fields| :: AllPassed(cs, fields[i])
    ensures AdvancedAll(cs, fields) == cs
  {
    if fields != [] {
      var n := |fields| - 1;
      forall i | 0 <= i < n
        ensures AllPassed(cs, fields[..n][i])
      {
        assert AllPassed(cs, fields[i]);
      }
      NothingToAdvance(cs, fields[..n]);
      NothingToAdvanceIn(cs, fields[n]);
    }
  }

  // ── One run, whatever the state ──────────────────────────────

  /** Whoever repeats a number has a series with a counter. */
  ghost predicate RepeatsHaveCounters(series: map<Key, Series>, cs: seq<Counter>, f: Field) {
    forall j {:trigger Repeats(f, j)} | 0 <= j < |f.records| && Repeats(f, j) ::
      (f.docType, f.records[j].channel) in series &&
          NextOf(cs, FullPrefix(series[(f.docType, f.records[j].channel)])) != -1
  }

  lemma WithNumbersIsThat(f: Field, numbers: seq<string>)
    requires |numbers| == |f.records|
    ensures NumbersDistinct(WithNumbers(f, numbers)) <==> Distinct(numbers)
    ensures NumbersOf(WithNumbers(f, numbers)) == Held(numbers)
  {
    var g := WithNumbers(f, numbers);
    assert forall i | 0 <= i < |numbers| :: g.records[i].number == numbers[i];
    forall x | x in Held(numbers)
      ensures x in NumbersOf(g)
    {
      var i :| 0 <= i < |numbers| && numbers[i] == x;
      assert g.records[i] in g.records;
    }
  }

  lemma RenumberedField(series: map<Key, Series>, cs: seq<Counter>, f: Field)
    requires OneRowPerPrefix(cs) && Renumber(series, cs, f, |f.records|).Ok?
    ensures
      var p := Renumber(series, cs, f, |f.records|).value;
      && |p.numbers| == |f.records|
      && (p.clash <==> !NumbersDistinct(WithNumbers(f, p.numbers)))
      && RepeatsHaveCounters(series, p.counters, WithNumbers(f, p.numbers))
  {
    RenumberLeaves(series, cs, f, |f.records|);
    var p := Renumber(series, cs, f, |f.records|).value;
    WithNumbersIsThat(f, p.numbers);
    var g := WithNumbers(f, p.numbers);
    forall j | 0 <= j < |g.records| && Repeats(g, j)
      ensures (g.docType, g.records[j].channel) in series &&
          NextOf(p.counters, FullPrefix(series[(g.docType, g.records[j].channel)])) != -1
    {
      var i :| 0 <= i < j && g.records[i].number == g.records[j].number;
      assert p.numbers[i] == p.numbers[j];
    }
  }

  lemma {:induction false} RenumberFieldsLeaves(r: Registry, cs: seq<Counter>, n: nat)
    requires OneRowPerPrefix(cs) && n <= |r.fields| && RenumberFields(r, cs, n).Ok?
    ensures
      var p := RenumberFields(r, cs, n).value;
      && |p.fields| == n && OneRowPerPrefix(p.counters)
      && (p.clash <==> exists i :: 0 <= i < n && !NumbersDistinct(p.fields[i]))
      && (forall i | 0 <= i < n :: RepeatsHaveCounters(r.series, p.counters, p.fields[i]))
  {
    if n > 0 {
      RenumberFieldsLeaves(r, cs, n - 1);
      var before, f := RenumberFields(r, cs, n - 1).value, r.fields[n - 1];
      RenumberLeaves(r.series, before.counters, f, |f.records|);
      RenumberedField(r.series, before.counters, f);
      var q, p := Renumber(r.series, before.counters, f, |f.records|).value, RenumberFields(r, cs, n).value;
      var last := WithNumbers(f, q.numbers);
      assert p.fields == before.fields + [last];
      forall i | 0 <= i < n
        ensures RepeatsHaveCounters(r.series, p.counters, p.fields[i])
      {
        if i < n - 1 {
          assert p.fields[i] == before.fields[i];
        }
      }
      if p.clash {
        if before.clash {
          var i :| 0 <= i < n - 1 && !NumbersDistinct(before.fields[i]);
          assert p.fields[i] == before.fields[i];
        } else {
          assert p.fields[n - 1] == last;
        }
      }
      if i :| 0 <= i < n && !NumbersDistinct(p.fields[i]) {
        if i < n - 1 {
          assert p.fields[i] == before.fields[i];
        }
      }
    }
  }

  /** What one run leaves behind in any case: one row per prefix, every counter past every
      number issued under its prefix, and - if it clashed - repeats only where a counter is. */
  ghost predicate Settled(r: Registry) {
    && OneRowPerPrefix(r.counters)
    && (forall i | 0 <= i < |r.fields| :: AllPassed(r.counters, r.fields[i]))
    && (forall i | 0 <= i < |r.fields| :: RepeatsHaveCounters(r.series, r.counters, r.fields[i]))
  }

  lemma OneRunSettles(r: Registry)
    requires Repair(r).Ok?
    ensures
      var (after, clash) := Repair(r).value;
      Settled(after) && (clash <==> exists i :: 0 <= i < |after.fields| && !NumbersDistinct(after.fields[i]))
  {
    MergedStandsFurthest(r.counters);
    RenumberFieldsLeaves(r, Merged(r.counters), |r.fields|);
    var p := RenumberFields(r, Merged(r.counters), |r.fields|).value;
    AdvancedAllPasses(p.counters, p.fields);
    var later := AdvancedAll(p.counters, p.fields);
    forall i | 0 <= i < |p.fields|
      ensures RepeatsHaveCounters(r.series, later, p.fields[i])
    {
    }
  }

  // ── One run from counters that are ahead ─────────────────────

  function AllNumbers(fields: seq<Field>): set<string> {
    set f, x | f in fields && x in NumbersOf(f) :: x
  }

  /** What one run does to a field then. */
  ghost predicate Reissued(f: Field, g: Field, known: set<string>) {
    && g.docType == f.docType && |g.records| == |f.records|
    && NumbersDistinct(g)
    && forall i {:trigger Repeats(f, i)} | 0 <= i < |f.records| ::
         && g.records[i].channel == f.records[i].channel
         && if Repeats(f, i) then g.records[i].number !in known else g.records[i].number == f.records[i].number
  }

  lemma HealthyField(series: map<Key, Series>, cs: seq<Counter>, f: Field, known: set<string>, drawn: set<Series>)
    requires OneRowPerPrefix(cs) && Renumber(series, cs, f, |f.records|).Ok?
    requires NumbersOf(f) <= known && RepeatsDrawFrom(series, f, drawn) && AllDrawClear(cs, drawn, known)
    ensures
      var p := Renumber(series, cs, f, |f.records|).value;
      && |p.numbers| == |f.records| && !p.clash && OneRowPerPrefix(p.counters)
      && Reissued(f, WithNumbers(f, p.numbers), known)
      && AllDrawClear(p.counters, drawn, known + NumbersOf(WithNumbers(f, p.numbers)))
  {
    HealthyRenumber(series, cs, f, |f.records|, known, drawn);
    var p := Renumber(series, cs, f, |f.records|).value;
    WithNumbersIsThat(f, p.numbers);
  }

  ghost predicate HealthyPass(r: Registry, p: Pass, n: nat, known: set<string>, drawn: set<Series>)
    requires n <= |r.fields|
  {
    && |p.fields| == n && !p.clash && OneRowPerPrefix(p.counters)
    && (forall i | 0 <= i < n :: Reissued(r.fields[i], p.fields[i], known))
    && AllDrawClear(p.counters, drawn, known + AllNumbers(p.fields))
  }

  lemma ReissuedFromLess(f: Field, g: Field, known: set<string>, more: set<string>)
    requires Reissued(f, g, known + more)
    ensures Reissued(f, g, known)
  {
    forall i | 0 <= i < |f.records|
      ensures g.records[i].channel == f.records[i].channel
      ensures if Repeats(f, i) then g.records[i].number !in known else g.records[i].number == f.records[i].number
    {
      var repeated := Repeats(f, i);
    }
  }

  lemma {:induction false} HealthyFields(r: Registry, cs: seq<Counter>, n: nat, known: set<string>, drawn: set<Series>)
    requires OneRowPerPrefix(cs) && n <= |r.fields| && RenumberFields(r, cs, n).Ok?
    requires AllNumbers(r.fields) <= known && AllDrawClear(cs, drawn, known)
    requires forall i | 0 <= i < |r.fields| :: RepeatsDrawFrom(r.series, r.fields[i], drawn)
    ensures HealthyPass(r, RenumberFields(r, cs, n).value, n, known, drawn)
  {
    hide Issued, Draw;
    if n == 0 {
      assert known + AllNumbers([]) == known;
    } else {
      HealthyFields(r, cs, n - 1, known, drawn);
      var before, f := RenumberFields(r, cs, n - 1).value, r.fields[n - 1];
      var seen := known + AllNumbers(before.fields);
      assert f in r.fields;
      assert NumbersOf(f) <= AllNumbers(r.fields);
      HealthyField(r.series, before.counters, f, seen, drawn);
      var q := Renumber(r.series, before.counters, f, |f.records|).value;
      var g := WithNumbers(f, q.numbers);
      ReissuedFromLess(f, g, known, AllNumbers(before.fields));
      assert seen + NumbersOf(g) == known + AllNumbers(before.fields + [g]);
    }
  }

  /** One run then leaves nothing to do. */
  lemma HealthyRepair(r: Registry, drawn: set<Series>)
    requires Repair(r).Ok? && AllDrawClear(Merged(r.counters), drawn, AllNumbers(r.fields))
    requires forall i | 0 <= i < |r.fields| :: RepeatsDrawFrom(r.series, r.fields[i], drawn)
    ensures
      var (after, clash) := Repair(r).value;
      && !clash && Clean(after) && |after.fields| == |r.fields|
      && forall i | 0 <= i < |r.fields| :: Reissued(r.fields[i], after.fields[i], AllNumbers(r.fields))
  {
    MergedStandsFurthest(r.counters);
    HealthyFields(r, Merged(r.counters), |r.fields|, AllNumbers(r.fields), drawn);
    OneRunSettles(r);
  }

  // ── Main results ─────────────────────────────────────────────

  function FirstNumbers(f: Field, n: nat): (numbers: seq<string>)
    requires n <= |f.records|
    ensures |numbers| == n && forall i | 0 <= i < n :: numbers[i] == f.records[i].number
  {
    if n == 0 then [] else FirstNumbers(f, n - 1) + [f.records[n - 1].number]
  }

  lemma {:induction false} NothingToRenumberIn(series: map<Key, Series>, cs: seq<Counter>, f: Field, n: nat)
    requires n <= |f.records| && NumbersDistinct(f)
    ensures Renumber(series, cs, f, n) == Ok(Progress(cs, FirstNumbers(f, n), false))
  {
    if n > 0 {
      NothingToRenumberIn(series, cs, f, n - 1);
      assert f.records[n - 1].number !in FirstNumbers(f, n - 1);
    }
  }

  lemma {:induction false} NothingToRenumber(r: Registry, cs: seq<Counter>, n: nat)
    requires n <= |r.fields| && forall i | 0 <= i < |r.fields| :: NumbersDistinct(r.fields[i])
    ensures RenumberFields(r, cs, n) == Ok(Pass(cs, r.fields[..n], false))
  {
    if n > 0 {
      NothingToRenumber(r, cs, n - 1);
      var f := r.fields[n - 1];
      NothingToRenumberIn(r.series, cs, f, |f.records|);
      var same := WithNumbers(f, FirstNumbers(f, |f.records|));
      assert same.records == f.records;
      assert r.fields[..n - 1] + [same] == r.fields[..n];
    } else {
      assert r.fields[..0] == [];
    }
  }

  /** On a healthy registry the repair is a no-op; in particular no draw can be refused. */
  lemma CleanIsLeftAlone(r: Registry)
    requires Clean(r)
    ensures Repair(r) == Ok((r, false))
  {
    NothingToMerge(r.counters);
    NothingToRenumber(r, r.counters, |r.fields|);
    assert r.fields[..|r.fields|] == r.fields;
    NothingToAdvance(r.counters, r.fields);
  }

  lemma SettledDrawsPast(r: Registry, t: Series)
    requires Settled(r) && NextOf(r.counters, FullPrefix(t)) != -1
    ensures DrawsPast(r.counters, t, AllNumbers(r.fields))
  {
    hide Issued, FullPrefix, RepeatsHaveCounters;
    NextRunningByPrefix(r.counters, t);
    forall x | x in AllNumbers(r.fields)
      ensures Passed(r.counters, x)
    {
      var f :| f in r.fields && x in NumbersOf(f);
      var i :| 0 <= i < |r.fields| && r.fields[i] == f;
      assert AllPassed(r.counters, r.fields[i]);
    }
  }

  /** The second run meets counters that have passed everything, for every series it draws. */
  lemma SettledIsHealthy(r: Registry) returns (drawn: set<Series>)
    requires Settled(r)
    ensures AllDrawClear(Merged(r.counters), drawn, AllNumbers(r.fields))
    ensures forall i | 0 <= i < |r.fields| :: RepeatsDrawFrom(r.series, r.fields[i], drawn)
  {
    hide ComesAgain, DrawsClear, RowFor, NextRunning, Issued;
    NothingToMerge(r.counters);
    drawn := set k | k in r.series && NextOf(r.counters, FullPrefix(r.series[k])) != -1 :: r.series[k];
    forall t | t in drawn
      ensures DrawsClear(r.counters, t, AllNumbers(r.fields))
    {
      SettledDrawsPast(r, t);
      PastIsClear(r.counters, t, AllNumbers(r.fields));
    }
    forall i | 0 <= i < |r.fields|
      ensures RepeatsDrawFrom(r.series, r.fields[i], drawn)
    {
      assert RepeatsHaveCounters(r.series, r.counters, r.fields[i]);
    }
  }

  /** Two runs always do it: after them no field holds a number twice, every counter is past
      every number issued under its prefix, and a third run changes nothing. */
  lemma TwoRunsConverge(r: Registry)
    requires Repair(r).Ok? && Repair(Repair(r).value.0).Ok?
    ensures
      var second := Repair(Repair(r).value.0).value.0;
      Clean(second) && Repair(second) == Ok((second, false))
  {
    OneRunSettles(r);
    var first := Repair(r).value.0;
    var drawn := SettledIsHealthy(first);
    HealthyRepair(first, drawn);
    CleanIsLeftAlone(Repair(first).value.0);
  }

  /** What the flag records: a second run would find something to do exactly when some number
      drawn was already seen in the field being renumbered. */
  lemma IdempotentExactlyWithoutClash(r: Registry)
    requires Repair(r).Ok?
    ensures
      var (first, clash) := Repair(r).value;
      (Repair(first).Ok? && Repair(first).value.0 == first) <==> !clash
  {
    var (first, clash) := Repair(r).value;
    OneRunSettles(r);
    if clash {
      if Repair(first).Ok? {
        TwoRunsConverge(r);
        var i :| 0 <= i < |first.fields| && !NumbersDistinct(first.fields[i]);
        assert first != Repair(first).value.0;
      }
    } else {
      CleanIsLeftAlone(first);
    }
  }

  /** Every series would draw past everything issued - the state a caller can check for. */
  ghost predicate CountersAhead(r: Registry) {
    forall k | k in r.series :: DrawsPast(r.counters, r.series[k], AllNumbers(r.fields))
  }

  /** From counters that are ahead, one run suffices: the earliest holder of each number
      keeps it, every later one gets a number no document had, and a second run changes
      nothing. */
  lemma OneRunFromCountersAhead(r: Registry)
    requires Repair(r).Ok? && CountersAhead(r)
    ensures
      var first := Repair(r).value.0;
      && Clean(first) && Repair(first) == Ok((first, false))
      && |first.fields| == |r.fields|
      && forall i | 0 <= i < |r.fields| :: Reissued(r.fields[i], first.fields[i], AllNumbers(r.fields))
  {
    var drawn := set k | k in r.series :: r.series[k];
    MergedStandsFurthest(r.counters);
    forall t | t in drawn
      ensures DrawsClear(Merged(r.counters), t, AllNumbers(r.fields))
    {
      NextRunningByPrefix(r.counters, t);
      NextRunningByPrefix(Merged(r.counters), t);
      assert NextOf(Merged(r.counters), FullPrefix(t)) == NextOf(r.counters, FullPrefix(t));
      PastIsClear(Merged(r.counters), t, AllNumbers(r.fields));
    }
    HealthyRepair(r, drawn);
    CleanIsLeftAlone(Repair(r).value.0);
  }

  /** A counter that lags behind: it stands at a number two documents carry. The run hands
      the later one the very number it had, and is not idempotent. */
  lemma LaggingCounterClashes(s: Series, k: nat, dt: DocType, ch: Channel)
    requires |Format(s, k)| <= MAX_LEN
    ensures
      var r := Registry(map[(dt, ch) := s], [Counter(FullPrefix(s), Width(s), k)],
        [Field(dt, [Document(ch, Format(s, k)), Document(ch, Format(s, k))])]);
      Repair(r).Ok? && Repair(r).value.1 &&
          !(Repair(Repair(r).value.0).Ok? && Repair(Repair(r).value.0).value.0 == Repair(r).value.0)
  {
    var c, d := Counter(FullPrefix(s), Width(s), k), Document(ch, Format(s, k));
    var f := Field(dt, [d, d]);
    var r := Registry(map[(dt, ch) := s], [c], [f]);
    assert r.counters[..0] == [];
    assert Merged([c]) == [c] by { assert [c][..0] == []; }
    assert Furthest([c], FullPrefix(s)) == 0;
    assert WithCounter([c], s) == [c] && Render(c) == Format(s, k);
    assert [c][0 := c.(next := k + 1)] == [c.(next := k + 1)];
    assert Draw([c], s) == Ok(([c.(next := k + 1)], Format(s, k)));
    assert d.number !in [] && [] + [d.number] == [d.number];
    assert d.number in [d.number] && [d.number] + [d.number] == [d.number, d.number];
    assert Renumber(r.series, [c], f, 0) == Ok(Progress([c], [], false));
    assert Renumber(r.series, [c], f, 1) == Ok(Progress([c], [d.number], false));
    assert Renumber(r.series, [c], f, 2) == Ok(Progress([c.(next := k + 1)], [d.number, d.number], true));
    assert RenumberFields(r, [c], 0).Ok?;
    assert RenumberFields(r, [c], 1).Ok? && RenumberFields(r, [c], 1).value.clash;
    IdempotentExactlyWithoutClash(r);
  }
}
