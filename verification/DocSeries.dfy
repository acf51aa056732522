/** Statutory document numbers: the format and its check, the counters behind it, and what
    every run of draws, edits and financial-year rolls keeps. Rule 46(b) of the Central
    Goods and Services Tax Rules, 2017 asks for at most 16 characters out of A-Z, 0-9, '-'
    and '/', consecutive and unique. */
module DocSeries {
  import opened Basics
  import opened Numerals

  const MAX_LEN := 16

  datatype DocType = MemoOut | MemoIn | OrderConfirmation | TaxInvoice

  datatype Channel = Online | Offline

  type Key = (DocType, Channel)

  datatype Series = Series(prefix: string, fyCode: string, startNo: int, digits: int)

  /** One ir.sequence row. */
  datatype Counter = Counter(prefix: string, padding: nat, next: nat)

  // ── Format ───────────────────────────────────────────────────

  /** Everything before the running number, with its slash. */
  function FullPrefix(s: Series): string {
    s.prefix + "/" + s.fyCode + "/"
  }

  function Width(s: Series): (w: nat)
    ensures w >= 1
  {
    Max(s.digits, 1)
  }

  function Format(s: Series, running: nat): string {
    FullPrefix(s) + Padded(running, Width(s))
  }

  function Render(c: Counter): string {
    c.prefix + Padded(c.next, c.padding)
  }

  predicate LegalChar(c: char) {
    'A' <= c <= 'Z' || '0' <= c <= '9' || c == '-' || c == '/'
  }

  /** Rule 46(b), for one number. */
  predicate Legal(number: string) {
    number != [] && |number| <= MAX_LEN && forall i | 0 <= i < |number| :: LegalChar(number[i])
  }

  /** _check_lgd_format: the basics, and then only the last number the series can reach. */
  predicate CheckFormat(s: Series) {
    && 1 <= s.digits <= 10
    && s.startNo >= 0
    && |s.fyCode| == 4 && AllDigits(s.fyCode)
    && Legal(Format(s, Pow10(s.digits) - 1))
  }

  lemma FormatsShareTheirLength(s: Series, n: nat)
    requires s.digits >= 1 && n < Pow10(s.digits)
    ensures |Format(s, n)| == |FullPrefix(s)| + s.digits
  {
    PaddedLength(n, s.digits);
  }

  lemma LegalByPrefix(s: Series, n: nat)
    ensures Legal(Format(s, n)) <==>
      |Format(s, n)| <= MAX_LEN && forall i | 0 <= i < |FullPrefix(s)| :: LegalChar(FullPrefix(s)[i])
  {
    var p, d := FullPrefix(s), Padded(n, Width(s));
    var number := Format(s, n);
    assert number == p + d;
    assert forall i | 0 <= i < |p| :: number[i] == p[i];
    assert forall i | |p| <= i < |number| :: number[i] == d[i - |p|];
  }

  /** Checking the last number alone decides the legality of every number the series can
      issue within its digits. */
  lemma LastNumberDecides(s: Series)
    requires s.digits >= 1
    ensures Legal(Format(s, Pow10(s.digits) - 1)) <==> forall n: nat | n < Pow10(s.digits) :: Legal(Format(s, n))
  {
    var last := Pow10(s.digits) - 1;
    if Legal(Format(s, last)) {
      forall n: nat | n < Pow10(s.digits)
        ensures Legal(Format(s, n))
      {
        FormatsShareTheirLength(s, n);
        FormatsShareTheirLength(s, last);
        LegalByPrefix(s, n);
        LegalByPrefix(s, last);
      }
    }
  }

  /** The check passes if and only if the parts are in bounds and every number the series has
      digits for is one to sixteen capitals, digits, dashes and slashes. */
  lemma CheckPassesExactlyWhen(s: Series)
    ensures CheckFormat(s) <==>
      && 1 <= s.digits <= 10 && s.startNo >= 0
      && |s.fyCode| == 4 && (forall i | 0 <= i < 4 :: '0' <= s.fyCode[i] <= '9')
      && forall n: nat | n < Pow10(s.digits) ::
           var number := Format(s, n);
           && 1 <= |number| <= 16
           && forall i | 0 <= i < |number| ::
                'A' <= number[i] <= 'Z' || '0' <= number[i] <= '9' || number[i] == '-' || number[i] == '/'
  {
    if s.digits >= 1 {
      LastNumberDecides(s);
    }
    hide Format;
  }

  // ── Financial years ──────────────────────────────────────────

  /** The calendar year the financial year of a date starts in: April to March. */
  function StartYear(year: nat, month: nat): int {
    if month >= 4 then year else year - 1
  }

  /** Two digits of the year the financial year starts in, two of the next. */
  function YearCode(start: int): string {
    Padded(start % 100, 2) + Padded((start + 1) % 100, 2)
  }

  function FyCode(year: nat, month: nat): string
    requires 1 <= month <= 12
  {
    YearCode(StartYear(year, month))
  }

  /** The code passes the check for an FY, and two dates share it exactly when their
      financial years are the same up to whole centuries. */
  lemma FyCodeNamesTheYear(y: nat, m: nat, y': nat, m': nat)
    requires 1 <= m <= 12 && 1 <= m' <= 12
    ensures |FyCode(y, m)| == 4 && AllDigits(FyCode(y, m))
    ensures FyCode(y, m) == FyCode(y', m') <==> StartYear(y, m) % 100 == StartYear(y', m') % 100
  {
    YearCodeShape(StartYear(y, m));
    YearCodesDiffer(StartYear(y, m), StartYear(y', m'));
  }

  /** The twelve months from April on share a code, which reads as the two years it spans; the next
      April begins another. */
  lemma YearRunsFromAprilToMarch(y: nat, m: nat)
    requires 1 <= m <= 12
    ensures FyCode(if m >= 4 then y else y + 1, m) == FyCode(y, 4) != FyCode(y + 1, 4)
    ensures
      var code := FyCode(y, 4);
      |code| == 4 && AllDigits(code) && Value(code[..2]) == y % 100 && Value(code[2..]) == (y + 1) % 100
  {
    YearCodeShape(y);
    YearCodesDiffer(y, y + 1);
    TwoDigits(y % 100);
    TwoDigits((y + 1) % 100);
    var first, second := Padded(y % 100, 2), Padded((y + 1) % 100, 2);
    assert (first + second)[..2] == first && (first + second)[2..] == second;
    assert y % 100 != (y + 1) % 100;
  }

  lemma YearCodeShape(a: int)
    ensures |YearCode(a)| == 4 && AllDigits(YearCode(a))
  {
    TwoDigits(a % 100);
    TwoDigits((a + 1) % 100);
  }

  lemma YearCodesDiffer(a: int, b: int)
    ensures YearCode(a) == YearCode(b) <==> a % 100 == b % 100
  {
    TwoDigits(a % 100);
    TwoDigits(b % 100);
    if YearCode(a) == YearCode(b) {
      SameFrontHalves(Padded(a % 100, 2), Padded((a + 1) % 100, 2), Padded(b % 100, 2), Padded((b + 1) % 100, 2));
    }
    if a % 100 == b % 100 {
      NextYearsAgree(a, b);
    }
  }

  lemma NextYearsAgree(a: int, b: int)
    requires a % 100 == b % 100
    ensures (a + 1) % 100 == (b + 1) % 100
  {
    assert a + 1 == b + 1 + 100 * (a / 100 - b / 100);
  }

  lemma TwoDigits(n: nat)
    requires n < 100
    ensures |Padded(n, 2)| == 2 && Value(Padded(n, 2)) == n
  {
    assert Pow10(2) == 10 * Pow10(1) && Pow10(1) == 10 * Pow10(0);
    PaddedLength(n, 2);
    PaddedReadsBack(n, 2);
  }

  lemma SameFrontHalves(p: string, q: string, r: string, s: string)
    requires p + q == r + s && |p| == |r|
    ensures p == r
  {
    assert p == (p + q)[..|p|] == (r + s)[..|r|] == r;
  }

  // ── Counters ─────────────────────────────────────────────────

  /** Of the rows with this prefix, the one furthest ahead, of several as far the first; -1 when
      there is none. */
  function Furthest(cs: seq<Counter>, prefix: string): (k: int)
    ensures -1 <= k < |cs|
    ensures k >= 0 ==>
        cs[k].prefix == prefix && forall i | 0 <= i < |cs| && cs[i].prefix == prefix :: cs[i].next <= cs[k].next
    ensures k == -1 ==> forall i | 0 <= i < |cs| :: cs[i].prefix != prefix
  {
    if cs == [] then -1
    else
      var n := |cs| - 1;
      var k := Furthest(cs[..n], prefix);
      if cs[n].prefix == prefix && (k == -1 || cs[n].next > cs[k].next) then n else k
  }

  /** Of several rows equally far ahead, the first. */
  lemma {:induction false} FurthestIsFirst(cs: seq<Counter>, prefix: string, i: nat)
    requires i < Furthest(cs, prefix) && cs[i].prefix == prefix
    ensures cs[i].next < cs[Furthest(cs, prefix)].next
  {
    var n := |cs| - 1;
    if Furthest(cs, prefix) != n {
      FurthestIsFirst(cs[..n], prefix, i);
    }
  }

  /** The row a series would create: numbering starts at Start No, never below one. */
  function NewCounter(s: Series): Counter {
    Counter(FullPrefix(s), Width(s), Max(s.startNo, 1))
  }

  /** _lgd_sequence: the rows, with one created when the series has none. */
  function WithCounter(cs: seq<Counter>, s: Series): (r: seq<Counter>)
    ensures Furthest(r, FullPrefix(s)) >= 0
  {
    if Furthest(cs, FullPrefix(s)) >= 0 then cs else
      var r := cs + [NewCounter(s)];
      assert r[|cs|].prefix == FullPrefix(s);
      r
  }

  /** next_by_id on that row, refused when the number has outgrown the rule: the refusal
      undoes the whole transaction, so nothing is kept of it. */
  function Draw(cs: seq<Counter>, s: Series): Result<(seq<Counter>, string)> {
    var rows := WithCounter(cs, s);
    var k := Furthest(rows, FullPrefix(s));
    var number := Render(rows[k]);
    if |number| > MAX_LEN then Err
    else Ok((rows[k := rows[k].(next := rows[k].next + 1)], number))
  }

  ghost predicate OneRowPerPrefix(cs: seq<Counter>) {
    forall i, j | 0 <= i < j < |cs| :: cs[i].prefix != cs[j].prefix
  }

  /** The row a series draws from, or would create. */
  function RowFor(cs: seq<Counter>, s: Series): (c: Counter)
    ensures c.prefix == FullPrefix(s)
  {
    var rows := WithCounter(cs, s);
    rows[Furthest(rows, FullPrefix(s))]
  }

  /** The running number a series' next draw will get. */
  function NextRunning(cs: seq<Counter>, s: Series): nat {
    RowFor(cs, s).next
  }

  lemma FullPrefixSplits(s: Series, n: nat, width: nat)
    ensures Issued(FullPrefix(s) + Padded(n, width)) == Some((FullPrefix(s), n))
  {
    var head := s.prefix + "/" + s.fyCode;
    assert FullPrefix(s) == head + "/";
    SplitUndoesFormat(head, n, width);
  }

  /** Where the counter of a prefix stands; -1 when there is none. */
  function NextOf(cs: seq<Counter>, prefix: string): int {
    var k := Furthest(cs, prefix);
    if k == -1 then -1 else cs[k].next
  }

  lemma FurthestIsTheRow(cs: seq<Counter>, i: nat)
    requires OneRowPerPrefix(cs) && i < |cs|
    ensures Furthest(cs, cs[i].prefix) == i
  {
  }

  lemma NewRowLeavesOthers(cs: seq<Counter>, c: Counter, prefix: string)
    requires OneRowPerPrefix(cs) && Furthest(cs, c.prefix) == -1
    ensures OneRowPerPrefix(cs + [c])
    ensures NextOf(cs + [c], prefix) == if prefix == c.prefix then c.next else NextOf(cs, prefix)
  {
    assert (cs + [c])[..|cs|] == cs;
  }

  lemma MovedRowLeavesOthers(cs: seq<Counter>, k: nat, next: nat, prefix: string)
    requires OneRowPerPrefix(cs) && k < |cs|
    ensures OneRowPerPrefix(cs[k := cs[k].(next := next)])
    ensures NextOf(cs[k := cs[k].(next := next)], prefix) == if prefix == cs[k].prefix then next else NextOf(cs, prefix)
  {
    var moved := cs[k := cs[k].(next := next)];
    assert forall i | 0 <= i < |cs| :: moved[i].prefix == cs[i].prefix;
    var i := Furthest(cs, prefix);
    if i >= 0 {
      FurthestIsTheRow(moved, i);
    }
    FurthestIsTheRow(cs, k);
  }

  /** A row created for a series stands where its numbering starts; no other row is touched. */
  lemma WithCounterStands(cs: seq<Counter>, s: Series, prefix: string)
    requires OneRowPerPrefix(cs)
    ensures OneRowPerPrefix(WithCounter(cs, s))
    ensures NextOf(WithCounter(cs, s), prefix) == if prefix == FullPrefix(s) then NextRunning(cs, s)
        else NextOf(cs, prefix)
  {
    hide FullPrefix;
    if Furthest(cs, FullPrefix(s)) == -1 {
      NewRowLeavesOthers(cs, NewCounter(s), prefix);
    }
  }

  /** A draw hands out the next running number under the series' own prefix, moves that one
      counter past it and leaves every other counter alone. */
  lemma DrawAdvances(cs: seq<Counter>, s: Series)
    requires OneRowPerPrefix(cs) && Draw(cs, s).Ok?
    ensures
      var (rows, number) := Draw(cs, s).value;
      && OneRowPerPrefix(rows)
      && Issued(number) == Some((FullPrefix(s), NextRunning(cs, s)))
      && |number| <= MAX_LEN
      && forall p :: NextOf(rows, p) == if p == FullPrefix(s) then NextRunning(cs, s) + 1 else NextOf(cs, p)
  {
    hide Issued, Padded, FullPrefix, WithCounter;
    var before := WithCounter(cs, s);
    var k := Furthest(before, FullPrefix(s));
    var (rows, number) := Draw(cs, s).value;
    FullPrefixSplits(s, before[k].next, before[k].padding);
    WithCounterStands(cs, s, "");
    MovedRowLeavesOthers(before, k, before[k].next + 1, "");
    forall p
      ensures NextOf(rows, p) == if p == FullPrefix(s) then NextRunning(cs, s) + 1 else NextOf(cs, p)
    {
      WithCounterStands(cs, s, p);
      MovedRowLeavesOthers(before, k, before[k].next + 1, p);
    }
  }
}
