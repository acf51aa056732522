/** The general ledger's running balances (accounting_pdf_reports/report/
    report_general_ledger.py): an opening row per account, then the movements of all accounts
    as the query interleaves them. */
module GeneralLedger {
  /** balance is the query's own debit less credit until the report adds what came before. */
  datatype Row = Row(account: nat, debit: real, credit: real, balance: real)

  datatype Account = Account(account: nat, lines: seq<Row>, debit: real, credit: real, balance: real)

  /** The rows of one account, in order. */
  function Of(rows: seq<Row>, account: nat): seq<Row> {
    if rows == [] then []
    else
      var n := |rows| - 1;
      Of(rows[..n], account) + if rows[n].account == account then [rows[n]] else []
  }

  function Net(rows: seq<Row>): real {
    if rows == [] then 0.0 else Net(rows[..|rows| - 1]) + rows[|rows| - 1].debit - rows[|rows| - 1].credit
  }

  function Debits(rows: seq<Row>): real {
    if rows == [] then 0.0 else Debits(rows[..|rows| - 1]) + rows[|rows| - 1].debit
  }

  function Credits(rows: seq<Row>): real {
    if rows == [] then 0.0 else Credits(rows[..|rows| - 1]) + rows[|rows| - 1].credit
  }

  predicate FromQuery(rows: seq<Row>) {
    forall i | 0 <= i < |rows| :: rows[i].balance == rows[i].debit - rows[i].credit
  }

  function NetTo(rows: seq<Row>, n: nat): real
    requires n <= |rows|
  {
    Net(rows[..n])
  }

  lemma NetToPrefix(rows: seq<Row>, more: seq<Row>)
    ensures forall n | 0 <= n <= |rows| :: NetTo(rows + more, n) == NetTo(rows, n)
  {
    forall n | 0 <= n <= |rows|
      ensures NetTo(rows + more, n) == NetTo(rows, n)
    {
      assert (rows + more)[..n] == rows[..n];
    }
  }

  /** Each row as queried but for its balance, which runs: everything up to it and it. */
  predicate Runs(lines: seq<Row>, queried: seq<Row>) {
    && |lines| == |queried|
    && forall i | 0 <= i < |lines| :: lines[i] == queried[i].(balance := NetTo(queried, i + 1))
  }

  lemma {:induction false} NetIsDebitsLessCredits(rows: seq<Row>)
    ensures Net(rows) == Debits(rows) - Credits(rows)
  {
    if rows != [] {
      NetIsDebitsLessCredits(rows[..|rows| - 1]);
    }
  }

  lemma {:induction false} RunningKeepsNet(lines: seq<Row>, queried: seq<Row>)
    requires Runs(lines, queried)
    ensures Net(lines) == Net(queried)
  {
    if lines != [] {
      var n := |lines| - 1;
      assert queried == queried[..n] + queried[n..];
      NetToPrefix(queried[..n], queried[n..]);
      RunningKeepsNet(lines[..n], queried[..n]);
      assert lines[n] == queried[n].(balance := NetTo(queried, n + 1));
      hide NetTo;
    }
  }

  /** The account's last balance is its total debit less its total credit. */
  lemma LastBalanceIsTheTotal(lines: seq<Row>, queried: seq<Row>)
    requires Runs(lines, queried) && lines != []
    ensures lines[|lines| - 1].balance == Debits(lines) - Credits(lines)
  {
    assert queried[..|queried|] == queried;
    RunningKeepsNet(lines, queried);
    assert lines[|lines| - 1].balance == NetTo(queried, |queried|);
    NetIsDebitsLessCredits(lines);
  }

  // ── The program ──────────────────────────────────────────────

  ghost predicate DealtOut(lines: map<nat, seq<Row>>, accounts: set<nat>, queried: seq<Row>) {
    && lines.Keys == accounts
    && forall a | a in accounts :: Runs(lines[a], Of(queried, a))
  }

  lemma OneMoreDealt(lines: map<nat, seq<Row>>, accounts: set<nat>, queried: seq<Row>, row: Row, running: Row)
    requires DealtOut(lines, accounts, queried) && row.account in accounts && row.balance == row.debit - row.credit
    requires running == row.(balance := row.balance + Net(lines[row.account]))
    ensures DealtOut(lines[row.account := lines[row.account] + [running]], accounts, queried + [row])
  {
    hide Runs, Net;
    RunningKeepsNet(lines[row.account], Of(queried, row.account));
    RunsOn(lines[row.account], Of(queried, row.account), row, running);
    forall a | a in accounts
      ensures Of(queried + [row], a) == Of(queried, a) + if row.account == a then [row] else []
    {
    }
    assert forall a | a in accounts && a != row.account :: Of(queried, a) + [] == Of(queried, a);
  }

  lemma RunsOn(listed: seq<Row>, queried: seq<Row>, row: Row, running: Row)
    requires Runs(listed, queried) && row.balance == row.debit - row.credit
    requires running == row.(balance := row.balance + Net(queried))
    ensures Runs(listed + [running], queried + [row])
  {
    var more := queried + [row];
    NetToPrefix(queried, [row]);
    assert more[..|more|] == more && more[..|queried|] == queried;
    assert NetTo(more, |more|) == Net(queried) + row.debit - row.credit;
    hide Net, NetTo;
  }

  /** What the account already lists, counted up. */
  method Listed(rows: seq<Row>) returns (balance: real)
    ensures balance == Net(rows)
  {
    balance := 0.0;
    for k := 0 to |rows|
      invariant balance == Net(rows[..k])
    {
      assert rows[..k + 1][..k] == rows[..k];
      balance := balance + (rows[k].debit - rows[k].credit);
    }
    assert rows[..|rows|] == rows;
  }

  lemma {:induction false} NoneYet(openings: seq<Row>, account: nat)
    requires forall i | 0 <= i < |openings| :: openings[i].account != account
    ensures Of(openings, account) == []
  {
    if openings != [] {
      NoneYet(openings[..|openings| - 1], account);
    }
  }

  /** The opening rows, at most one an account. */
  method OpeningRows(openings: seq<Row>, accounts: set<nat>) returns (lines: map<nat, seq<Row>>)
    requires FromQuery(openings)
    requires forall i | 0 <= i < |openings| :: openings[i].account in accounts
    requires forall i, j | 0 <= i < j < |openings| :: openings[i].account != openings[j].account
    ensures lines.Keys == accounts && DealtOut(lines, accounts, openings)
  {
    hide Of, Net;
    lines := map a | a in accounts :: [];
    assert forall a :: Of([], a) == [] by {
      forall a ensures Of([], a) == [] { NoneYet([], a); }
    }
    for i := 0 to |openings|
      invariant DealtOut(lines, accounts, openings[..i])
    {
      var row := openings[i];
      NoneYet(openings[..i], row.account);
      assert lines[row.account] == [];
      NetOfNothing();
      OneMoreDealt(lines, accounts, openings[..i], row, row);
      assert openings[..i + 1] == openings[..i] + [row];
      lines := lines[row.account := lines[row.account] + [row]];
    }
    assert openings[..|openings|] == openings;
  }

  lemma NetOfNothing()
    ensures Net([]) == 0.0
  {
  }

  /** _get_account_move_entry: the movements dealt out to their accounts, each balance counted
      up from what the account already lists. */
  method RunningBalances(openings: seq<Row>, movements: seq<Row>, accounts: set<nat>)
    returns (lines: map<nat, seq<Row>>)
    requires FromQuery(openings) && FromQuery(movements)
    requires forall i | 0 <= i < |openings| :: openings[i].account in accounts
    requires forall i, j | 0 <= i < j < |openings| :: openings[i].account != openings[j].account
    requires forall i | 0 <= i < |movements| :: movements[i].account in accounts
    ensures DealtOut(lines, accounts, openings + movements)
  {
    hide DealtOut;
    lines := OpeningRows(openings, accounts);
    assert openings + movements[..0] == openings;
    for i := 0 to |movements|
      invariant lines.Keys == accounts
      invariant DealtOut(lines, accounts, openings + movements[..i])
    {
      var row := movements[i];
      var balance := Listed(lines[row.account]);
      var running := row.(balance := row.balance + balance);
      OneMoreDealt(lines, accounts, openings + movements[..i], row, running);
      assert openings + movements[..i + 1] == (openings + movements[..i]) + [row];
      lines := lines[row.account := lines[row.account] + [running]];
    }
    assert movements[..|movements|] == movements;
  }

  /** One account's line of the report. */
  method AccountTotals(account: nat, lines: seq<Row>, ghost queried: seq<Row>) returns (r: Account)
    requires Runs(lines, queried)
    ensures r.account == account && r.lines == lines
    ensures r.debit == Debits(lines) && r.credit == Credits(lines) && r.balance == r.debit - r.credit
  {
    var debit, credit, balance := 0.0, 0.0, 0.0;
    for i := 0 to |lines|
      invariant debit == Debits(lines[..i]) && credit == Credits(lines[..i])
      invariant balance == if i == 0 then 0.0 else lines[i - 1].balance
    {
      assert lines[..i + 1][..i] == lines[..i];
      debit, credit, balance := debit + lines[i].debit, credit + lines[i].credit, lines[i].balance;
    }
    assert lines[..|lines|] == lines;
    if lines != [] {
      LastBalanceIsTheTotal(lines, queried);
    }
    r := Account(account, lines, debit, credit, balance);
  }
}
