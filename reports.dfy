/**
 * The reporting engine of accounting/financial_reports.py: the income
 * statement, the balance sheet and the trial balance in its three modes.
 *
 * Each report walks a list of accounts in code order, asks the balance
 * engine for each account's figures and accumulates line items and running
 * totals. The chart of accounts is passed in as a sequence already ordered
 * by code; the queryset filters on it are the functions ActiveAccounts and
 * ActiveOfType. Every loop is a method proved equal to a specification
 * function that builds the same document by recursion; the properties of
 * the documents are proved about those functions in ReportTheorems.
 */
module FinancialReports {
  import opened Wrappers
  import opened Ledger
  import opened BalanceEngine

  /** Accounting_Account.objects.filter(is_active=True), in chart order. */
  function ActiveAccounts(chart: seq<Account>): (r: seq<Account>)
    ensures forall a :: a in r <==> a in chart && a.isActive
  {
    if chart == [] then []
    else
      var n := |chart| - 1;
      assert chart == chart[..n] + [chart[n]];
      ActiveAccounts(chart[..n]) + (if chart[n].isActive then [chart[n]] else [])
  }

  /** objects.filter(category__category_type=t, is_active=True), in chart order. */
  function ActiveOfType(chart: seq<Account>, t: CategoryType): (r: seq<Account>)
    ensures forall a :: a in r <==> a in chart && a.isActive && a.category == Some(t)
    ensures forall k :: 0 <= k < |r| ==> r[k].category == Some(t)
    ensures AllCategorised(r)
  {
    if chart == [] then []
    else
      var n := |chart| - 1;
      assert chart == chart[..n] + [chart[n]];
      var a := chart[n];
      ActiveOfType(chart[..n], t) + (if a.isActive && a.category == Some(t) then [a] else [])
  }

  predicate AllCategorised(accounts: seq<Account>) {
    forall k :: 0 <= k < |accounts| ==> accounts[k].category.Some?
  }

  /** The position of the first account without a category, the one a report loop fails on. */
  function FirstUncategorised(accounts: seq<Account>): (r: Option<nat>)
    ensures r.None? <==> AllCategorised(accounts)
    ensures r.Some? ==>
      r.value < |accounts| && accounts[r.value].category.None? && AllCategorised(accounts[..r.value])
  {
    if accounts == [] then None
    else if accounts[0].category.None? then Some(0)
    else match FirstUncategorised(accounts[1..])
      case None => None
      case Some(k) => Some(k + 1)
  }

  /** A loop that has met only categorised accounts before position i fails at i. */
  lemma {:induction false} FirstUncategorisedAt(accounts: seq<Account>, i: nat)
    requires i < |accounts| && AllCategorised(accounts[..i]) && accounts[i].category.None?
    ensures FirstUncategorised(accounts) == Some(i)
  {
    if i > 0 {
      assert accounts[..i][0] == accounts[0];
      assert accounts[1..][..i - 1] == accounts[..i][1..];
      FirstUncategorisedAt(accounts[1..], i - 1);
    }
  }

  /** Extending a categorised prefix by a categorised account. */
  lemma PrefixStep(accounts: seq<Account>, i: nat)
    requires i < |accounts| && AllCategorised(accounts[..i]) && accounts[i].category.Some?
    ensures AllCategorised(accounts[..i + 1])
    ensures accounts[..i + 1][..i] == accounts[..i] && accounts[..i + 1][i] == accounts[i]
  {
  }

  /** The balance get_balance reports for an account that has a category. */
  function BalanceOf(a: Account, journal: seq<Entry>, from: Option<int>, to: Option<int>): int
    requires a.category.Some?
  {
    GetBalance(a, journal, from, to).value.balance
  }

  /** A report line: {'account': ..., 'amount' or 'balance': ...}. */
  datatype Line = Line(account: Account, amount: int)

  function Total(lines: seq<Line>): int {
    if lines == [] then 0 else Total(lines[..|lines| - 1]) + lines[|lines| - 1].amount
  }

  /** The total of two line lists one after the other is the sum of their totals. */
  lemma {:induction false} TotalAppend(xs: seq<Line>, ys: seq<Line>)
    ensures Total(xs + ys) == Total(xs) + Total(ys)
  {
    if ys != [] {
      var n := |ys| - 1;
      assert (xs + ys)[..|xs + ys| - 1] == xs + ys[..n];
      TotalAppend(xs, ys[..n]);
    } else {
      assert xs + ys == xs;
    }
  }

  /** The sum of the accounts' balances, zero balances included. */
  function TotalBalance(accounts: seq<Account>, journal: seq<Entry>, from: Option<int>, to: Option<int>): int
    requires AllCategorised(accounts)
  {
    if accounts == [] then 0
    else
      var n := |accounts| - 1;
      TotalBalance(accounts[..n], journal, from, to) + BalanceOf(accounts[n], journal, from, to)
  }

  // ---------------------------------------------------------------- income statement

  /** The income statement's lines: the accounts whose period balance is not zero. */
  function NonZeroLines(accounts: seq<Account>, journal: seq<Entry>, from: Option<int>, to: Option<int>): seq<Line>
    requires AllCategorised(accounts)
  {
    if accounts == [] then []
    else
      var n := |accounts| - 1;
      var b := BalanceOf(accounts[n], journal, from, to);
      NonZeroLines(accounts[..n], journal, from, to) + (if b != 0 then [Line(accounts[n], b)] else [])
  }

  datatype IncomeStatement = IncomeStatement(
    fromDate: Option<int>,
    toDate: Option<int>,
    accountingMethod: string,
    income: seq<Line>,
    totalIncome: int,
    expenses: seq<Line>,
    totalExpenses: int,
    netIncome: int)

  /** The document generate_income_statement returns. */
  function IncomeStatementOf(chart: seq<Account>, journal: seq<Entry>, from: Option<int>, to: Option<int>, basis: string): IncomeStatement {
    var income := NonZeroLines(ActiveOfType(chart, Income), journal, from, to);
    var expenses := NonZeroLines(ActiveOfType(chart, Expense), journal, from, to);
    IncomeStatement(from, to, basis, income, Total(income), expenses, Total(expenses), Total(income) - Total(expenses))
  }

  /** One more account extends the non-zero lines by its line, if any. */
  lemma NonZeroLinesStep(accounts: seq<Account>, i: nat, journal: seq<Entry>, from: Option<int>, to: Option<int>)
    requires i < |accounts| && AllCategorised(accounts)
    ensures AllCategorised(accounts[..i]) && AllCategorised(accounts[..i + 1])
    ensures var b := BalanceOf(accounts[i], journal, from, to);
      NonZeroLines(accounts[..i + 1], journal, from, to)
      == NonZeroLines(accounts[..i], journal, from, to) + (if b != 0 then [Line(accounts[i], b)] else [])
  {
    assert accounts[..i + 1][..i] == accounts[..i];
  }

  /**
   * One iteration of an income-statement loop: read the account's balance
   * for the window and list it with the running total when it is not zero.
   * The 'cash' and 'accrual' branches of the source make the same call.
   */
  method PushNonZeroLine(accounts: seq<Account>, i: nat, journal: seq<Entry>, from: Option<int>, to: Option<int>,
                         basis: string, lines: seq<Line>, total: int)
    returns (lines': seq<Line>, total': int)
    requires i < |accounts| && AllCategorised(accounts)
    requires lines == NonZeroLines(accounts[..i], journal, from, to) && total == Total(lines)
    ensures lines' == NonZeroLines(accounts[..i + 1], journal, from, to) && total' == Total(lines')
  {
    var account := accounts[i];
    var info: Result<BalanceInfo, LedgerError>;
    if basis == "cash" {
      info := GetPeriodBalance(account, journal, from, to);
    } else {
      info := GetPeriodBalance(account, journal, from, to);
    }
    var balance := info.value.balance;
    NonZeroLinesStep(accounts, i, journal, from, to);
    if balance != 0 {
      var line := Line(account, balance);
      TotalAppend(lines, [line]);
      lines', total' := lines + [line], total + balance;
    } else {
      lines', total' := lines, total;
    }
  }

  /**
   * One half of generate_income_statement: the active accounts of type t
   * with a non-zero balance for the window, and their running total.
   */
  method CollectNonZero(chart: seq<Account>, t: CategoryType, journal: seq<Entry>, from: Option<int>, to: Option<int>, basis: string)
    returns (lines: seq<Line>, total: int)
    ensures lines == NonZeroLines(ActiveOfType(chart, t), journal, from, to)
    ensures total == Total(lines)
  {
    var accounts := ActiveOfType(chart, t);
    lines, total := [], 0;
    var i := 0;
    while i < |accounts|
      invariant 0 <= i <= |accounts|
      invariant lines == NonZeroLines(accounts[..i], journal, from, to)
      invariant total == Total(lines)
    {
      lines, total := PushNonZeroLine(accounts, i, journal, from, to, basis, lines, total);
      i := i + 1;
    }
    assert accounts[..i] == accounts;
  }

  /** generate_income_statement. */
  method GenerateIncomeStatement(chart: seq<Account>, journal: seq<Entry>, from: Option<int>, to: Option<int>, basis: string)
    returns (r: IncomeStatement)
    ensures r == IncomeStatementOf(chart, journal, from, to, basis)
  {
    var incomeData, totalIncome := CollectNonZero(chart, Income, journal, from, to, basis);
    var expenseData, totalExpenses := CollectNonZero(chart, Expense, journal, from, to, basis);
    var netIncome := totalIncome - totalExpenses;
    r := IncomeStatement(from, to, basis, incomeData, totalIncome, expenseData, totalExpenses, netIncome);
  }

  // ---------------------------------------------------------------- balance sheet

  /** A balance-sheet section: every account with its as-of balance, zero included. */
  function BalanceLines(accounts: seq<Account>, journal: seq<Entry>, asOf: int): seq<Line>
    requires AllCategorised(accounts)
  {
    if accounts == [] then []
    else
      var n := |accounts| - 1;
      BalanceLines(accounts[..n], journal, asOf) + [Line(accounts[n], BalanceOf(accounts[n], journal, None, Some(asOf)))]
  }

  datatype BalanceSheet = BalanceSheet(
    asOfDate: int,
    assets: seq<Line>,
    totalAssets: int,
    liabilities: seq<Line>,
    totalLiabilities: int,
    equity: seq<Line>,
    totalEquity: int,
    netIncome: int,
    liabilitiesAndEquity: int)

  /** The document generate_balance_sheet returns. */
  function BalanceSheetOf(chart: seq<Account>, journal: seq<Entry>, asOf: int): BalanceSheet {
    var assets := BalanceLines(ActiveOfType(chart, Asset), journal, asOf);
    var liabilities := BalanceLines(ActiveOfType(chart, Liability), journal, asOf);
    var equity := BalanceLines(ActiveOfType(chart, Equity), journal, asOf);
    var netIncome := IncomeStatementOf(chart, journal, None, Some(asOf), "accrual").netIncome;
    var totalEquity := Total(equity) + netIncome;
    BalanceSheet(asOf, assets, Total(assets), liabilities, Total(liabilities), equity, totalEquity,
                 netIncome, Total(liabilities) + totalEquity)
  }

  /** One more account extends a balance-sheet section by its line. */
  lemma BalanceLinesStep(accounts: seq<Account>, i: nat, journal: seq<Entry>, asOf: int)
    requires i < |accounts| && AllCategorised(accounts)
    ensures AllCategorised(accounts[..i]) && AllCategorised(accounts[..i + 1])
    ensures BalanceLines(accounts[..i + 1], journal, asOf)
         == BalanceLines(accounts[..i], journal, asOf) + [Line(accounts[i], BalanceOf(accounts[i], journal, None, Some(asOf)))]
  {
    assert accounts[..i + 1][..i] == accounts[..i];
  }

  /** One iteration of a balance-sheet loop: list the account with its as-of balance. */
  method PushBalanceLine(accounts: seq<Account>, i: nat, journal: seq<Entry>, asOf: int, lines: seq<Line>, total: int)
    returns (lines': seq<Line>, total': int)
    requires i < |accounts| && AllCategorised(accounts)
    requires lines == BalanceLines(accounts[..i], journal, asOf) && total == Total(lines)
    ensures lines' == BalanceLines(accounts[..i + 1], journal, asOf) && total' == Total(lines')
  {
    var account := accounts[i];
    var balance := GetBalanceAsOf(account, journal, asOf).value.balance;
    BalanceLinesStep(accounts, i, journal, asOf);
    var line := Line(account, balance);
    TotalAppend(lines, [line]);
    lines', total' := lines + [line], total + balance;
  }

  /**
   * One section of generate_balance_sheet: the active accounts of type t,
   * each listed with its as-of balance, and their running total.
   */
  method CollectBalances(chart: seq<Account>, t: CategoryType, journal: seq<Entry>, asOf: int)
    returns (lines: seq<Line>, total: int)
    ensures lines == BalanceLines(ActiveOfType(chart, t), journal, asOf)
    ensures total == Total(lines)
  {
    var accounts := ActiveOfType(chart, t);
    lines, total := [], 0;
    var i := 0;
    while i < |accounts|
      invariant 0 <= i <= |accounts|
      invariant lines == BalanceLines(accounts[..i], journal, asOf)
      invariant total == Total(lines)
    {
      lines, total := PushBalanceLine(accounts, i, journal, asOf, lines, total);
      i := i + 1;
    }
    assert accounts[..i] == accounts;
  }

  /**
   * generate_balance_sheet: the three sections, then the net income of the
   * income statement from the beginning up to the date, added to equity.
   */
  method GenerateBalanceSheet(chart: seq<Account>, journal: seq<Entry>, asOf: int) returns (r: BalanceSheet)
    ensures r == BalanceSheetOf(chart, journal, asOf)
  {
    var assetsData, totalAssets := CollectBalances(chart, Asset, journal, asOf);
    var liabilitiesData, totalLiabilities := CollectBalances(chart, Liability, journal, asOf);
    var equityData, totalEquity := CollectBalances(chart, Equity, journal, asOf);
    var incomeStatement := GenerateIncomeStatement(chart, journal, None, Some(asOf), "accrual");
    var netIncome := incomeStatement.netIncome;
    totalEquity := totalEquity + netIncome;
    r := BalanceSheet(asOf, assetsData, totalAssets, liabilitiesData, totalLiabilities, equityData, totalEquity,
                      netIncome, totalLiabilities + totalEquity);
  }

  // ---------------------------------------------------------------- trial balance

  datatype TrialRow = TrialRow(account: Account, debits: int, credits: int)

  /** The 'type' of a trial balance with the dates it carries. */
  datatype TrialKind = AsOfKind(date: int) | PeriodKind(from: int, to: int) | AllTimeKind

  datatype TrialBalance = TrialBalance(kind: TrialKind, accounts: seq<TrialRow>, totalDebits: int, totalCredits: int)

  /**
   * The (debits, credits) cells of a balance: a positive balance goes to the
   * account's normal side, a negative one to the other side as its
   * magnitude.
   */
  function SideColumns(debitSide: bool, balance: int): (r: (int, int))
    ensures r.0 >= 0 && r.1 >= 0
    ensures r.0 == 0 || r.1 == 0
    ensures r.0 - r.1 == if debitSide then balance else -balance
  {
    if debitSide then
      (if balance > 0 then balance else 0, if balance < 0 then -balance else 0)
    else
      (if balance < 0 then -balance else 0, if balance > 0 then balance else 0)
  }

  /**
   * The as-of (to = Some(date)) or all-time (to = None) row of one account:
   * none for a zero balance, else the balance placed by SideColumns.
   */
  function BalanceRow(a: Account, journal: seq<Entry>, to: Option<int>): seq<TrialRow>
    requires a.category.Some?
  {
    var b := BalanceOf(a, journal, None, to);
    var cells := SideColumns(IsDebitSide(a.category.value), b);
    if b == 0 then [] else [TrialRow(a, cells.0, cells.1)]
  }

  /** The rows of the as-of and all-time modes. */
  function BalanceRows(accounts: seq<Account>, journal: seq<Entry>, to: Option<int>): seq<TrialRow>
    requires AllCategorised(accounts)
  {
    if accounts == [] then []
    else
      var n := |accounts| - 1;
      BalanceRows(accounts[..n], journal, to) + BalanceRow(accounts[n], journal, to)
  }

  /** The period row of one account: its raw column totals, unless both are zero. */
  function ActivityRow(a: Account, journal: seq<Entry>, from: int, to: int): seq<TrialRow>
    requires a.category.Some?
  {
    var info := GetBalance(a, journal, Some(from), Some(to)).value;
    if info.debit == 0 && info.credit == 0 then [] else [TrialRow(a, info.debit, info.credit)]
  }

  /** The rows of the period mode. */
  function ActivityRows(accounts: seq<Account>, journal: seq<Entry>, from: int, to: int): seq<TrialRow>
    requires AllCategorised(accounts)
  {
    if accounts == [] then []
    else
      var n := |accounts| - 1;
      ActivityRows(accounts[..n], journal, from, to) + ActivityRow(accounts[n], journal, from, to)
  }

  /** One more categorised account extends the as-of and all-time rows by its own row. */
  lemma BalanceRowsStep(accounts: seq<Account>, i: nat, journal: seq<Entry>, to: Option<int>)
    requires i < |accounts| && AllCategorised(accounts[..i]) && accounts[i].category.Some?
    ensures AllCategorised(accounts[..i + 1])
    ensures BalanceRows(accounts[..i + 1], journal, to)
         == BalanceRows(accounts[..i], journal, to) + BalanceRow(accounts[i], journal, to)
  {
    PrefixStep(accounts, i);
  }

  /** One more categorised account extends the period rows by its own row. */
  lemma ActivityRowsStep(accounts: seq<Account>, i: nat, journal: seq<Entry>, from: int, to: int)
    requires i < |accounts| && AllCategorised(accounts[..i]) && accounts[i].category.Some?
    ensures AllCategorised(accounts[..i + 1])
    ensures ActivityRows(accounts[..i + 1], journal, from, to)
         == ActivityRows(accounts[..i], journal, from, to) + ActivityRow(accounts[i], journal, from, to)
  {
    PrefixStep(accounts, i);
  }

  function TotalDebits(rows: seq<TrialRow>): int {
    if rows == [] then 0 else TotalDebits(rows[..|rows| - 1]) + rows[|rows| - 1].debits
  }

  function TotalCredits(rows: seq<TrialRow>): int {
    if rows == [] then 0 else TotalCredits(rows[..|rows| - 1]) + rows[|rows| - 1].credits
  }

  /** Both row totals are additive over two row lists one after the other. */
  lemma {:induction false} RowTotalsAppend(xs: seq<TrialRow>, ys: seq<TrialRow>)
    ensures TotalDebits(xs + ys) == TotalDebits(xs) + TotalDebits(ys)
    ensures TotalCredits(xs + ys) == TotalCredits(xs) + TotalCredits(ys)
  {
    if ys != [] {
      var n := |ys| - 1;
      assert (xs + ys)[..|xs + ys| - 1] == xs + ys[..n];
      RowTotalsAppend(xs, ys[..n]);
    } else {
      assert xs + ys == xs;
    }
  }

  /** The trial balance built from the given rows, or the failure on the first uncategorised account. */
  function TrialOutcome(accounts: seq<Account>, kind: TrialKind, rows: seq<TrialRow>): Result<TrialBalance, LedgerError> {
    match FirstUncategorised(accounts)
    case Some(k) => Err(MissingCategory(accounts[k].id))
    case None => Ok(TrialBalance(kind, rows, TotalDebits(rows), TotalCredits(rows)))
  }

  /**
   * The document generate_trial_balance returns: as_of_date takes
   * precedence, then a period when both bounds are given, else all time.
   */
  function TrialBalanceOf(chart: seq<Account>, journal: seq<Entry>, asOf: Option<int>, from: Option<int>, to: Option<int>): Result<TrialBalance, LedgerError> {
    var accounts := ActiveAccounts(chart);
    if !AllCategorised(accounts) then TrialOutcome(accounts, AllTimeKind, [])
    else if asOf.Some? then TrialOutcome(accounts, AsOfKind(asOf.value), BalanceRows(accounts, journal, asOf))
    else if from.Some? && to.Some? then
      TrialOutcome(accounts, PeriodKind(from.value, to.value), ActivityRows(accounts, journal, from.value, to.value))
    else TrialOutcome(accounts, AllTimeKind, BalanceRows(accounts, journal, None))
  }

  /**
   * One iteration of the as-of and all-time loop: ask get_balance_as_of
   * (or get_balance without bounds), skip a zero balance, place the rest by
   * SideColumns and add the cells to the running totals. A missing category
   * raises in get_balance, which ends the report.
   */
  method PushBalanceRow(accounts: seq<Account>, i: nat, journal: seq<Entry>, to: Option<int>,
                        rows: seq<TrialRow>, totalDebits: int, totalCredits: int)
    returns (failed: Option<LedgerError>, rows': seq<TrialRow>, totalDebits': int, totalCredits': int)
    requires i < |accounts| && AllCategorised(accounts[..i])
    requires rows == BalanceRows(accounts[..i], journal, to)
    requires totalDebits == TotalDebits(rows) && totalCredits == TotalCredits(rows)
    ensures failed.Some? ==> FirstUncategorised(accounts) == Some(i) && failed.value == MissingCategory(accounts[i].id)
    ensures failed.None? ==> AllCategorised(accounts[..i + 1])
    ensures failed.None? ==> rows' == BalanceRows(accounts[..i + 1], journal, to)
    ensures failed.None? ==> totalDebits' == TotalDebits(rows') && totalCredits' == TotalCredits(rows')
  {
    var account := accounts[i];
    var info: Result<BalanceInfo, LedgerError>;
    if to.Some? {
      info := GetBalanceAsOf(account, journal, to.value);
    } else {
      info := GetBalance(account, journal, None, None);
    }
    assert info == GetBalance(account, journal, None, to);
    if info.Err? {
      FirstUncategorisedAt(accounts, i);
      return Some(info.error), rows, totalDebits, totalCredits;
    }
    var balance := info.value.balance;
    BalanceRowsStep(accounts, i, journal, to);
    var cells := SideColumns(IsDebitSide(account.category.value), balance);
    assert BalanceRow(account, journal, to) == if balance == 0 then [] else [TrialRow(account, cells.0, cells.1)];
    failed := None;
    if balance != 0 {
      var row := TrialRow(account, cells.0, cells.1);
      RowTotalsAppend(rows, [row]);
      rows', totalDebits', totalCredits' := rows + [row], totalDebits + cells.0, totalCredits + cells.1;
    } else {
      rows', totalDebits', totalCredits' := rows, totalDebits, totalCredits;
    }
  }

  /** The loop of the as-of and all-time branches, ending early on a missing category. */
  method CollectBalanceRows(kind: TrialKind, accounts: seq<Account>, journal: seq<Entry>, to: Option<int>)
    returns (r: Result<TrialBalance, LedgerError>)
    ensures !AllCategorised(accounts) ==> r == TrialOutcome(accounts, kind, [])
    ensures AllCategorised(accounts) ==> r == TrialOutcome(accounts, kind, BalanceRows(accounts, journal, to))
  {
    var rows: seq<TrialRow> := [];
    var totalDebits, totalCredits := 0, 0;
    var i := 0;
    while i < |accounts|
      invariant 0 <= i <= |accounts|
      invariant AllCategorised(accounts[..i])
      invariant rows == BalanceRows(accounts[..i], journal, to)
      invariant totalDebits == TotalDebits(rows)
      invariant totalCredits == TotalCredits(rows)
    {
      var failed;
      failed, rows, totalDebits, totalCredits := PushBalanceRow(accounts, i, journal, to, rows, totalDebits, totalCredits);
      if failed.Some? {
        return Err(failed.value);
      }
      i := i + 1;
    }
    assert accounts[..i] == accounts;
    r := Ok(TrialBalance(kind, rows, totalDebits, totalCredits));
  }

  /**
   * One iteration of the period loop: ask get_balance for the window and
   * append the account's row unless both of its totals are zero.
   */
  method PushActivityRow(accounts: seq<Account>, i: nat, journal: seq<Entry>, from: int, to: int,
                         rows: seq<TrialRow>, totalDebits: int, totalCredits: int)
    returns (failed: Option<LedgerError>, rows': seq<TrialRow>, totalDebits': int, totalCredits': int)
    requires i < |accounts| && AllCategorised(accounts[..i])
    requires rows == ActivityRows(accounts[..i], journal, from, to)
    requires totalDebits == TotalDebits(rows) && totalCredits == TotalCredits(rows)
    ensures failed.Some? ==> FirstUncategorised(accounts) == Some(i) && failed.value == MissingCategory(accounts[i].id)
    ensures failed.None? ==> AllCategorised(accounts[..i + 1])
    ensures failed.None? ==> rows' == ActivityRows(accounts[..i + 1], journal, from, to)
    ensures failed.None? ==> totalDebits' == TotalDebits(rows') && totalCredits' == TotalCredits(rows')
  {
    var account := accounts[i];
    var info := GetPeriodBalance(account, journal, Some(from), Some(to));
    if info.Err? {
      FirstUncategorisedAt(accounts, i);
      return Some(info.error), rows, totalDebits, totalCredits;
    }
    var debits, credits := info.value.debit, info.value.credit;
    ActivityRowsStep(accounts, i, journal, from, to);
    assert ActivityRow(account, journal, from, to)
        == if debits == 0 && credits == 0 then [] else [TrialRow(account, debits, credits)];
    failed := None;
    if !(debits == 0 && credits == 0) {
      var row := TrialRow(account, debits, credits);
      RowTotalsAppend(rows, [row]);
      rows', totalDebits', totalCredits' := rows + [row], totalDebits + debits, totalCredits + credits;
    } else {
      rows', totalDebits', totalCredits' := rows, totalDebits, totalCredits;
    }
  }

  /** The loop of the period branch: raw debit and credit totals, skipping accounts with neither. */
  method CollectActivityRows(accounts: seq<Account>, journal: seq<Entry>, from: int, to: int)
    returns (r: Result<TrialBalance, LedgerError>)
    ensures !AllCategorised(accounts) ==> r == TrialOutcome(accounts, PeriodKind(from, to), [])
    ensures AllCategorised(accounts) ==>
      r == TrialOutcome(accounts, PeriodKind(from, to), ActivityRows(accounts, journal, from, to))
  {
    var rows: seq<TrialRow> := [];
    var totalDebits, totalCredits := 0, 0;
    var i := 0;
    while i < |accounts|
      invariant 0 <= i <= |accounts|
      invariant AllCategorised(accounts[..i])
      invariant rows == ActivityRows(accounts[..i], journal, from, to)
      invariant totalDebits == TotalDebits(rows)
      invariant totalCredits == TotalCredits(rows)
    {
      var failed;
      failed, rows, totalDebits, totalCredits := PushActivityRow(accounts, i, journal, from, to, rows, totalDebits, totalCredits);
      if failed.Some? {
        return Err(failed.value);
      }
      i := i + 1;
    }
    assert accounts[..i] == accounts;
    r := Ok(TrialBalance(PeriodKind(from, to), rows, totalDebits, totalCredits));
  }

  /** generate_trial_balance with its three branches. */
  method GenerateTrialBalance(chart: seq<Account>, journal: seq<Entry>, asOf: Option<int>, from: Option<int>, to: Option<int>)
    returns (r: Result<TrialBalance, LedgerError>)
    ensures r == TrialBalanceOf(chart, journal, asOf, from, to)
  {
    var accounts := ActiveAccounts(chart);
    if asOf.Some? {
      r := CollectBalanceRows(AsOfKind(asOf.value), accounts, journal, asOf);
    } else if from.Some? && to.Some? {
      r := CollectActivityRows(accounts, journal, from.value, to.value);
    } else {
      r := CollectBalanceRows(AllTimeKind, accounts, journal, None);
    }
  }
}
