/**
 * What the reports promise, proved about the specification functions that
 * the report methods are proved equal to: which accounts are listed and
 * with what, that each total is the sum of its lines (and of every selected
 * account, zero balances included), where the trial balance places a
 * balance, and the double-entry identities: a balanced journal gives a
 * trial balance whose two totals agree and a balance sheet whose assets
 * equal liabilities plus equity.
 */
module ReportTheorems {
  import opened Wrappers
  import opened Ledger
  import opened BalanceEngine
  import opened FinancialReports

  // ---------------------------------------------------------------- income statement

  /**
   * A line is listed exactly when its account is one of the selected
   * accounts and carries that account's non-zero balance.
   */
  lemma {:induction false} NonZeroLinesMembers(accounts: seq<Account>, journal: seq<Entry>, from: Option<int>, to: Option<int>, l: Line)
    requires AllCategorised(accounts)
    ensures l in NonZeroLines(accounts, journal, from, to) <==>
      l.account in accounts && l.account.category.Some?
      && l.amount == BalanceOf(l.account, journal, from, to) && l.amount != 0
  {
    if accounts != [] {
      var n := |accounts| - 1;
      assert accounts == accounts[..n] + [accounts[n]];
      NonZeroLinesMembers(accounts[..n], journal, from, to, l);
    }
  }

  /** Leaving out the zero balances does not change the total. */
  lemma {:induction false} ZeroBalancesAddNothing(accounts: seq<Account>, journal: seq<Entry>, from: Option<int>, to: Option<int>)
    requires AllCategorised(accounts)
    ensures Total(NonZeroLines(accounts, journal, from, to)) == TotalBalance(accounts, journal, from, to)
  {
    if accounts != [] {
      var n := |accounts| - 1;
      var b := BalanceOf(accounts[n], journal, from, to);
      ZeroBalancesAddNothing(accounts[..n], journal, from, to);
      TotalAppend(NonZeroLines(accounts[..n], journal, from, to), if b != 0 then [Line(accounts[n], b)] else []);
    }
  }

  /**
   * The income statement lists exactly the active income (expense) accounts
   * with a non-zero balance for the window, each with that balance; its
   * totals are the sums of all those accounts' balances, and net income is
   * their difference.
   */
  lemma IncomeStatementContents(chart: seq<Account>, journal: seq<Entry>, from: Option<int>, to: Option<int>, basis: string)
    ensures var r := IncomeStatementOf(chart, journal, from, to, basis);
      && (forall l :: l in r.income <==>
            l.account in chart && l.account.isActive && l.account.category == Some(Income)
            && l.amount == BalanceOf(l.account, journal, from, to) && l.amount != 0)
      && (forall l :: l in r.expenses <==>
            l.account in chart && l.account.isActive && l.account.category == Some(Expense)
            && l.amount == BalanceOf(l.account, journal, from, to) && l.amount != 0)
      && r.totalIncome == TotalBalance(ActiveOfType(chart, Income), journal, from, to)
      && r.totalExpenses == TotalBalance(ActiveOfType(chart, Expense), journal, from, to)
      && r.netIncome == r.totalIncome - r.totalExpenses
  {
    var r := IncomeStatementOf(chart, journal, from, to, basis);
    var incomeAccounts := ActiveOfType(chart, Income);
    var expenseAccounts := ActiveOfType(chart, Expense);
    forall l ensures l in r.income <==>
        l.account in chart && l.account.isActive && l.account.category == Some(Income)
        && l.amount == BalanceOf(l.account, journal, from, to) && l.amount != 0 {
      NonZeroLinesMembers(incomeAccounts, journal, from, to, l);
    }
    forall l ensures l in r.expenses <==>
        l.account in chart && l.account.isActive && l.account.category == Some(Expense)
        && l.amount == BalanceOf(l.account, journal, from, to) && l.amount != 0 {
      NonZeroLinesMembers(expenseAccounts, journal, from, to, l);
    }
    ZeroBalancesAddNothing(incomeAccounts, journal, from, to);
    ZeroBalancesAddNothing(expenseAccounts, journal, from, to);
  }

  /** The accounting method changes nothing but the label the statement echoes. */
  lemma IncomeStatementIgnoresBasis(chart: seq<Account>, journal: seq<Entry>, from: Option<int>, to: Option<int>, b1: string, b2: string)
    ensures IncomeStatementOf(chart, journal, from, to, b1).(accountingMethod := b2)
         == IncomeStatementOf(chart, journal, from, to, b2)
  {
  }

  // ---------------------------------------------------------------- balance sheet

  /** A section lists every account, in order, with its as-of balance, zero included. */
  lemma {:induction false} BalanceLinesContents(accounts: seq<Account>, journal: seq<Entry>, asOf: int)
    requires AllCategorised(accounts)
    ensures |BalanceLines(accounts, journal, asOf)| == |accounts|
    ensures forall k :: 0 <= k < |accounts| ==>
      BalanceLines(accounts, journal, asOf)[k] == Line(accounts[k], BalanceOf(accounts[k], journal, None, Some(asOf)))
    ensures Total(BalanceLines(accounts, journal, asOf)) == TotalBalance(accounts, journal, None, Some(asOf))
  {
    if accounts != [] {
      var n := |accounts| - 1;
      var prefix := accounts[..n];
      assert AllCategorised(prefix);
      BalanceLinesContents(prefix, journal, asOf);
      var line := Line(accounts[n], BalanceOf(accounts[n], journal, None, Some(asOf)));
      var lines := BalanceLines(accounts, journal, asOf);
      assert lines == BalanceLines(prefix, journal, asOf) + [line];
      forall k | 0 <= k < |accounts|
        ensures lines[k] == Line(accounts[k], BalanceOf(accounts[k], journal, None, Some(asOf)))
      {
        if k < n {
          assert prefix[k] == accounts[k];
        }
      }
      TotalAppend(BalanceLines(prefix, journal, asOf), [line]);
    }
  }

  /**
   * The balance sheet's sections hold every active account of their type
   * with its as-of balance; each total is the sum of its section; equity
   * adds the net income of the income statement from the beginning up to
   * the date; and liabilities_and_equity is the sum of the last two totals.
   */
  lemma BalanceSheetContents(chart: seq<Account>, journal: seq<Entry>, asOf: int)
    ensures var r := BalanceSheetOf(chart, journal, asOf);
      && r.asOfDate == asOf
      && |r.assets| == |ActiveOfType(chart, Asset)|
      && |r.liabilities| == |ActiveOfType(chart, Liability)|
      && |r.equity| == |ActiveOfType(chart, Equity)|
      && (forall k :: 0 <= k < |r.assets| ==>
            r.assets[k] == Line(ActiveOfType(chart, Asset)[k], BalanceOf(ActiveOfType(chart, Asset)[k], journal, None, Some(asOf))))
      && (forall k :: 0 <= k < |r.liabilities| ==>
            r.liabilities[k] == Line(ActiveOfType(chart, Liability)[k], BalanceOf(ActiveOfType(chart, Liability)[k], journal, None, Some(asOf))))
      && (forall k :: 0 <= k < |r.equity| ==>
            r.equity[k] == Line(ActiveOfType(chart, Equity)[k], BalanceOf(ActiveOfType(chart, Equity)[k], journal, None, Some(asOf))))
      && r.totalAssets == TotalBalance(ActiveOfType(chart, Asset), journal, None, Some(asOf))
      && r.totalLiabilities == TotalBalance(ActiveOfType(chart, Liability), journal, None, Some(asOf))
      && r.netIncome == TotalBalance(ActiveOfType(chart, Income), journal, None, Some(asOf))
                        - TotalBalance(ActiveOfType(chart, Expense), journal, None, Some(asOf))
      && r.totalEquity == TotalBalance(ActiveOfType(chart, Equity), journal, None, Some(asOf)) + r.netIncome
      && r.liabilitiesAndEquity == r.totalLiabilities + r.totalEquity
  {
    BalanceLinesContents(ActiveOfType(chart, Asset), journal, asOf);
    BalanceLinesContents(ActiveOfType(chart, Liability), journal, asOf);
    BalanceLinesContents(ActiveOfType(chart, Equity), journal, asOf);
    IncomeStatementContents(chart, journal, None, Some(asOf), "accrual");
  }

  // ---------------------------------------------------------------- trial balance rows

  /**
   * A row of the as-of or all-time trial balance is listed exactly for an
   * account with a non-zero balance, with that balance placed by SideColumns.
   */
  lemma {:induction false} BalanceRowsMembers(accounts: seq<Account>, journal: seq<Entry>, to: Option<int>, row: TrialRow)
    requires AllCategorised(accounts)
    ensures row in BalanceRows(accounts, journal, to) <==>
      row.account in accounts && row.account.category.Some?
      && BalanceOf(row.account, journal, None, to) != 0
      && (row.debits, row.credits)
         == SideColumns(IsDebitSide(row.account.category.value), BalanceOf(row.account, journal, None, to))
  {
    if accounts != [] {
      var n := |accounts| - 1;
      assert accounts == accounts[..n] + [accounts[n]];
      BalanceRowsMembers(accounts[..n], journal, to, row);
    }
  }

  /**
   * Every row of the as-of or all-time trial balance has non-negative
   * cells, exactly one of them non-zero, and debits minus credits equal to
   * the account's balance read on the debit side.
   */
  lemma BalanceRowShape(accounts: seq<Account>, journal: seq<Entry>, to: Option<int>, row: TrialRow)
    requires AllCategorised(accounts)
    requires row in BalanceRows(accounts, journal, to)
    ensures row.account in accounts && row.account.category.Some?
    ensures row.debits >= 0 && row.credits >= 0
    ensures row.debits == 0 <==> row.credits != 0
    ensures row.debits - row.credits ==
      if IsDebitSide(row.account.category.value)
      then BalanceOf(row.account, journal, None, to)
      else -BalanceOf(row.account, journal, None, to)
  {
    BalanceRowsMembers(accounts, journal, to, row);
  }

  /**
   * A row of the period trial balance is listed exactly for an account with
   * some activity in the window, and carries its raw column totals.
   */
  lemma {:induction false} ActivityRowsMembers(accounts: seq<Account>, journal: seq<Entry>, from: int, to: int, row: TrialRow)
    requires AllCategorised(accounts)
    ensures row in ActivityRows(accounts, journal, from, to) <==>
      row.account in accounts && row.account.category.Some?
      && var info := GetBalance(row.account, journal, Some(from), Some(to)).value;
         && !(info.debit == 0 && info.credit == 0)
         && row.debits == info.debit && row.credits == info.credit
  {
    if accounts != [] {
      var n := |accounts| - 1;
      assert accounts == accounts[..n] + [accounts[n]];
      ActivityRowsMembers(accounts[..n], journal, from, to, row);
    }
  }

  /** The trial balance fails exactly when an active account has no category; otherwise the mode follows the arguments. */
  lemma TrialBalanceModes(chart: seq<Account>, journal: seq<Entry>, asOf: Option<int>, from: Option<int>, to: Option<int>)
    ensures var r := TrialBalanceOf(chart, journal, asOf, from, to);
      && (r.Err? <==> exists a :: a in chart && a.isActive && a.category.None?)
      && (r.Ok? ==> r.value.totalDebits == TotalDebits(r.value.accounts)
                    && r.value.totalCredits == TotalCredits(r.value.accounts))
      && (r.Ok? && asOf.Some? ==> r.value.kind == AsOfKind(asOf.value))
      && (r.Ok? && asOf.None? && from.Some? && to.Some? ==> r.value.kind == PeriodKind(from.value, to.value))
      && (r.Ok? && asOf.None? && (from.None? || to.None?) ==> r.value.kind == AllTimeKind)
  {
    var accounts := ActiveAccounts(chart);
    if !AllCategorised(accounts) {
      var k :| 0 <= k < |accounts| && accounts[k].category.None?;
      assert accounts[k] in accounts;
    } else {
      forall a | a in chart && a.isActive ensures a.category.Some? {
        var k :| 0 <= k < |accounts| && accounts[k] == a;
      }
    }
  }

  // ---------------------------------------------------------------- journal totals by account

  /** The set of keys of the accounts. */
  function Ids(accounts: seq<Account>): set<nat> {
    if accounts == [] then {} else Ids(accounts[..|accounts| - 1]) + {accounts[|accounts| - 1].id}
  }

  lemma {:induction false} IdsMembers(accounts: seq<Account>, x: nat)
    ensures x in Ids(accounts) <==> exists k :: 0 <= k < |accounts| && accounts[k].id == x
  {
    if accounts != [] {
      var n := |accounts| - 1;
      IdsMembers(accounts[..n], x);
      if x in Ids(accounts[..n]) {
        var k :| 0 <= k < n && accounts[..n][k].id == x;
        assert accounts[k].id == x;
      }
      if exists k :: 0 <= k < |accounts| && accounts[k].id == x {
        var k :| 0 <= k < |accounts| && accounts[k].id == x;
        if k < n {
          assert accounts[..n][k].id == x;
        }
      }
    }
  }

  /** Primary keys: no two accounts share an id. */
  predicate DistinctIds(accounts: seq<Account>) {
    forall i, j :: 0 <= i < j < |accounts| ==> accounts[i].id != accounts[j].id
  }

  /** Every journal entry posts to one of the accounts. */
  predicate PostsTo(journal: seq<Entry>, accounts: seq<Account>) {
    forall e :: e in journal ==> e.account in Ids(accounts)
  }

  /** The entries posting to any of the given account keys, in order. */
  function OfIds(es: seq<Entry>, ids: set<nat>): seq<Entry> {
    if es == [] then []
    else (if es[0].account in ids then [es[0]] else []) + OfIds(es[1..], ids)
  }

  /** One account's column total in the window, as get_balance reports it. */
  function AccountColumn(a: Account, journal: seq<Entry>, from: Option<int>, to: Option<int>, c: Column): int {
    Sum(Window(OfAccount(journal, a.id), from, to), c)
  }

  /** The sum over the accounts of each one's column total in the window. */
  function ColumnTotal(accounts: seq<Account>, journal: seq<Entry>, from: Option<int>, to: Option<int>, c: Column): int {
    if accounts == [] then 0
    else
      var n := |accounts| - 1;
      ColumnTotal(accounts[..n], journal, from, to, c) + AccountColumn(accounts[n], journal, from, to, c)
  }

  lemma {:induction false} ColumnTotalAppend(xs: seq<Account>, ys: seq<Account>, journal: seq<Entry>, from: Option<int>, to: Option<int>, c: Column)
    ensures ColumnTotal(xs + ys, journal, from, to, c) == ColumnTotal(xs, journal, from, to, c) + ColumnTotal(ys, journal, from, to, c)
  {
    if ys != [] {
      var n := |ys| - 1;
      assert (xs + ys)[..|xs + ys| - 1] == xs + ys[..n];
      ColumnTotalAppend(xs, ys[..n], journal, from, to, c);
    } else {
      assert xs + ys == xs;
    }
  }

  lemma {:induction false} WindowAppend(xs: seq<Entry>, ys: seq<Entry>, from: Option<int>, to: Option<int>)
    ensures Window(xs + ys, from, to) == Window(xs, from, to) + Window(ys, from, to)
  {
    if xs == [] {
      assert xs + ys == ys;
    } else {
      assert (xs + ys)[1..] == xs[1..] + ys;
      WindowAppend(xs[1..], ys, from, to);
    }
  }

  /** Selecting an account's entries and then the window is selecting the window and then the account. */
  lemma {:induction false} WindowOfAccount(es: seq<Entry>, id: nat, from: Option<int>, to: Option<int>)
    ensures Window(OfAccount(es, id), from, to) == OfAccount(Window(es, from, to), id)
  {
    if es != [] {
      WindowOfAccount(es[1..], id, from, to);
      var head := if es[0].account == id then [es[0]] else [];
      WindowAppend(head, OfAccount(es[1..], id), from, to);
      var inside := if InWindow(es[0].date, from, to) then [es[0]] else [];
      var rest := Window(es[1..], from, to);
      assert OfAccount(inside + rest, id) == OfAccount(inside, id) + OfAccount(rest, id) by {
        if inside != [] {
          assert (inside + rest)[1..] == rest;
        } else {
          assert inside + rest == rest;
        }
      }
    }
  }

  /** Adding one more key to a set of accounts adds that account's column total. */
  lemma {:induction false} SplitOffAccount(es: seq<Entry>, ids: set<nat>, x: nat, c: Column)
    requires x !in ids
    ensures Sum(OfIds(es, ids + {x}), c) == Sum(OfIds(es, ids), c) + Sum(OfAccount(es, x), c)
  {
    if es != [] {
      SplitOffAccount(es[1..], ids, x, c);
      var e := es[0];
      SumAppend(if e.account in ids + {x} then [e] else [], OfIds(es[1..], ids + {x}), c);
      SumAppend(if e.account in ids then [e] else [], OfIds(es[1..], ids), c);
      SumAppend(if e.account == x then [e] else [], OfAccount(es[1..], x), c);
    }
  }

  lemma {:induction false} OfIdsNone(es: seq<Entry>)
    ensures OfIds(es, {}) == []
  {
    if es != [] {
      OfIdsNone(es[1..]);
    }
  }

  lemma {:induction false} OfIdsKeepsAll(es: seq<Entry>, ids: set<nat>)
    requires forall e :: e in es ==> e.account in ids
    ensures OfIds(es, ids) == es
  {
    if es != [] {
      OfIdsKeepsAll(es[1..], ids);
      assert es == [es[0]] + es[1..];
    }
  }

  /** With distinct keys, the per-account column totals add up to the total over the accounts' entries. */
  lemma {:induction false} ColumnTotalOfIds(accounts: seq<Account>, journal: seq<Entry>, from: Option<int>, to: Option<int>, c: Column)
    requires DistinctIds(accounts)
    ensures ColumnTotal(accounts, journal, from, to, c) == Sum(OfIds(Window(journal, from, to), Ids(accounts)), c)
  {
    if accounts != [] {
      var n := |accounts| - 1;
      var prefix, a := accounts[..n], accounts[n];
      assert DistinctIds(prefix) by {
        forall i, j | 0 <= i < j < |prefix| ensures prefix[i].id != prefix[j].id {
          assert prefix[i] == accounts[i] && prefix[j] == accounts[j];
        }
      }
      ColumnTotalOfIds(prefix, journal, from, to, c);
      IdsMembers(prefix, a.id);
      forall k | 0 <= k < n
        ensures prefix[k].id != a.id
      {
        assert prefix[k] == accounts[k];
      }
      assert Ids(accounts) == Ids(prefix) + {a.id};
      WindowOfAccount(journal, a.id, from, to);
      assert AccountColumn(a, journal, from, to, c) == Sum(OfAccount(Window(journal, from, to), a.id), c);
      SplitOffAccount(Window(journal, from, to), Ids(prefix), a.id, c);
    } else {
      OfIdsNone(Window(journal, from, to));
    }
  }

  /**
   * When every entry posts to one of the accounts and keys are distinct,
   * the per-account totals add up to the journal's own total in the window.
   */
  lemma JournalColumnTotal(accounts: seq<Account>, journal: seq<Entry>, from: Option<int>, to: Option<int>, c: Column)
    requires DistinctIds(accounts) && PostsTo(journal, accounts)
    ensures ColumnTotal(accounts, journal, from, to, c) == Sum(Window(journal, from, to), c)
  {
    ColumnTotalOfIds(accounts, journal, from, to, c);
    forall e | e in Window(journal, from, to) ensures e.account in Ids(accounts) {
      WindowMembers(journal, from, to, e);
    }
    OfIdsKeepsAll(Window(journal, from, to), Ids(accounts));
  }

  // ---------------------------------------------------------------- trial balance totals

  /** A balance read on the debit side: as is for a debit-normal account, negated otherwise. */
  function DebitSideBalance(a: Account, journal: seq<Entry>, to: Option<int>): int
    requires a.category.Some?
  {
    var b := BalanceOf(a, journal, None, to);
    if IsDebitSide(a.category.value) then b else -b
  }

  function DebitSideTotal(accounts: seq<Account>, journal: seq<Entry>, to: Option<int>): int
    requires AllCategorised(accounts)
  {
    if accounts == [] then 0
    else
      var n := |accounts| - 1;
      DebitSideTotal(accounts[..n], journal, to) + DebitSideBalance(accounts[n], journal, to)
  }

  /** The opening balances read on the debit side, summed. */
  function OpeningTotal(accounts: seq<Account>): int
    requires AllCategorised(accounts)
  {
    if accounts == [] then 0
    else
      var n := |accounts| - 1;
      var a := accounts[n];
      OpeningTotal(accounts[..n]) + if IsDebitSide(a.category.value) then a.openingBalance else -a.openingBalance
  }

  /**
   * Total debits minus total credits of the as-of or all-time trial balance
   * is the sum of every account's balance read on the debit side: skipped
   * zero balances contribute nothing.
   */
  lemma {:induction false} BalanceRowsNet(accounts: seq<Account>, journal: seq<Entry>, to: Option<int>)
    requires AllCategorised(accounts)
    ensures TotalDebits(BalanceRows(accounts, journal, to)) - TotalCredits(BalanceRows(accounts, journal, to))
         == DebitSideTotal(accounts, journal, to)
  {
    if accounts != [] {
      var n := |accounts| - 1;
      BalanceRowsNet(accounts[..n], journal, to);
      RowTotalsAppend(BalanceRows(accounts[..n], journal, to), BalanceRow(accounts[n], journal, to));
    }
  }

  /**
   * Read on the debit side, the balances add up to the journal's debits
   * minus credits, plus the opening balances only in the all-time mode.
   */
  lemma {:induction false} DebitSideTotalIsColumns(accounts: seq<Account>, journal: seq<Entry>, to: Option<int>)
    requires AllCategorised(accounts)
    ensures DebitSideTotal(accounts, journal, to) ==
      (if to.None? then OpeningTotal(accounts) else 0)
      + ColumnTotal(accounts, journal, None, to, DebitColumn) - ColumnTotal(accounts, journal, None, to, CreditColumn)
  {
    if accounts != [] {
      var n := |accounts| - 1;
      var a := accounts[n];
      DebitSideTotalIsColumns(accounts[..n], journal, to);
      GetBalanceFigures(a, journal, None, to);
      MovementIsColumnDifference(Window(OfAccount(journal, a.id), None, to), IsDebitSide(a.category.value));
    }
  }

  /** The period trial balance's totals are the per-account column totals, accounts without activity adding zero. */
  lemma {:induction false} ActivityRowsTotals(accounts: seq<Account>, journal: seq<Entry>, from: int, to: int)
    requires AllCategorised(accounts)
    ensures TotalDebits(ActivityRows(accounts, journal, from, to)) == ColumnTotal(accounts, journal, Some(from), Some(to), DebitColumn)
    ensures TotalCredits(ActivityRows(accounts, journal, from, to)) == ColumnTotal(accounts, journal, Some(from), Some(to), CreditColumn)
  {
    if accounts != [] {
      var n := |accounts| - 1;
      ActivityRowsTotals(accounts[..n], journal, from, to);
      GetBalanceFigures(accounts[n], journal, Some(from), Some(to));
      RowTotalsAppend(ActivityRows(accounts[..n], journal, from, to), ActivityRow(accounts[n], journal, from, to));
    }
  }

  /**
   * As-of trial balance of a ledger whose every entry posts to an active
   * account: if the journal's debits and credits up to the date agree, so do
   * the report's totals. Opening balances play no part, as the as-of mode
   * leaves them out.
   */
  lemma AsOfTrialBalanceAgrees(chart: seq<Account>, journal: seq<Entry>, d: int, from: Option<int>, to: Option<int>)
    requires AllCategorised(ActiveAccounts(chart))
    requires DistinctIds(ActiveAccounts(chart)) && PostsTo(journal, ActiveAccounts(chart))
    requires Sum(Window(journal, None, Some(d)), DebitColumn) == Sum(Window(journal, None, Some(d)), CreditColumn)
    ensures TrialBalanceOf(chart, journal, Some(d), from, to).Ok?
    ensures TrialBalanceOf(chart, journal, Some(d), from, to).value.totalDebits
         == TrialBalanceOf(chart, journal, Some(d), from, to).value.totalCredits
  {
    var accounts := ActiveAccounts(chart);
    BalanceRowsNet(accounts, journal, Some(d));
    DebitSideTotalIsColumns(accounts, journal, Some(d));
    JournalColumnTotal(accounts, journal, None, Some(d), DebitColumn);
    JournalColumnTotal(accounts, journal, None, Some(d), CreditColumn);
  }

  /**
   * All-time trial balance: with a balanced journal posting only to active
   * accounts, the totals agree when the opening balances, read on the debit
   * side, cancel out.
   */
  lemma AllTimeTrialBalanceAgrees(chart: seq<Account>, journal: seq<Entry>)
    requires AllCategorised(ActiveAccounts(chart))
    requires DistinctIds(ActiveAccounts(chart)) && PostsTo(journal, ActiveAccounts(chart))
    requires Sum(journal, DebitColumn) == Sum(journal, CreditColumn)
    requires OpeningTotal(ActiveAccounts(chart)) == 0
    ensures TrialBalanceOf(chart, journal, None, None, None).Ok?
    ensures TrialBalanceOf(chart, journal, None, None, None).value.totalDebits
         == TrialBalanceOf(chart, journal, None, None, None).value.totalCredits
  {
    var accounts := ActiveAccounts(chart);
    BalanceRowsNet(accounts, journal, None);
    DebitSideTotalIsColumns(accounts, journal, None);
    JournalColumnTotal(accounts, journal, None, None, DebitColumn);
    JournalColumnTotal(accounts, journal, None, None, CreditColumn);
    WindowKeepsAll(journal, None, None);
  }

  /**
   * Period trial balance: its totals are the journal's debit and credit
   * totals over the window, so they agree exactly when the window's
   * postings balance.
   */
  lemma PeriodTrialBalanceTotals(chart: seq<Account>, journal: seq<Entry>, f: int, t: int)
    requires AllCategorised(ActiveAccounts(chart))
    requires DistinctIds(ActiveAccounts(chart)) && PostsTo(journal, ActiveAccounts(chart))
    ensures TrialBalanceOf(chart, journal, None, Some(f), Some(t)).Ok?
    ensures TrialBalanceOf(chart, journal, None, Some(f), Some(t)).value.totalDebits
         == Sum(Window(journal, Some(f), Some(t)), DebitColumn)
    ensures TrialBalanceOf(chart, journal, None, Some(f), Some(t)).value.totalCredits
         == Sum(Window(journal, Some(f), Some(t)), CreditColumn)
  {
    var accounts := ActiveAccounts(chart);
    ActivityRowsTotals(accounts, journal, f, t);
    JournalColumnTotal(accounts, journal, Some(f), Some(t), DebitColumn);
    JournalColumnTotal(accounts, journal, Some(f), Some(t), CreditColumn);
  }

  // ---------------------------------------------------------------- the accounting equation

  /** The active accounts that have a category, in chart order. */
  function ActiveCategorised(chart: seq<Account>): seq<Account> {
    if chart == [] then []
    else
      var n := |chart| - 1;
      var a := chart[n];
      ActiveCategorised(chart[..n]) + (if a.isActive && a.category.Some? then [a] else [])
  }

  /** One more account of the chart adds its column total to its own type's section only. */
  lemma SectionStep(chart: seq<Account>, t: CategoryType, journal: seq<Entry>, from: Option<int>, to: Option<int>, c: Column)
    requires chart != []
    ensures var n := |chart| - 1;
      var a := chart[n];
      ColumnTotal(ActiveOfType(chart, t), journal, from, to, c)
        == ColumnTotal(ActiveOfType(chart[..n], t), journal, from, to, c)
           + (if a.isActive && a.category == Some(t) then AccountColumn(a, journal, from, to, c) else 0)
  {
    var n := |chart| - 1;
    var a := chart[n];
    ColumnTotalAppend(ActiveOfType(chart[..n], t), if a.isActive && a.category == Some(t) then [a] else [], journal, from, to, c);
  }

  lemma CategorisedStep(chart: seq<Account>, journal: seq<Entry>, from: Option<int>, to: Option<int>, c: Column)
    requires chart != []
    ensures var n := |chart| - 1;
      var a := chart[n];
      ColumnTotal(ActiveCategorised(chart), journal, from, to, c)
        == ColumnTotal(ActiveCategorised(chart[..n]), journal, from, to, c)
           + (if a.isActive && a.category.Some? then AccountColumn(a, journal, from, to, c) else 0)
  {
    var n := |chart| - 1;
    var a := chart[n];
    ColumnTotalAppend(ActiveCategorised(chart[..n]), if a.isActive && a.category.Some? then [a] else [], journal, from, to, c);
  }

  /** The five type sections of the chart together are its active categorised accounts. */
  lemma {:induction false} PartitionByType(chart: seq<Account>, journal: seq<Entry>, from: Option<int>, to: Option<int>, c: Column)
    ensures ColumnTotal(ActiveOfType(chart, Asset), journal, from, to, c)
          + ColumnTotal(ActiveOfType(chart, Liability), journal, from, to, c)
          + ColumnTotal(ActiveOfType(chart, Equity), journal, from, to, c)
          + ColumnTotal(ActiveOfType(chart, Income), journal, from, to, c)
          + ColumnTotal(ActiveOfType(chart, Expense), journal, from, to, c)
         == ColumnTotal(ActiveCategorised(chart), journal, from, to, c)
  {
    if chart != [] {
      PartitionByType(chart[..|chart| - 1], journal, from, to, c);
      SectionStep(chart, Asset, journal, from, to, c);
      SectionStep(chart, Liability, journal, from, to, c);
      SectionStep(chart, Equity, journal, from, to, c);
      SectionStep(chart, Income, journal, from, to, c);
      SectionStep(chart, Expense, journal, from, to, c);
      CategorisedStep(chart, journal, from, to, c);
      var a := chart[|chart| - 1];
      match a.category
      case None =>
      case Some(Asset) =>
      case Some(Liability) =>
      case Some(Equity) =>
      case Some(Income) =>
      case Some(Expense) =>
    }
  }

  /**
   * Accounts of one type with a bound given: their balances add up to the
   * column difference on that type's normal side.
   */
  lemma {:induction false} TotalBalanceOfType(accounts: seq<Account>, t: CategoryType, journal: seq<Entry>, from: Option<int>, to: Option<int>)
    requires forall k :: 0 <= k < |accounts| ==> accounts[k].category == Some(t)
    requires from.Some? || to.Some?
    ensures AllCategorised(accounts)
    ensures TotalBalance(accounts, journal, from, to) ==
      if IsDebitSide(t)
      then ColumnTotal(accounts, journal, from, to, DebitColumn) - ColumnTotal(accounts, journal, from, to, CreditColumn)
      else ColumnTotal(accounts, journal, from, to, CreditColumn) - ColumnTotal(accounts, journal, from, to, DebitColumn)
  {
    if accounts != [] {
      var n := |accounts| - 1;
      TotalBalanceOfType(accounts[..n], t, journal, from, to);
      GetBalanceFigures(accounts[n], journal, from, to);
      MovementIsColumnDifference(Window(OfAccount(journal, accounts[n].id), from, to), IsDebitSide(t));
    }
  }

  /**
   * The balance sheet balances for a balanced journal: when every entry
   * posts to an active categorised account and the debits and credits up to
   * the date agree, total assets equal liabilities plus equity (with the
   * net income folded into equity). Opening balances play no part, because
   * as-of balances leave them out.
   */
  lemma AccountingEquation(chart: seq<Account>, journal: seq<Entry>, d: int)
    requires DistinctIds(ActiveCategorised(chart)) && PostsTo(journal, ActiveCategorised(chart))
    requires Sum(Window(journal, None, Some(d)), DebitColumn) == Sum(Window(journal, None, Some(d)), CreditColumn)
    ensures BalanceSheetOf(chart, journal, d).totalAssets == BalanceSheetOf(chart, journal, d).liabilitiesAndEquity
  {
    var to := Some(d);
    SectionsNet(chart, journal, to);
    PartitionByType(chart, journal, None, to, DebitColumn);
    PartitionByType(chart, journal, None, to, CreditColumn);
    JournalColumnTotal(ActiveCategorised(chart), journal, None, to, DebitColumn);
    JournalColumnTotal(ActiveCategorised(chart), journal, None, to, CreditColumn);
    assert SectionsGap(chart, journal, to) == 0;
    BalanceSheetContents(chart, journal, d);
  }

  /** The column difference of one type's section. */
  function SectionNet(chart: seq<Account>, t: CategoryType, journal: seq<Entry>, to: Option<int>): int {
    ColumnTotal(ActiveOfType(chart, t), journal, None, to, DebitColumn)
      - ColumnTotal(ActiveOfType(chart, t), journal, None, to, CreditColumn)
  }

  /** Assets minus liabilities, equity and net income, from the sections' balances. */
  function SectionsGap(chart: seq<Account>, journal: seq<Entry>, to: Option<int>): int {
    TotalBalance(ActiveOfType(chart, Asset), journal, None, to)
      - TotalBalance(ActiveOfType(chart, Liability), journal, None, to)
      - TotalBalance(ActiveOfType(chart, Equity), journal, None, to)
      - (TotalBalance(ActiveOfType(chart, Income), journal, None, to)
         - TotalBalance(ActiveOfType(chart, Expense), journal, None, to))
  }

  /** With a bound, that gap is the column difference summed over the five sections. */
  lemma SectionsNet(chart: seq<Account>, journal: seq<Entry>, to: Option<int>)
    requires to.Some?
    ensures SectionsGap(chart, journal, to) ==
      SectionNet(chart, Asset, journal, to) + SectionNet(chart, Liability, journal, to)
      + SectionNet(chart, Equity, journal, to) + SectionNet(chart, Income, journal, to)
      + SectionNet(chart, Expense, journal, to)
  {
    TotalBalanceOfType(ActiveOfType(chart, Asset), Asset, journal, None, to);
    TotalBalanceOfType(ActiveOfType(chart, Liability), Liability, journal, None, to);
    TotalBalanceOfType(ActiveOfType(chart, Equity), Equity, journal, None, to);
    TotalBalanceOfType(ActiveOfType(chart, Income), Income, journal, None, to);
    TotalBalanceOfType(ActiveOfType(chart, Expense), Expense, journal, None, to);
  }
}
