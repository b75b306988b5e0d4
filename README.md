# Ledger balance and reporting engine

This is a Dafny model of the double-entry ledger in the `accounting` app. It has two parts.

The **balance engine** is `Accounting_Account` and `Journal` in `accounting/models.py`:

- whether an account is debit-normal;
- `get_balance` and its three wrappers;
- the debit-xor-credit validation that `Journal.save` runs before it stores an entry.

The **reporting engine** is `accounting/financial_reports.py`. It turns per-account balances into three documents:

- the income statement;
- the balance sheet;
- the trial balance, in its as-of, period and all-time modes.

Representation:

- Amounts are decimals with two places in the source. Here they are whole cents (`int`), so every sum is exact.
- Dates are integers. An absent date argument is `None`.
- The journal is a sequence of entries. Each entry has its key, account key, date, debit and credit.
- The chart of accounts is a sequence already in `code` order, which is the model's `Meta.ordering`.
- An account's category is a nullable foreign key, so it is an `Option`. Reading the category type of an account without one raises in the source. Here that becomes the `MissingCategory` error.
  - The income statement and balance sheet select accounts by category type, so they never meet such an account.
  - The trial balance walks every active account, so it fails at the first one without a category.

Module layout:

- `wrappers.dfy`: `Option`, `Result`, `Outcome`.
- `ledger.dfy` (module `Ledger`): the records, `is_debit_side`, `Journal.clean`, and the journal table with `save`.
- `balance.dfy` (module `BalanceEngine`): `get_balance` and its wrappers, with the date filter and the column sums they rest on.
- `reports.dfy` (module `FinancialReports`): the three reports.
  - Each report's loop is a method. Each method is proved equal to a specification function that builds the same document by recursion.
- `theorems.dfy` (module `ReportTheorems`): what the documents contain, and the double-entry identities.
  - The trial balance totals agree, and the balance sheet balances, for a balanced journal.

**The opening-balance rule follows the code, not the doc comments.** `get_balance` leaves out the opening balance whenever either bound is given (`accounting/models.py:69`). So `get_balance_as_of`, which passes only the upper bound, returns the movement up to the date *without* the opening balance. Several comments say the as-of figures include it:

- the doc comment at `accounting/models.py:89`;
- the trial balance docstring and comment at `accounting/financial_reports.py:163` and `:168`.

The model does what the code does. `BalanceEngine.AsOfOmitsOpeningBalance` states the gap exactly. As a consequence, the double-entry theorems about the as-of trial balance and the balance sheet need no hypothesis about opening balances. The all-time trial balance needs the opening balances, read on the debit side, to cancel out.

## Model

| member | source | states |
|---|---|---|
| Ledger.IsDebitSide | accounting/models.py:37-41 | true exactly for Asset and Expense (codes 'A', 'X'), false exactly for Liability, Equity and Income |
| Ledger.AccountIsDebitSide | accounting/models.py:37-41 | fails with MissingCategory exactly when the account has no category; otherwise true iff the category is Asset or Expense |
| Ledger.Clean | accounting/models.py:141-147 | an entry passes exactly when one of debit and credit is non-zero and the other is zero; BothAmounts exactly when both are non-zero |
| Ledger.Upsert | accounting/models.py:152 | the row write of Model.save; its contract is in UpsertStores |
| Ledger.UpsertStores | accounting/models.py:149-152 | saving keeps primary keys unique and stores the entry; only the row with the same key is replaced, and a row is added only for a new key |
| Ledger.JournalTable.constructor | accounting/models.py:127-136 | an empty journal table satisfies the table invariant |
| Ledger.JournalTable.Save | accounting/models.py:149-152 | full_clean runs first; a failing entry leaves the table unchanged, a passing one is upserted; every stored row passes clean and keys stay unique |
| BalanceEngine.SumAppend | accounting/models.py:62-66 | the Coalesce(Sum) column total is additive over concatenated entry lists |
| BalanceEngine.Sum | accounting/models.py:62-66 | Coalesce(Sum(column), 0): zero over no entries; additivity is in SumAppend |
| BalanceEngine.OfAccount | accounting/models.py:53 | self.journal_entries.all(); its contract is in OfAccountMembers |
| BalanceEngine.OfAccountMembers | accounting/models.py:53 | an entry is one of the account's entries iff it is in the journal and posts to that account |
| BalanceEngine.FilterByDate | accounting/models.py:55-60 | the range/gte/lte/none cascade; its contract is in DateFilterIsWindow |
| BalanceEngine.DateFilterIsWindow | accounting/models.py:55-60 | the four-way filter cascade (range, gte, lte, none) keeps exactly the entries inside the inclusive window, in order |
| BalanceEngine.WhereIsWindow | accounting/models.py:55-60 | a queryset filter whose test agrees with the inclusive window selects the window |
| BalanceEngine.WindowMembers | accounting/models.py:55-60 | an entry is selected iff it is in the list and each given bound holds inclusively |
| BalanceEngine.WindowKeepsAll | accounting/models.py:55-60 | a window containing every entry's date keeps the whole list |
| BalanceEngine.WindowKeepsNone | accounting/models.py:55-60 | a window containing no entry's date selects nothing |
| BalanceEngine.MovementIsColumnDifference | accounting/models.py:68-79 | summing each entry's movement on the normal side equals debit minus credit totals (debit-normal) or credit minus debit (credit-normal) |
| BalanceEngine.GetBalance | accounting/models.py:43-86 | fails with MissingCategory(id) exactly when the account has no category; is_period_balance iff a bound is given |
| BalanceEngine.GetBalanceFigures | accounting/models.py:53-86 | debit and credit are the column totals of the account's entries in the window; balance is their normal-side difference plus the opening balance only when neither bound is given |
| BalanceEngine.GetBalanceAsOf | accounting/models.py:88-90 | equals get_balance with only the upper bound; it is a period balance, and its balance is the movement up to the date with no opening balance |
| BalanceEngine.GetPeriodBalance | accounting/models.py:92-94 | equals get_balance with both bounds passed through; with any bound the balance is the movement in the window alone |
| BalanceEngine.Balance | accounting/models.py:96-99 | fails exactly for an account without a category; otherwise the opening balance plus the movement of all the account's entries |
| BalanceEngine.AsOfOmitsOpeningBalance | accounting/models.py:69-79 | when no entry is dated after d, the all-time balance exceeds the as-of-d balance by exactly the opening balance |
| BalanceEngine.WindowSplit | accounting/models.py:55-66 | the up-to-t column total is the up-to-(f-1) total plus the [f, t] total |
| BalanceEngine.AsOfSplitsIntoPeriods | accounting/models.py:69-73 | as-of figures at t are the as-of figures at f-1 plus the period figures for [f, t], for debit, credit and balance |
| BalanceEngine.NoEntriesNoTotals | accounting/models.py:62-79 | with no entry in the window both totals are zero; the balance is the opening balance with no bound, zero otherwise |
| BalanceEngine.ColumnsIgnoreCategory | accounting/models.py:62-66 | debit and credit totals depend only on the account's key, not on its category |
| BalanceEngine.WorkedExample | accounting/models.py:43-99 | an Asset account opened at 100.00 with a 50.00 debit and a 20.00 credit: all-time 130.00, as-of and period 30.00 |
| FinancialReports.ActiveAccounts | accounting/financial_reports.py:169 | keeps exactly the chart's active accounts |
| FinancialReports.ActiveOfType | accounting/financial_reports.py:15-22 | keeps exactly the active accounts whose category has the given type |
| FinancialReports.FirstUncategorised | accounting/financial_reports.py:175-177 | none iff every account has a category; otherwise the first position without one |
| FinancialReports.FirstUncategorisedAt | accounting/financial_reports.py:175-177 | a loop that met only categorised accounts before position i and fails at i is failing at the first uncategorised account |
| FinancialReports.TotalAppend | accounting/financial_reports.py:40 | the total of two line lists one after the other is the sum of their totals; a loop step appends one line and adds its amount |
| FinancialReports.NonZeroLinesStep | accounting/financial_reports.py:28-40 | one more account extends the line list by its line exactly when its balance is non-zero |
| FinancialReports.PushNonZeroLine | accounting/financial_reports.py:28-40 | one loop iteration (cash and accrual branch alike) keeps lines equal to the non-zero lines of the prefix and total equal to their sum |
| FinancialReports.CollectNonZero | accounting/financial_reports.py:28-40 | the income (or expense) loop yields exactly the non-zero lines of the active accounts of that type, and their total |
| FinancialReports.GenerateIncomeStatement | accounting/financial_reports.py:6-78 | returns the income statement document, built from the two loops, with net income their difference |
| FinancialReports.IncomeStatementOf | accounting/financial_reports.py:6-78 | the income statement document; its contract is in ReportTheorems.IncomeStatementContents and IncomeStatementIgnoresBasis |
| FinancialReports.BalanceLinesStep | accounting/financial_reports.py:107-114 | one more account extends a balance-sheet section by its as-of line |
| FinancialReports.PushBalanceLine | accounting/financial_reports.py:107-114 | one loop iteration keeps the section equal to the prefix's as-of lines and the total equal to their sum |
| FinancialReports.CollectBalances | accounting/financial_reports.py:107-136 | a section loop yields every active account of the type with its as-of balance, and the sum |
| FinancialReports.GenerateBalanceSheet | accounting/financial_reports.py:81-157 | returns the balance sheet document: three sections, equity plus the income statement's net income from the beginning to the date, liabilities plus equity |
| FinancialReports.BalanceSheetOf | accounting/financial_reports.py:81-157 | the balance sheet document; its contract is in ReportTheorems.BalanceSheetContents and AccountingEquation |
| FinancialReports.SideColumns | accounting/financial_reports.py:182-187 | both cells are non-negative, at least one is zero, and debits minus credits is the balance on the debit side (negated for credit-normal) |
| FinancialReports.BalanceRowsStep | accounting/financial_reports.py:175-196 | one more categorised account extends the as-of or all-time rows by its own row |
| FinancialReports.ActivityRowsStep | accounting/financial_reports.py:214-230 | one more categorised account extends the period rows by its own row |
| FinancialReports.RowTotalsAppend | accounting/financial_reports.py:195-196 | debit and credit totals are additive over two row lists one after the other; a loop step appends one row and adds its cells |
| FinancialReports.PushBalanceRow | accounting/financial_reports.py:175-196 | one as-of/all-time iteration either fails at the first uncategorised account or extends rows and totals to the next prefix |
| FinancialReports.CollectBalanceRows | accounting/financial_reports.py:167-205 | the as-of (and all-time) loop returns the rows and totals of the specification, or MissingCategory of the first account without a category |
| FinancialReports.PushActivityRow | accounting/financial_reports.py:214-230 | one period iteration either fails at the first uncategorised account or extends rows and totals to the next prefix |
| FinancialReports.CollectActivityRows | accounting/financial_reports.py:206-240 | the period loop returns the rows and totals of the specification, or the failure |
| FinancialReports.GenerateTrialBalance | accounting/financial_reports.py:160-278 | returns the trial balance of the specification in whichever mode the arguments select |
| FinancialReports.TrialBalanceOf | accounting/financial_reports.py:160-278 | the trial balance document; its contract is in ReportTheorems.TrialBalanceModes, BalanceRowsMembers, ActivityRowsMembers and the three agreement lemmas |
| ReportTheorems.NonZeroLinesMembers | accounting/financial_reports.py:28-40 | a line is listed iff its account is selected, has a non-zero balance for the window, and the line carries that balance |
| ReportTheorems.ZeroBalancesAddNothing | accounting/financial_reports.py:35-40 | skipping zero balances leaves the total equal to the sum of all the accounts' balances |
| ReportTheorems.IncomeStatementContents | accounting/financial_reports.py:15-78 | lists exactly the active income (expense) accounts with a non-zero balance; totals are the sums of all their balances; net income is income minus expenses |
| ReportTheorems.IncomeStatementIgnoresBasis | accounting/financial_reports.py:29-33 | cash and accrual give the same document apart from the method label |
| ReportTheorems.BalanceLinesContents | accounting/financial_reports.py:107-136 | a section has one line per account, in order, with its as-of balance (zero included), and its total is the sum |
| ReportTheorems.BalanceSheetContents | accounting/financial_reports.py:88-157 | each section has one line per active account of its type, in order, with that account's as-of balance; total equity is the equity sum plus net income up to the date; liabilities and equity is their sum |
| ReportTheorems.BalanceRowsMembers | accounting/financial_reports.py:175-196 | a row is listed iff its account is selected, categorised, has a non-zero balance, and its cells are SideColumns of that balance |
| ReportTheorems.BalanceRowShape | accounting/financial_reports.py:179-196 | every as-of/all-time row has non-negative cells, exactly one non-zero, whose difference is the balance read on the debit side |
| ReportTheorems.ActivityRowsMembers | accounting/financial_reports.py:214-230 | a period row is listed iff its account has a non-zero debit or credit total in the window, and carries those raw totals |
| ReportTheorems.TrialBalanceModes | accounting/financial_reports.py:167-241 | fails iff an active account lacks a category; else as-of when as_of_date is given, period when both bounds are, all-time otherwise |
| ReportTheorems.IdsMembers | accounting/financial_reports.py:169 | an id is in the key set iff some listed account carries it |
| ReportTheorems.ColumnTotalAppend | accounting/models.py:62-66 | the per-account column totals are additive over concatenated account lists |
| ReportTheorems.WindowAppend | accounting/models.py:55-60 | filtering by date distributes over concatenation |
| ReportTheorems.WindowOfAccount | accounting/models.py:53-60 | selecting an account's entries then the window equals the window then the account |
| ReportTheorems.SplitOffAccount | accounting/models.py:53-66 | adding a new key to a key set adds that account's column total |
| ReportTheorems.OfIdsNone | accounting/models.py:53 | no keys select no entries |
| ReportTheorems.OfIdsKeepsAll | accounting/models.py:53 | keys covering every entry select the whole journal |
| ReportTheorems.ColumnTotalOfIds | accounting/models.py:53-66 | with distinct keys, per-account totals add up to the total over all their entries in the window |
| ReportTheorems.JournalColumnTotal | accounting/models.py:53-66 | when every entry posts to a listed account, per-account totals add up to the journal's column total in the window |
| ReportTheorems.BalanceRowsNet | accounting/financial_reports.py:175-196 | total debits minus total credits of the as-of/all-time rows is the sum of the balances read on the debit side |
| ReportTheorems.DebitSideTotalIsColumns | accounting/models.py:68-79 | balances read on the debit side add up to debit minus credit per-account totals, plus opening balances only with no bound |
| ReportTheorems.ActivityRowsTotals | accounting/financial_reports.py:214-230 | the period totals are the per-account debit and credit totals in the window |
| ReportTheorems.AsOfTrialBalanceAgrees | accounting/financial_reports.py:167-205 | with a journal posting only to active categorised accounts and balanced up to d, the as-of trial balance succeeds with equal totals |
| ReportTheorems.AllTimeTrialBalanceAgrees | accounting/financial_reports.py:241-278 | with a balanced journal and opening balances cancelling on the debit side, the all-time trial balance succeeds with equal totals |
| ReportTheorems.PeriodTrialBalanceTotals | accounting/financial_reports.py:206-240 | the period trial balance succeeds and its totals are the journal's debit and credit totals over the window |
| ReportTheorems.SectionStep | accounting/financial_reports.py:15-22 | one more chart account adds its column total to its own type's section only |
| ReportTheorems.CategorisedStep | accounting/financial_reports.py:15-22 | one more chart account adds its column total to the active categorised accounts exactly when it is active and categorised |
| ReportTheorems.PartitionByType | accounting/financial_reports.py:15-22 | the five type sections together have the column total of the active categorised accounts |
| ReportTheorems.TotalBalanceOfType | accounting/models.py:69-73 | with a bound given, one type's balances add up to that type's normal-side column difference |
| ReportTheorems.SectionsNet | accounting/financial_reports.py:107-145 | with a bound, assets minus liabilities, equity and net income is the sum over the five sections of debit minus credit totals |
| ReportTheorems.AccountingEquation | accounting/financial_reports.py:138-157 | for a journal posting to active categorised accounts and balanced up to the date, total assets equal liabilities and equity |

## Left out

- `Transaction.save` / `update_account_balances` (`accounting/models.py:115-124`): the balance they recompute is discarded, so they only touch the database.
- Posting rules that would create journal entries. No ledger hook for them exists in this code. The transaction foreign key, approval flag, reference and description fields are not modelled.
- The Django ORM: querysets are sequence functions, and the chart arrives already in code order. The journal's own ordering (`transaction__date`, `id`) is whatever order the sequence has, which no sum depends on.
- Journal dates and the bounds callers pass are timezone-aware datetimes in the source (`accounting/views.py:27-28, 37, 45-46`). Here each is an integer timestamp, and the inclusive comparisons are the same as the source's. Time zones and the datetime type itself are not modelled.
- `max_digits=15` on the amount columns is not enforced: amounts are unbounded integers.
- A category code outside the five choices: the source only checks `choices` in `full_clean`, and nothing calls it for a Category, so a stray code could be stored. It would read as credit-normal (`accounting/models.py:38-41`), appear in no income-statement or balance-sheet section, and appear only in the trial balance. The model excludes such codes: `CategoryType` has exactly the five.
- `full_clean` validates field formats besides calling `clean`. Only `clean` is modelled, and every other field is taken as valid.
- Journal.save: the row is written as an update of the row with the same key, or an insert. Database errors are not modelled.
- The `print(balance)` in the balance sheet's asset loop (`accounting/financial_reports.py:109`) is console output and is left out.
- The never-used `current_balance` variable of the all-time trial balance is left out.
- The commented-out cash-basis block inside the income statement is left out.
- `yearly_basis_income_statement` and the commented-out script after it only print calendar dates.
- The report dictionaries' `'type'` strings are the `TrialKind` constructors.
- `accounting/views.py` and `accounting/urls.py` are HTTP plumbing and are not part of this model. The same goes for the `core`, `inventory`, `reports` and `api` apps.
