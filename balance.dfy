/**
 * The balance engine of accounting/models.py: Accounting_Account.get_balance
 * and the three accessors built on it.
 *
 * get_balance selects an account's journal entries, narrows them by an
 * optional inclusive date window, totals the debit and credit columns and
 * signs the difference by the category's normal side. The opening balance is
 * added only when neither bound is given: as written, get_balance_as_of sets
 * a bound and so reports the movement up to the date without the opening
 * balance.
 */
module BalanceEngine {
  import opened Wrappers
  import opened Ledger

  /** The two amount columns of a journal entry. */
  datatype Column = DebitColumn | CreditColumn

  function Amount(e: Entry, c: Column): int {
    match c
    case DebitColumn => e.debit
    case CreditColumn => e.credit
  }

  /** Coalesce(Sum(column), 0): the column total, zero over no entries. */
  function Sum(es: seq<Entry>, c: Column): int {
    if es == [] then 0 else Amount(es[0], c) + Sum(es[1..], c)
  }

  lemma {:induction false} SumAppend(xs: seq<Entry>, ys: seq<Entry>, c: Column)
    ensures Sum(xs + ys, c) == Sum(xs, c) + Sum(ys, c)
  {
    if xs == [] {
      assert xs + ys == ys;
    } else {
      assert (xs + ys)[1..] == xs[1..] + ys;
      SumAppend(xs[1..], ys, c);
    }
  }

  /** self.journal_entries.all(): the entries that post to account `id`, in order. */
  function OfAccount(es: seq<Entry>, id: nat): seq<Entry> {
    if es == [] then []
    else (if es[0].account == id then [es[0]] else []) + OfAccount(es[1..], id)
  }

  /** An entry is one of the account's entries exactly when it is in the journal and posts to that account. */
  lemma {:induction false} OfAccountMembers(es: seq<Entry>, id: nat, e: Entry)
    ensures e in OfAccount(es, id) <==> e in es && e.account == id
  {
    if es != [] {
      OfAccountMembers(es[1..], id, e);
      assert es == [es[0]] + es[1..];
    }
  }

  /** Each bound that is given limits the date inclusively; a missing bound does not. */
  predicate InWindow(date: int, from: Option<int>, to: Option<int>) {
    (from.None? || from.value <= date) && (to.None? || date <= to.value)
  }

  /** The entries dated inside the window, in their order. */
  function Window(es: seq<Entry>, from: Option<int>, to: Option<int>): seq<Entry> {
    if es == [] then []
    else (if InWindow(es[0].date, from, to) then [es[0]] else []) + Window(es[1..], from, to)
  }

  /** A queryset .filter(...): the entries satisfying `keep`, in their order. */
  function Where(es: seq<Entry>, keep: Entry -> bool): seq<Entry> {
    if es == [] then []
    else (if keep(es[0]) then [es[0]] else []) + Where(es[1..], keep)
  }

  /**
   * The bound cascade of get_balance: date__range when both bounds are
   * given, else date__gte, else date__lte, else no filter.
   */
  function FilterByDate(es: seq<Entry>, from: Option<int>, to: Option<int>): seq<Entry> {
    if from.Some? && to.Some? then
      var lo, hi := from.value, to.value;
      Where(es, (e: Entry) => lo <= e.date <= hi)
    else if from.Some? then
      var lo := from.value;
      Where(es, (e: Entry) => e.date >= lo)
    else if to.Some? then
      var hi := to.value;
      Where(es, (e: Entry) => e.date <= hi)
    else
      es
  }

  lemma {:induction false} WhereIsWindow(es: seq<Entry>, keep: Entry -> bool, from: Option<int>, to: Option<int>)
    requires forall e :: e in es ==> keep(e) == InWindow(e.date, from, to)
    ensures Where(es, keep) == Window(es, from, to)
  {
    if es != [] {
      WhereIsWindow(es[1..], keep, from, to);
    }
  }

  /** A window that every entry falls in keeps them all. */
  lemma {:induction false} WindowKeepsAll(es: seq<Entry>, from: Option<int>, to: Option<int>)
    requires forall e :: e in es ==> InWindow(e.date, from, to)
    ensures Window(es, from, to) == es
  {
    if es != [] {
      WindowKeepsAll(es[1..], from, to);
      assert es == [es[0]] + es[1..];
    }
  }

  /** The four-way cascade selects exactly the entries inside the inclusive window. */
  lemma DateFilterIsWindow(es: seq<Entry>, from: Option<int>, to: Option<int>)
    ensures FilterByDate(es, from, to) == Window(es, from, to)
  {
    if from.Some? && to.Some? {
      var lo, hi := from.value, to.value;
      WhereIsWindow(es, (e: Entry) => lo <= e.date <= hi, from, to);
    } else if from.Some? {
      var lo := from.value;
      WhereIsWindow(es, (e: Entry) => e.date >= lo, from, to);
    } else if to.Some? {
      var hi := to.value;
      WhereIsWindow(es, (e: Entry) => e.date <= hi, from, to);
    } else {
      WindowKeepsAll(es, from, to);
    }
  }

  /** A window that no entry falls in selects nothing. */
  lemma {:induction false} WindowKeepsNone(es: seq<Entry>, from: Option<int>, to: Option<int>)
    requires forall e :: e in es ==> !InWindow(e.date, from, to)
    ensures Window(es, from, to) == []
  {
    if es != [] {
      WindowKeepsNone(es[1..], from, to);
    }
  }

  /** An entry is selected exactly when it is one of the account's entries and lies in the window. */
  lemma {:induction false} WindowMembers(es: seq<Entry>, from: Option<int>, to: Option<int>, e: Entry)
    ensures e in Window(es, from, to) <==> e in es && InWindow(e.date, from, to)
  {
    if es != [] {
      WindowMembers(es[1..], from, to, e);
      assert es == [es[0]] + es[1..];
    }
  }

  /** How far one entry moves a balance kept on the given normal side. */
  function Movement(e: Entry, debitSide: bool): int {
    if debitSide then e.debit - e.credit else e.credit - e.debit
  }

  /** The entries' movements added one by one. */
  function TotalMovement(es: seq<Entry>, debitSide: bool): int {
    if es == [] then 0 else Movement(es[0], debitSide) + TotalMovement(es[1..], debitSide)
  }

  /** Adding movements entry by entry is the difference of the two column totals. */
  lemma {:induction false} MovementIsColumnDifference(es: seq<Entry>, debitSide: bool)
    ensures TotalMovement(es, debitSide) ==
      if debitSide then Sum(es, DebitColumn) - Sum(es, CreditColumn)
      else Sum(es, CreditColumn) - Sum(es, DebitColumn)
  {
    if es != [] {
      MovementIsColumnDifference(es[1..], debitSide);
    }
  }

  /** The dictionary get_balance returns. */
  datatype BalanceInfo = BalanceInfo(debit: int, credit: int, balance: int, isPeriodBalance: bool)

  /**
   * Accounting_Account.get_balance. It fails when the account has no
   * category. Otherwise debit and credit are the column totals of the
   * account's entries inside the window, and the balance is their movement
   * on the normal side, plus the opening balance only when no bound is given.
   */
  function GetBalance(a: Account, journal: seq<Entry>, from: Option<int>, to: Option<int>): (r: Result<BalanceInfo, LedgerError>)
    ensures r.Err? <==> a.category.None?
    ensures r.Err? ==> r.error == MissingCategory(a.id)
    ensures r.Ok? ==> (r.value.isPeriodBalance <==> from.Some? || to.Some?)
  {
    var entries := FilterByDate(OfAccount(journal, a.id), from, to);
    var totalDebit := Sum(entries, DebitColumn);
    var totalCredit := Sum(entries, CreditColumn);
    match a.category
    case None => Err(MissingCategory(a.id))
    case Some(t) =>
      var balance :=
        if from.Some? || to.Some? then
          (if IsDebitSide(t) then totalDebit - totalCredit else totalCredit - totalDebit)
        else
          (if IsDebitSide(t) then a.openingBalance + totalDebit - totalCredit
           else a.openingBalance + totalCredit - totalDebit);
      Ok(BalanceInfo(totalDebit, totalCredit, balance, from.Some? || to.Some?))
  }

  /**
   * What get_balance reports for a categorised account: debit and credit
   * are the column totals of the account's entries inside the window, and
   * the balance is their movement on the normal side, plus the opening
   * balance only when no bound is given.
   */
  lemma GetBalanceFigures(a: Account, journal: seq<Entry>, from: Option<int>, to: Option<int>)
    ensures var r := GetBalance(a, journal, from, to);
      r.Ok? ==>
        && r.value.debit == Sum(Window(OfAccount(journal, a.id), from, to), DebitColumn)
        && r.value.credit == Sum(Window(OfAccount(journal, a.id), from, to), CreditColumn)
        && r.value.balance ==
             (if from.None? && to.None? then a.openingBalance else 0)
             + TotalMovement(Window(OfAccount(journal, a.id), from, to), IsDebitSide(a.category.value))
  {
    var entries := FilterByDate(OfAccount(journal, a.id), from, to);
    DateFilterIsWindow(OfAccount(journal, a.id), from, to);
    if a.category.Some? {
      MovementIsColumnDifference(entries, IsDebitSide(a.category.value));
    }
  }

  /**
   * get_balance_as_of: get_balance with only the upper bound. Because a
   * bound is set, the balance is the movement up to the date, without the
   * opening balance.
   */
  function GetBalanceAsOf(a: Account, journal: seq<Entry>, asOf: int): (r: Result<BalanceInfo, LedgerError>)
    ensures r == GetBalance(a, journal, None, Some(asOf))
    ensures r.Ok? ==> r.value.isPeriodBalance
    ensures r.Ok? ==>
      r.value.balance == TotalMovement(Window(OfAccount(journal, a.id), None, Some(asOf)), IsDebitSide(a.category.value))
  {
    GetBalanceFigures(a, journal, None, Some(asOf));
    GetBalance(a, journal, None, Some(asOf))
  }

  /**
   * get_period_balance: get_balance with both bounds passed through. When
   * either is given the opening balance is left out.
   */
  function GetPeriodBalance(a: Account, journal: seq<Entry>, from: Option<int>, to: Option<int>): (r: Result<BalanceInfo, LedgerError>)
    ensures r == GetBalance(a, journal, from, to)
    ensures r.Ok? && (from.Some? || to.Some?) ==>
      r.value.balance == TotalMovement(Window(OfAccount(journal, a.id), from, to), IsDebitSide(a.category.value))
  {
    GetBalanceFigures(a, journal, from, to);
    GetBalance(a, journal, from, to)
  }

  /**
   * The balance property: the all-time balance, that is the opening balance
   * plus the movement of every entry of the account.
   */
  function Balance(a: Account, journal: seq<Entry>): (r: Result<int, LedgerError>)
    ensures r.Err? <==> a.category.None?
    ensures r.Ok? ==> r.value == a.openingBalance + TotalMovement(OfAccount(journal, a.id), IsDebitSide(a.category.value))
  {
    WindowKeepsAll(OfAccount(journal, a.id), None, None);
    GetBalanceFigures(a, journal, None, None);
    match GetBalance(a, journal, None, None)
    case Ok(info) => Ok(info.balance)
    case Err(e) => Err(e)
  }

  /**
   * When no entry of the account is dated after d, the as-of balance at d
   * falls short of the all-time balance by exactly the opening balance.
   */
  lemma AsOfOmitsOpeningBalance(a: Account, journal: seq<Entry>, d: int)
    requires a.category.Some?
    requires forall e :: e in OfAccount(journal, a.id) ==> e.date <= d
    ensures Balance(a, journal).value == a.openingBalance + GetBalanceAsOf(a, journal, d).value.balance
  {
    WindowKeepsAll(OfAccount(journal, a.id), None, Some(d));
    GetBalanceFigures(a, journal, None, Some(d));
  }

  /** Up-to-t totals split at f into up-to-(f-1) totals and the [f, t] totals. */
  lemma {:induction false} WindowSplit(es: seq<Entry>, f: int, t: int, c: Column)
    requires f <= t + 1
    ensures Sum(Window(es, None, Some(t)), c) ==
      Sum(Window(es, None, Some(f - 1)), c) + Sum(Window(es, Some(f), Some(t)), c)
  {
    if es != [] {
      WindowSplit(es[1..], f, t, c);
      var head := [es[0]];
      var x := if InWindow(es[0].date, None, Some(t)) then head else [];
      var y := if InWindow(es[0].date, None, Some(f - 1)) then head else [];
      var z := if InWindow(es[0].date, Some(f), Some(t)) then head else [];
      SumAppend(x, Window(es[1..], None, Some(t)), c);
      SumAppend(y, Window(es[1..], None, Some(f - 1)), c);
      SumAppend(z, Window(es[1..], Some(f), Some(t)), c);
    }
  }

  /**
   * As-of figures are additive over adjacent periods: the figures as of t
   * are those as of f - 1 plus the period figures for [f, t]. This holds
   * exactly because neither side includes the opening balance.
   */
  lemma AsOfSplitsIntoPeriods(a: Account, journal: seq<Entry>, f: int, t: int)
    requires a.category.Some?
    requires f <= t + 1
    ensures GetBalanceAsOf(a, journal, t).value.debit ==
      GetBalanceAsOf(a, journal, f - 1).value.debit + GetPeriodBalance(a, journal, Some(f), Some(t)).value.debit
    ensures GetBalanceAsOf(a, journal, t).value.credit ==
      GetBalanceAsOf(a, journal, f - 1).value.credit + GetPeriodBalance(a, journal, Some(f), Some(t)).value.credit
    ensures GetBalanceAsOf(a, journal, t).value.balance ==
      GetBalanceAsOf(a, journal, f - 1).value.balance + GetPeriodBalance(a, journal, Some(f), Some(t)).value.balance
  {
    var es := OfAccount(journal, a.id);
    var side := IsDebitSide(a.category.value);
    GetBalanceFigures(a, journal, None, Some(t));
    GetBalanceFigures(a, journal, None, Some(f - 1));
    GetBalanceFigures(a, journal, Some(f), Some(t));
    WindowSplit(es, f, t, DebitColumn);
    WindowSplit(es, f, t, CreditColumn);
    MovementIsColumnDifference(Window(es, None, Some(t)), side);
    MovementIsColumnDifference(Window(es, None, Some(f - 1)), side);
    MovementIsColumnDifference(Window(es, Some(f), Some(t)), side);
  }

  /**
   * With no entry of the account inside the window both totals are zero,
   * and the balance is the opening balance when no bound is given, zero
   * otherwise.
   */
  lemma NoEntriesNoTotals(a: Account, journal: seq<Entry>, from: Option<int>, to: Option<int>)
    requires a.category.Some?
    requires forall e :: e in OfAccount(journal, a.id) ==> !InWindow(e.date, from, to)
    ensures GetBalance(a, journal, from, to).value.debit == 0
    ensures GetBalance(a, journal, from, to).value.credit == 0
    ensures GetBalance(a, journal, from, to).value.balance == if from.None? && to.None? then a.openingBalance else 0
  {
    WindowKeepsNone(OfAccount(journal, a.id), from, to);
    GetBalanceFigures(a, journal, from, to);
  }

  /**
   * The debit and credit totals depend on the account's key only, not on
   * its category, opening balance or active flag.
   */
  lemma ColumnsIgnoreCategory(a: Account, b: Account, journal: seq<Entry>, from: Option<int>, to: Option<int>)
    requires a.id == b.id && a.category.Some? && b.category.Some?
    ensures GetBalance(a, journal, from, to).value.debit == GetBalance(b, journal, from, to).value.debit
    ensures GetBalance(a, journal, from, to).value.credit == GetBalance(b, journal, from, to).value.credit
  {
    GetBalanceFigures(a, journal, from, to);
    GetBalanceFigures(b, journal, from, to);
  }

  /**
   * A debit-normal account opened at 100.00 with a 50.00 debit and a 20.00
   * credit up to day 10: its all-time balance is 130.00, while its as-of
   * and period balances are both 30.00.
   */
  lemma WorkedExample()
    ensures var cash := Account(1, "1000", Some(Asset), 10000, true);
            var journal := [Entry(1, 1, 5, 5000, 0), Entry(2, 1, 7, 0, 2000)];
            && Balance(cash, journal) == Ok(13000)
            && GetBalanceAsOf(cash, journal, 10).value.balance == 3000
            && GetPeriodBalance(cash, journal, Some(1), Some(10)).value.balance == 3000
  {
    var cash := Account(1, "1000", Some(Asset), 10000, true);
    var journal := [Entry(1, 1, 5, 5000, 0), Entry(2, 1, 7, 0, 2000)];
    assert OfAccount(journal, 1) == journal;
    assert Window(journal, None, Some(10)) == journal;
    assert Window(journal, Some(1), Some(10)) == journal;
    GetBalanceFigures(cash, journal, None, None);
    GetBalanceFigures(cash, journal, None, Some(10));
    GetBalanceFigures(cash, journal, Some(1), Some(10));
  }
}
