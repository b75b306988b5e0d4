/**
 * The ledger's records (accounting/models.py): categories, accounts and
 * journal entries, the debit-or-credit validation of an entry, and the
 * journal table, which stores an entry only once it passes that validation.
 *
 * Amounts are decimals with two places in the source; here they are whole
 * cents, so all arithmetic on them is exact. Dates are integers.
 */
module Ledger {
  import opened Wrappers

  /** Category.category_type: the five choices of the chart of accounts. */
  datatype CategoryType = Asset | Liability | Equity | Income | Expense {
    /** The one-letter value stored in the category_type column. */
    function Code(): char {
      match this
      case Asset => 'A'
      case Liability => 'L'
      case Equity => 'E'
      case Income => 'I'
      case Expense => 'X'
    }
  }

  /**
   * Whether accounts of this type are debit-normal: the stored code is 'A'
   * or 'X'. The balance engine and the trial balance branch on this test.
   */
  function IsDebitSide(t: CategoryType): (r: bool)
    ensures r <==> t == Asset || t == Expense
    ensures !r <==> t == Liability || t == Equity || t == Income
  {
    t.Code() in ['A', 'X']
  }

  /** An Accounting_Account row. The category is a nullable foreign key. */
  datatype Account = Account(
    id: nat,
    code: string,
    category: Option<CategoryType>,
    openingBalance: int,
    isActive: bool)

  /** A Journal row: the account it posts to, its date, and its two amount columns. */
  datatype Entry = Entry(id: nat, account: nat, date: int, debit: int, credit: int)

  /** Reading the category type of an account whose category is null. */
  datatype LedgerError = MissingCategory(account: nat)

  /** Accounting_Account.is_debit_side, which fails on an account without a category. */
  function AccountIsDebitSide(a: Account): (r: Result<bool, LedgerError>)
    ensures r.Err? <==> a.category.None?
    ensures r.Err? ==> r.error == MissingCategory(a.id)
    ensures r.Ok? ==> (r.value <==> a.category == Some(Asset) || a.category == Some(Expense))
  {
    match a.category
    case None => Err(MissingCategory(a.id))
    case Some(t) => Ok(IsDebitSide(t))
  }

  /** The two ValidationErrors Journal.clean raises. */
  datatype CleanError = BothAmounts | NoAmount

  /** Journal.clean: an entry must carry exactly one of a debit and a credit. */
  function Clean(e: Entry): (r: Outcome<CleanError>)
    ensures r.Pass? <==> (e.debit != 0 <==> e.credit == 0)
    ensures r == Fail(BothAmounts) <==> e.debit != 0 && e.credit != 0
  {
    if e.debit != 0 && e.credit != 0 then Fail(BothAmounts)
    else if e.debit == 0 && e.credit == 0 then Fail(NoAmount)
    else Pass
  }

  predicate HasId(rows: seq<Entry>, id: nat) {
    exists i :: 0 <= i < |rows| && rows[i].id == id
  }

  /** No two stored rows share a primary key. */
  predicate UniqueIds(rows: seq<Entry>) {
    forall i, j :: 0 <= i < j < |rows| ==> rows[i].id != rows[j].id
  }

  /** The rows after an UPDATE of the row whose key is e.id. */
  function Overwrite(rows: seq<Entry>, e: Entry): (r: seq<Entry>)
    ensures |r| == |rows|
    ensures forall i :: 0 <= i < |rows| ==> r[i] == if rows[i].id == e.id then e else rows[i]
  {
    if rows == [] then []
    else [if rows[0].id == e.id then e else rows[0]] + Overwrite(rows[1..], e)
  }

  /** Model.save: update the row with e's key when there is one, insert e otherwise. */
  function Upsert(rows: seq<Entry>, e: Entry): seq<Entry> {
    if HasId(rows, e.id) then Overwrite(rows, e) else rows + [e]
  }

  /**
   * Saving keeps the keys unique, stores e, replaces only the row with e's
   * key, and adds a row only when the key was new.
   */
  lemma UpsertStores(rows: seq<Entry>, e: Entry)
    requires UniqueIds(rows)
    ensures UniqueIds(Upsert(rows, e))
    ensures e in Upsert(rows, e)
    ensures |Upsert(rows, e)| == if HasId(rows, e.id) then |rows| else |rows| + 1
    ensures forall x :: x in Upsert(rows, e) ==> x == e || (x in rows && x.id != e.id)
    ensures forall x :: x in rows && x.id != e.id ==> x in Upsert(rows, e)
  {
    var r := Upsert(rows, e);
    if HasId(rows, e.id) {
      var k :| 0 <= k < |rows| && rows[k].id == e.id;
      assert r[k] == e;
      forall x | x in r ensures x == e || (x in rows && x.id != e.id) {
        var i :| 0 <= i < |r| && r[i] == x;
        if rows[i].id != e.id {
          assert x == rows[i];
        }
      }
      forall x | x in rows && x.id != e.id ensures x in r {
        var i :| 0 <= i < |rows| && rows[i] == x;
        assert r[i] == x;
      }
    } else {
      assert r[|rows|] == e;
    }
  }

  /** The Journal table: every stored row passed Journal.clean and keys are unique. */
  class JournalTable {
    var rows: seq<Entry>

    ghost predicate Valid()
      reads this
    {
      UniqueIds(rows) && forall i :: 0 <= i < |rows| ==> Clean(rows[i]).Pass?
    }

    constructor ()
      ensures Valid() && rows == []
    {
      rows := [];
    }

    /**
     * Journal.save: full_clean first, which raises on an invalid entry and
     * leaves the table unchanged; then the row is written.
     */
    method Save(e: Entry) returns (outcome: Outcome<CleanError>)
      requires Valid()
      modifies this
      ensures Valid()
      ensures outcome == Clean(e)
      ensures outcome.Pass? ==> rows == Upsert(old(rows), e)
      ensures outcome.Fail? ==> rows == old(rows)
    {
      outcome := Clean(e);
      if outcome.Pass? {
        UpsertStores(rows, e);
        var next := Upsert(rows, e);
        forall i | 0 <= i < |next| ensures Clean(next[i]).Pass? {
          assert next[i] in next;
        }
        rows := next;
      }
    }
  }
}
