/**
 * Importing a parsed OFX statement into one account
 * (orcamento_2026/core/services/import_ofx.py): every record is looked up by
 * the account and its fitid and created when missing; the result is the number
 * of rows created.
 */
module ImportOfx {
  import opened Wrappers
  import opened Dates
  import opened Seqs
  import opened Models
  import opened Database

  /** A statement transaction as the OFX parser delivers it: `tx.id`, `tx.amount`
      (in cents), `tx.date.date()` and `tx.memo`. */
  datatype OfxRecord = OfxRecord(id: string, amount: int, date: Date, memo: Option<string>)

  /** `tx.memo or ""`. */
  function MemoOrEmpty(memo: Option<string>): string
  {
    if memo.Some? then memo.value else ""
  }

  /** The row `get_or_create` builds from a record. */
  function NewRow(db: Db, account: Id, rec: OfxRecord, referenceDate: Option<Date>): Transaction
  {
    Transaction(|db.transactions|, rec.id, account, rec.amount, rec.date, referenceDate, MemoOrEmpty(rec.memo))
  }

  /** `account.transaction_set.get_or_create(fitid=rec.id, defaults={...})` for
      one record: whether a row was created, or the error raised.  The lookup
      is by account and fitid; a new row must still respect the unique fitid. */
  function ImportRecord(db: Db, account: Id, rec: OfxRecord, referenceDate: Option<Date>): (r: (Result<bool, DbError>, Db))
    ensures r.0 == Success(true) ==> r.1 == db.(transactions := db.transactions + [NewRow(db, account, rec, referenceDate)])
    ensures r.0 != Success(true) ==> r.1 == db
    ensures r.0 == Success(false) ==> StoredFor(db, account, rec.id)
  {
    var (got, db') := GetOrCreateTransaction(db, account, rec.id, rec.amount, rec.date, referenceDate,
                                             MemoOrEmpty(rec.memo));
    if got.Failure? then (Failure(got.error), db')
    else
      assert !got.value.1 ==> got.value.0 in db.transactions;
      (Success(got.value.1), db')
  }

  /** One record keeps the constraints when the account exists. */
  lemma ImportRecordKeepsValid(db: Db, account: Id, rec: OfxRecord, referenceDate: Option<Date>)
    requires Valid(db) && account < |db.accounts|
    ensures Valid(ImportRecord(db, account, rec, referenceDate).1)
  {
  }

  /** A row with this fitid is stored for this account. */
  predicate StoredFor(db: Db, account: Id, fitid: string)
  {
    exists i :: 0 <= i < |db.transactions| && db.transactions[i].fitid == fitid && db.transactions[i].account == account
  }

  /** A record whose fitid is already stored for the account creates nothing and changes nothing. */
  lemma ImportRecordSkipsKnown(db: Db, account: Id, rec: OfxRecord, referenceDate: Option<Date>)
    requires Valid(db) && StoredFor(db, account, rec.id)
    ensures ImportRecord(db, account, rec, referenceDate) == (Success(false), db)
  {
    var i :| 0 <= i < |db.transactions| && db.transactions[i].fitid == rec.id && db.transactions[i].account == account;
    GetOrCreateTransactionCases(db, account, rec.id, rec.amount, rec.date, referenceDate, MemoOrEmpty(rec.memo));
  }

  /** A record fails only when its fitid is taken, by a row of another account. */
  lemma ImportRecordFailure(db: Db, account: Id, rec: OfxRecord, referenceDate: Option<Date>)
    requires Valid(db)
    ensures ImportRecord(db, account, rec, referenceDate).0.Failure? <==>
            FitidTaken(db, rec.id) && !StoredFor(db, account, rec.id)
  {
    GetOrCreateTransactionCases(db, account, rec.id, rec.amount, rec.date, referenceDate, MemoOrEmpty(rec.memo));
    if FitidTaken(db, rec.id) && !StoredFor(db, account, rec.id) {
      var k :| 0 <= k < |db.transactions| && db.transactions[k].fitid == rec.id;
    }
  }

  /** The records from position `i` on imported in order into `db`, where
      `created` rows were created before; the first database error stops the
      import, and the rows created before it stay (there is no enclosing
      transaction). */
  function ImportFrom(db: Db, account: Id, records: seq<OfxRecord>, i: nat, created: nat, referenceDate: Option<Date>)
    : (r: (Result<nat, DbError>, Db))
    requires i <= |records|
    ensures r.0.Success? ==> created <= r.0.value <= created + |records| - i
    decreases |records| - i
  {
    if i == |records| then (Success(created), db)
    else
      var (got, db1) := ImportRecord(db, account, records[i], referenceDate);
      match got
      case Failure(e) => (Failure(e), db1)
      case Success(isNew) => ImportFrom(db1, account, records, i + 1, if isNew then created + 1 else created, referenceDate)
  }

  /** The whole statement imported: the value of `transactions_created`, or the error raised. */
  function ImportAll(db: Db, account: Id, records: seq<OfxRecord>, referenceDate: Option<Date>)
    : (r: (Result<nat, DbError>, Db))
    ensures r.0.Success? ==> r.0.value <= |records|
  {
    ImportFrom(db, account, records, 0, 0, referenceDate)
  }

  /** The import keeps the constraints. */
  lemma {:induction false} ImportKeepsValid(db: Db, account: Id, records: seq<OfxRecord>, i: nat, created: nat,
                                            referenceDate: Option<Date>)
    requires Valid(db) && account < |db.accounts| && i <= |records|
    ensures Valid(ImportFrom(db, account, records, i, created, referenceDate).1)
    decreases |records| - i
  {
    if i < |records| {
      var step := ImportRecord(db, account, records[i], referenceDate);
      ImportRecordKeepsValid(db, account, records[i], referenceDate);
      if step.0.Success? {
        var created1 := if step.0.value then created + 1 else created;
        assert ImportFrom(db, account, records, i, created, referenceDate)
            == ImportFrom(step.1, account, records, i + 1, created1, referenceDate);
        ImportKeepsValid(step.1, account, records, i + 1, created1, referenceDate);
      }
    }
  }

  /** The import changes only the transaction table and keeps the rows it had. */
  lemma {:induction false} ImportKeepsRows(db: Db, account: Id, records: seq<OfxRecord>, i: nat, created: nat,
                                           referenceDate: Option<Date>)
    requires i <= |records|
    ensures var r := ImportFrom(db, account, records, i, created, referenceDate);
      && r.1 == db.(transactions := r.1.transactions)
      && |db.transactions| <= |r.1.transactions| && r.1.transactions[..|db.transactions|] == db.transactions
    decreases |records| - i
  {
    if i < |records| {
      var step := ImportRecord(db, account, records[i], referenceDate);
      if step.0.Success? {
        var created1 := if step.0.value then created + 1 else created;
        var r := ImportFrom(step.1, account, records, i + 1, created1, referenceDate);
        assert ImportFrom(db, account, records, i, created, referenceDate) == r;
        ImportKeepsRows(step.1, account, records, i + 1, created1, referenceDate);
        assert r.1.transactions[..|db.transactions|] == r.1.transactions[..|step.1.transactions|][..|db.transactions|];
      }
    }
  }

  /** A successful import adds as many rows as it reports. */
  lemma {:induction false} ImportCountsRows(db: Db, account: Id, records: seq<OfxRecord>, i: nat, created: nat,
                                            referenceDate: Option<Date>)
    requires i <= |records|
    ensures var r := ImportFrom(db, account, records, i, created, referenceDate);
      r.0.Success? ==> |r.1.transactions| + created == |db.transactions| + r.0.value
    decreases |records| - i
  {
    if i < |records| {
      var step := ImportRecord(db, account, records[i], referenceDate);
      if step.0.Success? {
        var created1 := if step.0.value then created + 1 else created;
        assert ImportFrom(db, account, records, i, created, referenceDate)
            == ImportFrom(step.1, account, records, i + 1, created1, referenceDate);
        ImportCountsRows(step.1, account, records, i + 1, created1, referenceDate);
      }
    }
  }

  /** A fitid already stored under another account is not skipped: the import raises the uniqueness error. */
  lemma {:induction false} ImportFailsOnFitidOfAnotherAccount(db: Db, account: Id, records: seq<OfxRecord>, i: nat,
                                                              created: nat, referenceDate: Option<Date>, k: nat, row: nat)
    requires Valid(db) && account < |db.accounts|
    requires i <= k < |records| && row < |db.transactions|
    requires db.transactions[row].fitid == records[k].id && db.transactions[row].account != account
    ensures ImportFrom(db, account, records, i, created, referenceDate).0.Failure?
    decreases k - i
  {
    var rec := records[i];
    var (got, db1) := ImportRecord(db, account, rec, referenceDate);
    if i == k {
      GetOrCreateTransactionCases(db, account, rec.id, rec.amount, rec.date, referenceDate, MemoOrEmpty(rec.memo));
    } else if got.Success? {
      assert db1.transactions[row] == db.transactions[row];
      ImportFailsOnFitidOfAnotherAccount(db1, account, records, i + 1, if got.value then created + 1 else created,
                                         referenceDate, k, row);
    }
  }

  /** After a successful import every record is stored for the account. */
  lemma {:induction false} ImportStoresEveryRecord(db: Db, account: Id, records: seq<OfxRecord>, i: nat, created: nat,
                                                   referenceDate: Option<Date>, k: nat)
    requires i <= k < |records| && ImportFrom(db, account, records, i, created, referenceDate).0.Success?
    ensures StoredFor(ImportFrom(db, account, records, i, created, referenceDate).1, account, records[k].id)
    decreases k - i
  {
    var step := ImportRecord(db, account, records[i], referenceDate);
    var created1 := if step.0.value then created + 1 else created;
    var r := ImportFrom(step.1, account, records, i + 1, created1, referenceDate);
    assert ImportFrom(db, account, records, i, created, referenceDate) == r;
    if i < k {
      ImportStoresEveryRecord(step.1, account, records, i + 1, created1, referenceDate, k);
    } else {
      var j: nat;
      if step.0.value {
        j := |db.transactions|;
      } else {
        j :| 0 <= j < |db.transactions| && db.transactions[j].fitid == records[k].id && db.transactions[j].account == account;
      }
      ImportKeepsRows(step.1, account, records, i + 1, created1, referenceDate);
      assert r.1.transactions[j] == step.1.transactions[j];
    }
  }

  /** Every row the import adds carries the data of one of the records, with
      the empty memo for a record without one. */
  lemma {:induction false} ImportedRowsComeFromRecords(db: Db, account: Id, records: seq<OfxRecord>, i: nat, created: nat,
                                                       referenceDate: Option<Date>, j: nat)
    requires i <= |records|
    requires |db.transactions| <= j < |ImportFrom(db, account, records, i, created, referenceDate).1.transactions|
    ensures var t := ImportFrom(db, account, records, i, created, referenceDate).1.transactions[j];
      exists k :: i <= k < |records| && t == Transaction(j, records[k].id, account, records[k].amount,
                                                          records[k].date, referenceDate, MemoOrEmpty(records[k].memo))
    decreases |records| - i
  {
    var step := ImportRecord(db, account, records[i], referenceDate);
    if step.0.Success? {
      var created1 := if step.0.value then created + 1 else created;
      var r := ImportFrom(step.1, account, records, i + 1, created1, referenceDate);
      assert ImportFrom(db, account, records, i, created, referenceDate) == r;
      if j < |step.1.transactions| {
        ImportKeepsRows(step.1, account, records, i + 1, created1, referenceDate);
        assert step.1.transactions[j] == NewRow(db, account, records[i], referenceDate);
        assert r.1.transactions[j] == step.1.transactions[j];
      } else {
        ImportedRowsComeFromRecords(step.1, account, records, i + 1, created1, referenceDate, j);
      }
    }
  }

  /** Importing into a database that already holds every fitid for the account
      creates nothing and changes nothing. */
  lemma {:induction false} ImportOfKnownRecordsIsNoOp(db: Db, account: Id, records: seq<OfxRecord>, i: nat, created: nat,
                                                      referenceDate: Option<Date>)
    requires Valid(db) && i <= |records|
    requires forall k :: 0 <= k < |records| ==> StoredFor(db, account, records[k].id)
    ensures ImportFrom(db, account, records, i, created, referenceDate) == (Success(created), db)
    decreases |records| - i
  {
    if i < |records| {
      ImportRecordSkipsKnown(db, account, records[i], referenceDate);
      ImportOfKnownRecordsIsNoOp(db, account, records, i + 1, created, referenceDate);
    }
  }

  /** Importing the same statement twice: the second run reports 0 and changes nothing. */
  lemma ImportTwiceCreatesNothing(db: Db, account: Id, records: seq<OfxRecord>, referenceDate: Option<Date>,
                                  referenceDate2: Option<Date>)
    requires Valid(db) && account < |db.accounts|
    requires ImportAll(db, account, records, referenceDate).0.Success?
    ensures var db' := ImportAll(db, account, records, referenceDate).1;
      ImportAll(db', account, records, referenceDate2) == (Success(0), db')
  {
    var db' := ImportAll(db, account, records, referenceDate).1;
    ImportKeepsValid(db, account, records, 0, 0, referenceDate);
    forall k | 0 <= k < |records| ensures StoredFor(db', account, records[k].id) {
      ImportStoresEveryRecord(db, account, records, 0, 0, referenceDate, k);
    }
    ImportOfKnownRecordsIsNoOp(db', account, records, 0, 0, referenceDate2);
  }

  /** One pass of the loop body: get-or-create the record's row. */
  method ImportOne(store: Store, account: Id, rec: OfxRecord, referenceDate: Option<Date>)
    returns (r: Result<bool, DbError>)
    requires store.Valid() && account < |store.accounts|
    modifies store
    ensures store.Valid() && account < |store.accounts|
    ensures (r, store.State()) == ImportRecord(old(store.State()), account, rec, referenceDate)
  {
    var got := store.GetOrCreateTransaction(account, rec.id, rec.amount, rec.date, referenceDate, MemoOrEmpty(rec.memo));
    if got.Failure? {
      return Failure(got.error);
    }
    return Success(got.value.1);
  }

  /** `import_ofx(file_path, account, reference_date)` on the parsed records:
      the value of `transactions_created`, or the error raised. */
  method ImportOfxRecords(store: Store, account: Id, records: seq<OfxRecord>, referenceDate: Option<Date>)
    returns (r: Result<nat, DbError>)
    requires store.Valid() && account < |store.accounts|
    modifies store
    ensures store.Valid()
    ensures (r, store.State()) == ImportAll(old(store.State()), account, records, referenceDate)
  {
    ghost var total := ImportAll(store.State(), account, records, referenceDate);
    var created := 0;
    var i := 0;
    while i < |records|
      invariant 0 <= i <= |records|
      invariant store.Valid() && account < |store.accounts|
      invariant ImportFrom(store.State(), account, records, i, created, referenceDate) == total
    {
      var got := ImportOne(store, account, records[i], referenceDate);
      if got.Failure? {
        return Failure(got.error);
      }
      if got.value {
        created := created + 1;
      }
      i := i + 1;
    }
    return Success(created);
  }
}
