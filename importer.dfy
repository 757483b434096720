/**
 * The statement importer class (orcamento_2026/core/services/importer.py).
 * It writes to a transaction table with an `external_id` column and a
 * `reference_month`, which is not the `Transaction` of the models module, so
 * it gets its own row type and table here (`LedgerRow`, `Ledger`).  Only debits
 * are imported; a duplicate external id is counted as skipped.
 */
module Importer {
  import opened Wrappers
  import opened Dates
  import opened Seqs
  import opened Models

  /** A statement transaction as `ofxtools` delivers it: `fitid`, `dtposted.date()`,
      `trnamt` (in cents), `name`, `memo`. */
  datatype StatementTransaction = StatementTransaction(
    fitid: string, dtposted: Date, trnamt: int, name: Option<string>, memo: Option<string>)

  datatype Statement = Statement(transactions: seq<StatementTransaction>)

  /** A row of the importer's transaction table. */
  datatype LedgerRow = LedgerRow(
    externalId: string, amount: int, date: Date, memo: Option<string>, account: Id, referenceMonth: Date)

  /** The returned `{"imported": ..., "skipped": ...}`. */
  datatype Counts = Counts(imported: nat, skipped: nat)

  ghost predicate UniqueExternalIds(rows: seq<LedgerRow>)
  {
    forall i, j :: 0 <= i < j < |rows| ==> rows[i].externalId != rows[j].externalId
  }

  predicate ExternalIdTaken(rows: seq<LedgerRow>, externalId: string)
  {
    exists i :: 0 <= i < |rows| && rows[i].externalId == externalId
  }

  /** `Transaction.objects.create(...)` on that table: `false` where it raises `IntegrityError`. */
  function CreateRow(rows: seq<LedgerRow>, row: LedgerRow): (r: (bool, seq<LedgerRow>))
    ensures r.0 <==> !ExternalIdTaken(rows, row.externalId)
    ensures r.1 == if r.0 then rows + [row] else rows
    ensures UniqueExternalIds(rows) ==> UniqueExternalIds(r.1)
  {
    if ExternalIdTaken(rows, row.externalId) then (false, rows) else (true, rows + [row])
  }

  /** The importer's transaction table. */
  class Ledger {
    var rows: seq<LedgerRow>

    ghost predicate Valid()
      reads this
    {
      UniqueExternalIds(rows)
    }

    constructor ()
      ensures Valid() && rows == []
    {
      rows := [];
    }

    method Create(row: LedgerRow) returns (created: bool)
      requires Valid()
      modifies this
      ensures Valid()
      ensures (created, rows) == CreateRow(old(rows), row)
    {
      if ExternalIdTaken(rows, row.externalId) {
        return false;
      }
      rows := rows + [row];
      return true;
    }
  }

  /** `trx.memo or trx.name`. */
  function MemoOrName(memo: Option<string>, name: Option<string>): (r: Option<string>)
    ensures memo.Some? && memo.value != "" ==> r == memo
    ensures memo.None? || memo.value == "" ==> r == name
  {
    if memo.Some? && memo.value != "" then memo else name
  }

  /** The row created for a debit. */
  function ToRow(trx: StatementTransaction, account: Id): (row: LedgerRow)
    ensures row.externalId == trx.fitid && row.amount == trx.trnamt && row.date == trx.dtposted
    ensures row.memo == MemoOrName(trx.memo, trx.name) && row.account == account
    ensures IsValid(trx.dtposted) ==> row.referenceMonth == FirstOfMonth(trx.dtposted)
  {
    LedgerRow(trx.fitid, trx.trnamt, trx.dtposted, MemoOrName(trx.memo, trx.name), account,
              Date(trx.dtposted.year, trx.dtposted.month, 1))
  }

  function IsDebit(trx: StatementTransaction): bool
  {
    trx.trnamt < 0
  }

  /** One pass of the inner loop body: credits are passed over, a debit is created
      and counted as imported, or counted as skipped when its external id is taken. */
  function ProcessOne(counts: Counts, rows: seq<LedgerRow>, account: Id, trx: StatementTransaction)
    : (Counts, seq<LedgerRow>)
  {
    if trx.trnamt >= 0 then (counts, rows)
    else if ExternalIdTaken(rows, trx.fitid) then (counts.(skipped := counts.skipped + 1), rows)
    else (counts.(imported := counts.imported + 1), rows + [ToRow(trx, account)])
  }

  /** The inner loop from position `i` on, with the counts and table reached so far. */
  function ProcessFrom(rows: seq<LedgerRow>, account: Id, trxs: seq<StatementTransaction>, i: nat, counts: Counts)
    : (Counts, seq<LedgerRow>)
    requires i <= |trxs|
    decreases |trxs| - i
  {
    if i == |trxs| then (counts, rows)
    else
      var r := ProcessOne(counts, rows, account, trxs[i]);
      ProcessFrom(r.1, account, trxs, i + 1, r.0)
  }

  /** The statement transactions processed in order, starting from table `rows` and zero counts. */
  function ProcessAll(rows: seq<LedgerRow>, account: Id, trxs: seq<StatementTransaction>)
    : (Counts, seq<LedgerRow>)
  {
    ProcessFrom(rows, account, trxs, 0, Counts(0, 0))
  }

  /** The step is the table's `create` as `CreateRow` defines it, guarded by the sign test. */
  lemma ProcessOneIsCreate(counts: Counts, rows: seq<LedgerRow>, account: Id, trx: StatementTransaction)
    ensures var r := ProcessOne(counts, rows, account, trx);
      if trx.trnamt >= 0 then r == (counts, rows)
      else
        var created := CreateRow(rows, ToRow(trx, account));
        r.1 == created.1 &&
        r.0 == if created.0 then counts.(imported := counts.imported + 1) else counts.(skipped := counts.skipped + 1)
  {
  }

  /** Each debit from position `i` on is either imported or skipped, and each import adds one row. */
  lemma {:induction false} ProcessCounts(rows: seq<LedgerRow>, account: Id, trxs: seq<StatementTransaction>, i: nat, counts: Counts)
    requires i <= |trxs|
    ensures var r := ProcessFrom(rows, account, trxs, i, counts);
      r.0.imported + r.0.skipped == counts.imported + counts.skipped + Count(trxs[i..], IsDebit) &&
      counts.imported <= r.0.imported && counts.skipped <= r.0.skipped &&
      |r.1| + counts.imported == |rows| + r.0.imported
    decreases |trxs| - i
  {
    if i < |trxs| {
      assert trxs[i..] == [trxs[i]] + trxs[i + 1..];
      FilterPrepend(trxs[i], trxs[i + 1..], IsDebit);
      var r := ProcessOne(counts, rows, account, trxs[i]);
      ProcessCounts(r.1, account, trxs, i + 1, r.0);
    }
  }

  /** Processing only appends to the table. */
  lemma {:induction false} ProcessKeepsRows(rows: seq<LedgerRow>, account: Id, trxs: seq<StatementTransaction>, i: nat, counts: Counts)
    requires i <= |trxs|
    ensures var r := ProcessFrom(rows, account, trxs, i, counts);
      |rows| <= |r.1| && r.1[..|rows|] == rows
    decreases |trxs| - i
  {
    if i < |trxs| {
      var r := ProcessOne(counts, rows, account, trxs[i]);
      ProcessKeepsRows(r.1, account, trxs, i + 1, r.0);
      assert r.1[..|rows|] == rows;
    }
  }

  /** An external id in the table before processing is in it afterwards. */
  lemma ProcessKeepsIds(rows: seq<LedgerRow>, account: Id, trxs: seq<StatementTransaction>, i: nat, counts: Counts, id: string)
    requires i <= |trxs| && ExternalIdTaken(rows, id)
    ensures ExternalIdTaken(ProcessFrom(rows, account, trxs, i, counts).1, id)
  {
    var after := ProcessFrom(rows, account, trxs, i, counts).1;
    ProcessKeepsRows(rows, account, trxs, i, counts);
    var j :| 0 <= j < |rows| && rows[j].externalId == id;
    assert after[j] == after[..|rows|][j];
  }

  /** The table never holds two rows with the same external id. */
  lemma {:induction false} ProcessKeepsUnique(rows: seq<LedgerRow>, account: Id, trxs: seq<StatementTransaction>, i: nat, counts: Counts)
    requires i <= |trxs| && UniqueExternalIds(rows)
    ensures UniqueExternalIds(ProcessFrom(rows, account, trxs, i, counts).1)
    decreases |trxs| - i
  {
    if i < |trxs| {
      var r := ProcessOne(counts, rows, account, trxs[i]);
      ProcessOneIsCreate(counts, rows, account, trxs[i]);
      ProcessKeepsUnique(r.1, account, trxs, i + 1, r.0);
    }
  }

  /** Every row added is the row of one of the debits from position `i` on. */
  lemma {:induction false} ImportedRowsAreDebits(rows: seq<LedgerRow>, account: Id, trxs: seq<StatementTransaction>,
                                                 i: nat, counts: Counts, j: nat)
    requires i <= |trxs| && |rows| <= j < |ProcessFrom(rows, account, trxs, i, counts).1|
    ensures var row := ProcessFrom(rows, account, trxs, i, counts).1[j];
      exists k :: i <= k < |trxs| && trxs[k].trnamt < 0 && row == ToRow(trxs[k], account)
    decreases |trxs| - i
  {
    var r := ProcessOne(counts, rows, account, trxs[i]);
    var after := ProcessFrom(r.1, account, trxs, i + 1, r.0).1;
    assert ProcessFrom(rows, account, trxs, i, counts).1 == after;
    if j < |r.1| {
      ProcessKeepsRows(r.1, account, trxs, i + 1, r.0);
      assert after[j] == after[..|r.1|][j] == r.1[j];
      assert r.1[j] == ToRow(trxs[i], account);
    } else {
      ImportedRowsAreDebits(r.1, account, trxs, i + 1, r.0, j);
    }
  }

  /** Each imported row is a debit of this account whose reference month is the first
      day of its posting month. */
  lemma ImportedRowsStartTheirMonth(rows: seq<LedgerRow>, account: Id, trxs: seq<StatementTransaction>, j: nat)
    requires |rows| <= j < |ProcessAll(rows, account, trxs).1|
    ensures var row := ProcessAll(rows, account, trxs).1[j];
      row.referenceMonth.day == 1 && MonthIndex(row.referenceMonth) == MonthIndex(row.date) &&
      row.amount < 0 && row.account == account
  {
    ImportedRowsAreDebits(rows, account, trxs, 0, Counts(0, 0), j);
  }

  /** After processing, every debit's external id is in the table. */
  lemma {:induction false} EveryDebitIsStored(rows: seq<LedgerRow>, account: Id, trxs: seq<StatementTransaction>,
                                              i: nat, counts: Counts, k: nat)
    requires i <= k < |trxs| && trxs[k].trnamt < 0
    ensures ExternalIdTaken(ProcessFrom(rows, account, trxs, i, counts).1, trxs[k].fitid)
    decreases |trxs| - i
  {
    var r := ProcessOne(counts, rows, account, trxs[i]);
    assert ProcessFrom(rows, account, trxs, i, counts) == ProcessFrom(r.1, account, trxs, i + 1, r.0);
    if k == i {
      if !ExternalIdTaken(rows, trxs[i].fitid) {
        assert r.1[|rows|].externalId == trxs[k].fitid;
      }
      if i + 1 < |trxs| {
        ProcessKeepsIds(r.1, account, trxs, i + 1, r.0, trxs[k].fitid);
      }
    } else {
      EveryDebitIsStored(r.1, account, trxs, i + 1, r.0, k);
    }
  }

  /** Transactions whose debits are all in the table already: nothing imported, each
      debit skipped, no row added. */
  lemma {:induction false} KnownDebitsAreSkipped(rows: seq<LedgerRow>, account: Id, trxs: seq<StatementTransaction>,
                                                 i: nat, counts: Counts)
    requires i <= |trxs|
    requires forall k :: i <= k < |trxs| && trxs[k].trnamt < 0 ==> ExternalIdTaken(rows, trxs[k].fitid)
    ensures ProcessFrom(rows, account, trxs, i, counts)
         == (counts.(skipped := counts.skipped + Count(trxs[i..], IsDebit)), rows)
    decreases |trxs| - i
  {
    if i < |trxs| {
      assert trxs[i..] == [trxs[i]] + trxs[i + 1..];
      FilterPrepend(trxs[i], trxs[i + 1..], IsDebit);
      var r := ProcessOne(counts, rows, account, trxs[i]);
      assert r.1 == rows;
      KnownDebitsAreSkipped(rows, account, trxs, i + 1, r.0);
    }
  }

  /** Processing the same transactions twice: the second run imports nothing and skips every debit. */
  lemma ProcessTwiceSkipsAll(rows: seq<LedgerRow>, account: Id, trxs: seq<StatementTransaction>)
    ensures var rows' := ProcessAll(rows, account, trxs).1;
      ProcessAll(rows', account, trxs) == (Counts(0, Count(trxs, IsDebit)), rows')
  {
    var rows' := ProcessAll(rows, account, trxs).1;
    forall k | 0 <= k < |trxs| && trxs[k].trnamt < 0 ensures ExternalIdTaken(rows', trxs[k].fitid) {
      EveryDebitIsStored(rows, account, trxs, 0, Counts(0, 0), k);
    }
    KnownDebitsAreSkipped(rows', account, trxs, 0, Counts(0, 0));
    assert trxs[0..] == trxs;
  }

  /** Processing `a + b` from a position inside `a`: first the rest of `a`, then `b`. */
  lemma {:induction false} ProcessFromShift(rows: seq<LedgerRow>, account: Id, a: seq<StatementTransaction>,
                                            b: seq<StatementTransaction>, j: nat, counts: Counts)
    requires j <= |b|
    ensures ProcessFrom(rows, account, a + b, |a| + j, counts) == ProcessFrom(rows, account, b, j, counts)
    decreases |b| - j
  {
    if j < |b| {
      assert (a + b)[|a| + j] == b[j];
      var r := ProcessOne(counts, rows, account, b[j]);
      ProcessFromShift(r.1, account, a, b, j + 1, r.0);
    }
  }

  lemma {:induction false} ProcessFromAppend(rows: seq<LedgerRow>, account: Id, a: seq<StatementTransaction>,
                                             b: seq<StatementTransaction>, i: nat, counts: Counts)
    requires i <= |a|
    ensures var r := ProcessFrom(rows, account, a, i, counts);
      ProcessFrom(rows, account, a + b, i, counts) == ProcessFrom(r.1, account, b, 0, r.0)
    decreases |a| - i
  {
    if i == |a| {
      ProcessFromShift(rows, account, a, b, 0, counts);
    } else {
      assert (a + b)[i] == a[i];
      var r := ProcessOne(counts, rows, account, a[i]);
      ProcessFromAppend(r.1, account, a, b, i + 1, r.0);
    }
  }

  /** `ofx.statements`, their transactions one after the other. */
  function Flatten(statements: seq<Statement>): seq<StatementTransaction>
    decreases |statements|
  {
    if statements == [] then [] else statements[0].transactions + Flatten(statements[1..])
  }

  /** The outer loop from statement `s` on: each statement's transactions through the inner loop. */
  function ProcessStatements(rows: seq<LedgerRow>, account: Id, statements: seq<Statement>, s: nat, counts: Counts)
    : (Counts, seq<LedgerRow>)
    requires s <= |statements|
    decreases |statements| - s
  {
    if s == |statements| then (counts, rows)
    else
      var r := ProcessFrom(rows, account, statements[s].transactions, 0, counts);
      ProcessStatements(r.1, account, statements, s + 1, r.0)
  }

  /** The two nested loops process the statements' transactions as one sequence. */
  lemma {:induction false} ProcessStatementsIsFlat(rows: seq<LedgerRow>, account: Id, statements: seq<Statement>,
                                                   s: nat, counts: Counts)
    requires s <= |statements|
    ensures ProcessStatements(rows, account, statements, s, counts)
         == ProcessFrom(rows, account, Flatten(statements[s..]), 0, counts)
    decreases |statements| - s
  {
    if s < |statements| {
      var trs := statements[s].transactions;
      assert statements[s..][1..] == statements[s + 1..];
      assert Flatten(statements[s..]) == trs + Flatten(statements[s + 1..]);
      ProcessFromAppend(rows, account, trs, Flatten(statements[s + 1..]), 0, counts);
      var r := ProcessFrom(rows, account, trs, 0, counts);
      ProcessStatementsIsFlat(r.1, account, statements, s + 1, r.0);
    }
  }

  class OfxImporter {
    const filePath: string
    const account: Id

    constructor (filePath: string, account: Id)
      ensures this.filePath == filePath && this.account == account
    {
      this.filePath := filePath;
      this.account := account;
    }

    /** The body of the inner loop of `process()`, for one statement transaction. */
    method ProcessTransaction(ledger: Ledger, counts: Counts, trx: StatementTransaction) returns (counts': Counts)
      requires ledger.Valid()
      modifies ledger
      ensures ledger.Valid()
      ensures (counts', ledger.rows) == ProcessOne(counts, old(ledger.rows), account, trx)
    {
      if trx.trnamt >= 0 {
        return counts;
      }
      var created := ledger.Create(ToRow(trx, account));
      if created {
        counts' := counts.(imported := counts.imported + 1);
      } else {
        counts' := counts.(skipped := counts.skipped + 1);
      }
    }

    /** `process()` on the parsed statements of the file: the outer loop runs over the
        statements, the inner one over each statement's transactions. */
    method Process(ledger: Ledger, statements: seq<Statement>) returns (counts: Counts)
      requires ledger.Valid()
      modifies ledger
      ensures ledger.Valid()
      ensures (counts, ledger.rows) == ProcessAll(old(ledger.rows), account, Flatten(statements))
    {
      ghost var total := ProcessStatements(ledger.rows, account, statements, 0, Counts(0, 0));
      ProcessStatementsIsFlat(ledger.rows, account, statements, 0, Counts(0, 0));
      assert statements[0..] == statements;
      counts := Counts(0, 0);
      var s := 0;
      while s < |statements|
        invariant 0 <= s <= |statements|
        invariant ledger.Valid()
        invariant ProcessStatements(ledger.rows, account, statements, s, counts) == total
      {
        var transactions := statements[s].transactions;
        var t := 0;
        while t < |transactions|
          invariant 0 <= t <= |transactions|
          invariant ledger.Valid()
          invariant var r := ProcessFrom(ledger.rows, account, transactions, t, counts);
            ProcessStatements(r.1, account, statements, s + 1, r.0) == total
        {
          counts := ProcessTransaction(ledger, counts, transactions[t]);
          t := t + 1;
        }
        s := s + 1;
      }
    }
  }
}
