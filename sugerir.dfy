/**
 * The `sugerir` command (orcamento_2026/core/management/commands/sugerir.py): the
 * transactions without an expense, oldest first, then only those without a
 * suggestion, each sent in turn through `generate_suggestion_for_transaction`.
 * A failed suggestion is reported and the loop goes on.
 */
module Sugerir {
  import opened Wrappers
  import opened Seqs
  import opened Models
  import opened Database
  import opened Consolidation
  import opened Suggestions

  function LacksSuggestion(db: Db): Transaction -> bool
  {
    (t: Transaction) => !HasSuggestion(db, t.id)
  }

  /** `transactions_to_process`: the unconsolidated transactions, in date order, that have no suggestion. */
  function ToProcess(db: Db): (r: seq<Transaction>)
    ensures forall t :: t in r <==> t in db.transactions && !HasExpense(db, t.id) && !HasSuggestion(db, t.id)
    ensures SortedBy(r, DateKey)
  {
    var pending := UnconsolidatedTransactions(db);
    FilterKeepsSorted(pending, LacksSuggestion(db), DateKey);
    Filter(pending, LacksSuggestion(db))
  }

  /** Each transaction occurs once in the list, and its id indexes the transaction table. */
  lemma ToProcessIds(db: Db)
    requires Valid(db)
    ensures var r := ToProcess(db);
      (forall k :: 0 <= k < |r| ==> r[k].id < |db.transactions|) &&
      forall i, j :: 0 <= i < j < |r| ==> r[i].id != r[j].id
  {
    var r := ToProcess(db);
    var pending := UnconsolidatedTransactions(db);
    assert Distinct(db.transactions);
    FilterKeepsDistinct(db.transactions, HasNoExpense(db));
    PermutationKeepsDistinct(pending, Filter(db.transactions, HasNoExpense(db)));
    FilterKeepsDistinct(pending, LacksSuggestion(db));
    forall k | 0 <= k < |r| ensures r[k].id < |db.transactions| && db.transactions[r[k].id] == r[k] {
      assert r[k] in r;
      var j :| 0 <= j < |db.transactions| && db.transactions[j] == r[k];
    }
  }

  /** The ids of a list of transactions are pairwise distinct and index the transaction table. */
  predicate IdsOk(db: Db, txs: seq<Transaction>, i: nat)
  {
    forall k :: i <= k < |txs| ==> txs[k].id < |db.transactions|
  }

  ghost predicate DistinctIds(txs: seq<Transaction>)
  {
    forall i, j :: 0 <= i < j < |txs| ==> txs[i].id != txs[j].id
  }

  /** The backend's answer to the prompt of each transaction in `txs`. */
  function Replies(db: Db, txs: seq<Transaction>, backend: Prompt -> Option<Reply>): (r: seq<Option<Reply>>)
    requires IdsOk(db, txs, 0)
    ensures |r| == |txs| && forall k :: 0 <= k < |txs| ==> r[k] == backend(SuggestionPrompt(db, txs[k].id))
  {
    seq(|txs|, k requires 0 <= k < |txs| => backend(SuggestionPrompt(db, txs[k].id)))
  }

  /** The loop from position `i` on, given the backend's answers `replies` (the prompt does
      not read the suggestion table, so each answer is the one the loop obtains when it gets
      there); `answered` says, per transaction, whether a suggestion came back ("OK") or
      not ("Falha"). */
  function SuggestFrom(db: Db, txs: seq<Transaction>, i: nat, answered: seq<bool>,
                       replies: seq<Option<Reply>>): (seq<bool>, Db)
    requires Valid(db) && i <= |txs| == |replies| && IdsOk(db, txs, i)
    decreases |txs| - i
  {
    if i == |txs| then (answered, db)
    else
      var step := Respond(db, txs[i].id, replies[i]);
      RespondShape(db, txs[i].id, replies[i]);
      SuggestFrom(step.1, txs, i + 1, answered + [step.0.Some?], replies)
  }

  /** What `handle()` reports. */
  datatype Report = NothingPending | Generated(answered: seq<bool>)

  /** `handle()`: the report and the database afterwards. */
  function Suggest(db: Db, backend: Prompt -> Option<Reply>): (Report, Db)
    requires Valid(db)
  {
    var txs := ToProcess(db);
    if |txs| == 0 then (NothingPending, db)
    else
      ToProcessIds(db);
      var r := SuggestFrom(db, txs, 0, [], Replies(db, txs, backend));
      (Generated(r.0), r.1)
  }

  // ---------------------------------------------------------------- the loop

  /** `db'` is `db` with suggestions appended and nothing else changed. */
  predicate AddsSuggestions(db: Db, db': Db)
  {
    db' == db.(suggestions := db'.suggestions) &&
    |db.suggestions| <= |db'.suggestions| && db'.suggestions[..|db.suggestions|] == db.suggestions
  }

  /** One answer per transaction, in order, whatever happened to the earlier ones; the
      constraints hold and only suggestions are added. */
  lemma {:induction false} SuggestFromShape(db: Db, txs: seq<Transaction>, i: nat, answered: seq<bool>,
                                            replies: seq<Option<Reply>>)
    requires Valid(db) && i <= |txs| == |replies| && IdsOk(db, txs, i)
    ensures var r := SuggestFrom(db, txs, i, answered, replies);
      && |r.0| == |answered| + |txs| - i && r.0[..|answered|] == answered
      && Valid(r.1) && AddsSuggestions(db, r.1)
    decreases |txs| - i
  {
    if i < |txs| {
      var step := Respond(db, txs[i].id, replies[i]);
      RespondShape(db, txs[i].id, replies[i]);
      var answered' := answered + [step.0.Some?];
      SuggestFromShape(step.1, txs, i + 1, answered', replies);
      var r := SuggestFrom(step.1, txs, i + 1, answered', replies);
      assert r.0[..|answered|] == r.0[..|answered'|][..|answered|];
      assert r.1.suggestions[..|db.suggestions|] == r.1.suggestions[..|step.1.suggestions|][..|db.suggestions|];
    }
  }

  /** A transaction the loop does not reach keeps whether it has a suggestion. */
  lemma {:induction false} SuggestFromKeepsOthers(db: Db, txs: seq<Transaction>, i: nat, answered: seq<bool>,
                                                  replies: seq<Option<Reply>>, t: Id)
    requires Valid(db) && i <= |txs| == |replies| && IdsOk(db, txs, i)
    requires forall k :: i <= k < |txs| ==> txs[k].id != t
    ensures HasSuggestion(SuggestFrom(db, txs, i, answered, replies).1, t) <==> HasSuggestion(db, t)
    decreases |txs| - i
  {
    if i < |txs| {
      var step := Respond(db, txs[i].id, replies[i]);
      RespondShape(db, txs[i].id, replies[i]);
      if step.1.suggestions != db.suggestions {
        HasSuggestionAfterAppend(db, step.0.value, t);
      }
      SuggestFromKeepsOthers(step.1, txs, i + 1, answered + [step.0.Some?], replies, t);
    }
  }

  /** Appending a suggestion gives its transaction one, and no other. */
  lemma HasSuggestionAfterAppend(db: Db, s: Suggestion, t: Id)
    ensures HasSuggestion(db.(suggestions := db.suggestions + [s]), t) <==> HasSuggestion(db, t) || s.transaction == t
  {
    FilterAppend(db.suggestions, s, SuggestionOf(t));
  }

  /** Over distinct transactions, the answer for each is "OK" exactly when it has a
      suggestion at the end. */
  lemma {:induction false} AnsweredIffSuggested(db: Db, txs: seq<Transaction>, i: nat, answered: seq<bool>,
                                                replies: seq<Option<Reply>>, k: nat)
    requires Valid(db) && i <= k < |txs| == |replies| && IdsOk(db, txs, i) && DistinctIds(txs)
    ensures AnswerMatches(SuggestFrom(db, txs, i, answered, replies), |answered| + k - i, txs[k].id)
    decreases |txs| - i
  {
    var step := Respond(db, txs[i].id, replies[i]);
    RespondShape(db, txs[i].id, replies[i]);
    var answered' := answered + [step.0.Some?];
    if k == i {
      SuggestFromShape(step.1, txs, i + 1, answered', replies);
      var r := SuggestFrom(step.1, txs, i + 1, answered', replies);
      assert r.0[|answered|] == r.0[..|answered'|][|answered|] == step.0.Some?;
      SuggestFromKeepsOthers(step.1, txs, i + 1, answered', replies, txs[k].id);
    } else {
      AnsweredIffSuggested(step.1, txs, i + 1, answered', replies, k);
      assert |answered'| + k - (i + 1) == |answered| + k - i;
    }
  }

  predicate AnswerMatches(r: (seq<bool>, Db), n: int, t: Id)
  {
    0 <= n < |r.0| && (r.0[n] <==> HasSuggestion(r.1, t))
  }

  /** Every answer from position `from` on is `b`. */
  predicate AllAre(answers: seq<bool>, from: nat, b: bool)
  {
    forall k :: from <= k < |answers| ==> answers[k] == b
  }

  /** A backend that always answers gets every transaction its suggestion. */
  lemma {:induction false} AnsweringBackendSuggestsAll(db: Db, txs: seq<Transaction>, i: nat, answered: seq<bool>,
                                                       replies: seq<Option<Reply>>)
    requires Valid(db) && i <= |txs| == |replies| && IdsOk(db, txs, i)
    requires forall k :: i <= k < |replies| ==> replies[k].Some?
    ensures AllAre(SuggestFrom(db, txs, i, answered, replies).0, |answered|, true)
    decreases |txs| - i
  {
    if i < |txs| {
      var step := Respond(db, txs[i].id, replies[i]);
      RespondShape(db, txs[i].id, replies[i]);
      var answered' := answered + [step.0.Some?];
      AnsweringBackendSuggestsAll(step.1, txs, i + 1, answered', replies);
      SuggestFromShape(step.1, txs, i + 1, answered', replies);
      var r := SuggestFrom(step.1, txs, i + 1, answered', replies);
      assert r.0[|answered|] == r.0[..|answered'|][|answered|] == step.0.Some?;
      forall k | |answered| <= k < |r.0| ensures r.0[k] {
        if k > |answered| {
          assert |answered'| <= k;
        }
      }
    }
  }

  /** A backend that never answers, over transactions without a suggestion, changes nothing. */
  lemma {:induction false} SilentBackendChangesNothing(db: Db, txs: seq<Transaction>, i: nat, answered: seq<bool>,
                                                       replies: seq<Option<Reply>>)
    requires Valid(db) && i <= |txs| == |replies| && IdsOk(db, txs, i)
    requires forall k :: i <= k < |replies| ==> replies[k].None?
    requires forall k :: i <= k < |txs| ==> !HasSuggestion(db, txs[k].id)
    ensures var r := SuggestFrom(db, txs, i, answered, replies);
      r.1 == db && AllAre(r.0, |answered|, false)
    decreases |txs| - i
  {
    if i < |txs| {
      RespondShape(db, txs[i].id, replies[i]);
      var answered' := answered + [false];
      SilentBackendChangesNothing(db, txs, i + 1, answered', replies);
      SuggestFromShape(db, txs, i + 1, answered', replies);
      var r := SuggestFrom(db, txs, i + 1, answered', replies);
      assert r.0[|answered|] == r.0[..|answered'|][|answered|] == false;
      forall k | |answered| <= k < |r.0| ensures !r.0[k] {
        if k > |answered| {
          assert |answered'| <= k;
        }
      }
    }
  }

  /** The whole loop: one answer per transaction, "OK" exactly for those that have a
      suggestion afterwards; the constraints hold and only suggestions are added. */
  lemma SuggestFromAll(db: Db, txs: seq<Transaction>, replies: seq<Option<Reply>>)
    requires Valid(db) && |txs| == |replies| && IdsOk(db, txs, 0) && DistinctIds(txs)
    ensures var r := SuggestFrom(db, txs, 0, [], replies);
      && |r.0| == |txs| && Valid(r.1) && AddsSuggestions(db, r.1)
      && forall k :: 0 <= k < |txs| ==> (r.0[k] <==> HasSuggestion(r.1, txs[k].id))
  {
    var r := SuggestFrom(db, txs, 0, [], replies);
    SuggestFromShape(db, txs, 0, [], replies);
    forall k | 0 <= k < |txs| ensures r.0[k] <==> HasSuggestion(r.1, txs[k].id) {
      AnsweredIffSuggested(db, txs, 0, [], replies, k);
      assert AnswerMatches(r, k, txs[k].id);
    }
  }

  // ---------------------------------------------------------------- the command

  /** With nothing to process the command reports it and changes nothing; otherwise it
      answers once per transaction to process, "OK" exactly for those that have a
      suggestion afterwards, and changes only the suggestion table. */
  lemma SuggestReport(db: Db, backend: Prompt -> Option<Reply>)
    requires Valid(db)
    ensures var (report, db') := Suggest(db, backend);
      var txs := ToProcess(db);
      && Valid(db') && AddsSuggestions(db, db')
      && (report == NothingPending <==> |txs| == 0)
      && (report == NothingPending ==> db' == db)
      && (report.Generated? ==>
            && |report.answered| == |txs|
            && forall k :: 0 <= k < |txs| ==> (report.answered[k] <==> HasSuggestion(db', txs[k].id)))
  {
    var txs := ToProcess(db);
    if |txs| > 0 {
      ToProcessIds(db);
      SuggestFromAll(db, txs, Replies(db, txs, backend));
    } else {
      assert db.suggestions[..|db.suggestions|] == db.suggestions;
    }
  }

  /** A backend that always answers: every transaction to process gets its suggestion. */
  lemma SuggestWithAnsweringBackend(db: Db, backend: Prompt -> Option<Reply>)
    requires Valid(db) && forall p :: backend(p).Some?
    ensures var (report, db') := Suggest(db, backend);
      report.Generated? ==> AllAre(report.answered, 0, true)
  {
    var txs := ToProcess(db);
    if |txs| > 0 {
      ToProcessIds(db);
      var replies := Replies(db, txs, backend);
      forall k | 0 <= k < |replies| ensures replies[k].Some? {
        assert replies[k] == backend(SuggestionPrompt(db, txs[k].id));
      }
      AnsweringBackendSuggestsAll(db, txs, 0, [], replies);
      var r := SuggestFrom(db, txs, 0, [], replies);
      assert Suggest(db, backend) == (Generated(r.0), r.1);
    } else {
      assert Suggest(db, backend).0 == NothingPending;
    }
  }

  /** A backend that never answers: the command changes nothing and reports every
      transaction as a failure. */
  lemma SuggestWithSilentBackend(db: Db, backend: Prompt -> Option<Reply>)
    requires Valid(db) && forall p :: backend(p).None?
    ensures var (report, db') := Suggest(db, backend);
      db' == db && (report.Generated? ==> AllAre(report.answered, 0, false))
  {
    var txs := ToProcess(db);
    if |txs| > 0 {
      ToProcessIds(db);
      forall k | 0 <= k < |txs| ensures !HasSuggestion(db, txs[k].id) {
        assert txs[k] in txs;
      }
      var replies := Replies(db, txs, backend);
      forall k | 0 <= k < |replies| ensures replies[k].None? {
        assert replies[k] == backend(SuggestionPrompt(db, txs[k].id));
      }
      SilentBackendChangesNothing(db, txs, 0, [], replies);
      var r := SuggestFrom(db, txs, 0, [], replies);
      assert Suggest(db, backend) == (Generated(r.0), r.1);
    }
  }

  /** A second run retries exactly the transactions whose suggestion failed. */
  lemma SuggestRetriesFailures(db: Db, backend: Prompt -> Option<Reply>, t: Transaction)
    requires Valid(db)
    ensures var (report, db') := Suggest(db, backend);
      t in ToProcess(db') <==> t in ToProcess(db) && !HasSuggestion(db', t.id)
  {
    var (report, db') := Suggest(db, backend);
    SuggestReport(db, backend);
    if HasSuggestion(db, t.id) {
      var s := SuggestionFor(db, t.id).value;
      var k :| 0 <= k < |db.suggestions| && db.suggestions[k] == s;
      assert db'.suggestions[k] == db'.suggestions[..|db.suggestions|][k];
      assert db'.suggestions[k] in Filter(db'.suggestions, SuggestionOf(t.id));
    }
  }

  // ---------------------------------------------------------------- the methods

  /** The selection loop: `pending_transactions` kept where `hasattr(tx, "suggestion")` is false. */
  method SelectTransactions(store: Store) returns (txs: seq<Transaction>)
    ensures txs == ToProcess(store.State())
  {
    var pending := UnconsolidatedTransactions(store.State());
    txs := [];
    var i := 0;
    while i < |pending|
      invariant 0 <= i <= |pending|
      invariant txs == Filter(pending[..i], LacksSuggestion(store.State()))
    {
      FilterAppend(pending[..i], pending[i], LacksSuggestion(store.State()));
      assert pending[..i + 1] == pending[..i] + [pending[i]];
      if SuggestionFor(store.State(), pending[i].id).None? {
        txs := txs + [pending[i]];
      }
      i := i + 1;
    }
    assert pending[..i] == pending;
  }

  method Handle(store: Store, backend: Prompt -> Option<Reply>) returns (report: Report)
    requires store.Valid()
    modifies store
    ensures store.Valid()
    ensures (report, store.State()) == Suggest(old(store.State()), backend)
  {
    var txs := SelectTransactions(store);
    if |txs| == 0 {
      return NothingPending;
    }
    ghost var db := store.State();
    ToProcessIds(db);
    ghost var replies := Replies(db, txs, backend);
    ghost var total := SuggestFrom(db, txs, 0, [], replies);
    var answered: seq<bool> := [];
    var i := 0;
    while i < |txs|
      invariant 0 <= i <= |txs|
      invariant store.Valid() && IdsOk(store.State(), txs, i)
      invariant store.State() == db.(suggestions := store.State().suggestions)
      invariant SuggestFrom(store.State(), txs, i, answered, replies) == total
    {
      PromptIgnoresSuggestions(db, store.State(), db.transactions[txs[i].id]);
      assert SuggestionPrompt(store.State(), txs[i].id) == SuggestionPrompt(db, txs[i].id);
      RespondShape(store.State(), txs[i].id, replies[i]);
      var suggestion := GenerateSuggestionForTransaction(store, txs[i].id, backend);
      answered := answered + [suggestion.Some?];
      i := i + 1;
    }
    return Generated(answered);
  }
}
