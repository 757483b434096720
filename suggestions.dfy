/**
 * Category suggestions for transactions (orcamento_2026/core/services/suggestions.py).
 * The language-model call is a parameter `backend`: given the prompt, it answers
 * with the parsed JSON reply, or `None` when the request or the parsing failed.
 */
module Suggestions {
  import opened Wrappers
  import opened Text
  import opened Dates
  import opened Seqs
  import opened Models
  import opened DbUtils
  import opened Database

  function IsPending(s: Suggestion): bool
  {
    s.status == Pending
  }

  /** `get_pending_suggestions()`. */
  function PendingSuggestions(db: Db): (r: seq<Suggestion>)
    ensures forall s :: s in r <==> s in db.suggestions && s.status == Pending
    ensures IsSubsequence(r, db.suggestions)
  {
    FilterIsSubsequence(db.suggestions, IsPending);
    Filter(db.suggestions, IsPending)
  }

  /** The names bound at the top level of suggestions.py when it runs: the models are
      imported only under `TYPE_CHECKING`, so none of them is among these. */
  const SuggestionsModuleNames: set<string> :=
    {"json", "logging", "TYPE_CHECKING", "requests", "config", "Q", "case_insensitive_get",
     "logger", "OLLAMA_URL", "OLLAMA_MODEL", "get_pending_suggestions", "find_similar_expenses",
     "_build_prompt", "_call_ollama_api", "generate_suggestion_for_transaction"}

  datatype NameError = NameError(name: string)

  /** `get_pending_suggestions()` as written: its body names `TransactionSuggestion`
      without a local import, so it runs only where the module scope binds that name. */
  function PendingSuggestionsAsWritten(db: Db, scope: set<string>): (r: Result<seq<Suggestion>, NameError>)
    ensures r.Success? <==> "TransactionSuggestion" in scope
    ensures r.Success? ==> r.value == PendingSuggestions(db)
  {
    if "TransactionSuggestion" in scope then Success(PendingSuggestions(db)) else Failure(NameError("TransactionSuggestion"))
  }

  /** With the module scope suggestions.py actually has, the call raises `NameError` even
      where the intended result is a pending suggestion; `PendingSuggestions` is that
      intended result. */
  lemma PendingSuggestionsRaisesAsWritten(db: Db)
    requires exists s :: s in db.suggestions && s.status == Pending
    ensures PendingSuggestions(db) != []
    ensures PendingSuggestionsAsWritten(db, SuggestionsModuleNames) == Failure(NameError("TransactionSuggestion"))
  {
    var s :| s in db.suggestions && s.status == Pending;
    assert s in PendingSuggestions(db);
  }

  // ---------------------------------------------------------------- find_similar_expenses

  function IsLongWord(w: string): bool
  {
    |w| > 2
  }

  /** The words of `parts = description.split()[:2]` kept by `if len(part) > 2`. */
  function SimilarityKeys(description: string): (keys: seq<string>)
    ensures |keys| <= 2
    ensures forall k :: k in keys <==> k in Take(Words(description), 2) && |k| > 2
    ensures IsSubsequence(keys, Take(Words(description), 2))
  {
    var parts := Take(Words(description), 2);
    FilterIsSubsequence(parts, IsLongWord);
    Filter(parts, IsLongWord)
  }

  /** The memo of the transaction an expense is linked to (`transaction__memo`). */
  function LinkedMemo(transactions: seq<Transaction>, e: Expense): Option<string>
  {
    if e.transaction.Some? && e.transaction.value < |transactions|
    then Some(transactions[e.transaction.value].memo) else None
  }

  /** The disjunction `Q(transaction__memo__icontains=k1) | Q(transaction__memo__icontains=k2)`. */
  predicate MatchesSomeKey(transactions: seq<Transaction>, keys: seq<string>, e: Expense)
  {
    var memo := LinkedMemo(transactions, e);
    memo.Some? && exists k :: k in keys && ContainsIgnoreCase(memo.value, k)
  }

  function MatchesSomeKeyIn(transactions: seq<Transaction>, keys: seq<string>): Expense -> bool
  {
    (e: Expense) => MatchesSomeKey(transactions, keys, e)
  }

  /** `order_by("-reference_month")`: ascending in this key is newest first. */
  function NewestFirst(e: Expense): int
  {
    -Ordinal(e.referenceMonth)
  }

  /** The expenses `find_similar_expenses` chooses from, newest first. */
  function SimilarCandidates(expenses: seq<Expense>, transactions: seq<Transaction>, description: string): (r: seq<Expense>)
    ensures forall e :: e in r <==> e in expenses && MatchesSomeKey(transactions, SimilarityKeys(description), e)
    ensures SortedBy(r, NewestFirst)
  {
    var matching := Filter(expenses, MatchesSomeKeyIn(transactions, SimilarityKeys(description)));
    var r := SortByKey(matching, NewestFirst);
    assert forall e :: e in r <==> e in matching by {
      forall e ensures e in r <==> e in matching {
        SortedMembers(matching, NewestFirst, e);
      }
    }
    r
  }

  /** `find_similar_expenses(description, limit)`, reading the expense and transaction tables. */
  function FindSimilarExpenses(expenses: seq<Expense>, transactions: seq<Transaction>,
                               description: string, limit: nat): (r: seq<Expense>)
    ensures |r| <= limit
    ensures SimilarityKeys(description) == [] ==> r == []
    ensures forall e :: e in r ==> e in expenses && MatchesSomeKey(transactions, SimilarityKeys(description), e)
    ensures SortedBy(r, NewestFirst)
  {
    if SimilarityKeys(description) == [] then []
    else
      var candidates := SimilarCandidates(expenses, transactions, description);
      var r := Take(candidates, limit);
      assert forall e :: e in r ==> e in candidates;
      r
  }

  /** The result is the `limit` newest matches: a match left out is no newer than any returned. */
  lemma SimilarAreTheNewest(expenses: seq<Expense>, transactions: seq<Transaction>, description: string,
                            limit: nat, e: Expense)
    requires e in expenses && MatchesSomeKey(transactions, SimilarityKeys(description), e)
    requires e !in FindSimilarExpenses(expenses, transactions, description, limit)
    ensures |FindSimilarExpenses(expenses, transactions, description, limit)| == limit
    ensures forall x :: x in FindSimilarExpenses(expenses, transactions, description, limit) ==>
              !Precedes(x.referenceMonth, e.referenceMonth) || !IsValid(x.referenceMonth) || !IsValid(e.referenceMonth)
  {
    var candidates := SimilarCandidates(expenses, transactions, description);
    var r := FindSimilarExpenses(expenses, transactions, description, limit);
    assert SimilarityKeys(description) != [];
    var j :| 0 <= j < |candidates| && candidates[j] == e;
    assert r == candidates[..|r|];
    forall x | x in r
      ensures !Precedes(x.referenceMonth, e.referenceMonth) || !IsValid(x.referenceMonth) || !IsValid(e.referenceMonth)
    {
      var i :| 0 <= i < |r| && r[i] == x;
      assert candidates[i] == x;
      if IsValid(x.referenceMonth) && IsValid(e.referenceMonth) {
        OrdinalIsChronological(x.referenceMonth, e.referenceMonth);
      }
    }
  }

  /** When there are at most `limit` matches, all of them are returned. */
  lemma SimilarReturnsAllWhenFew(expenses: seq<Expense>, transactions: seq<Transaction>, description: string,
                                 limit: nat, e: Expense)
    requires |Filter(expenses, MatchesSomeKeyIn(transactions, SimilarityKeys(description)))| <= limit
    requires e in expenses && MatchesSomeKey(transactions, SimilarityKeys(description), e)
    ensures e in FindSimilarExpenses(expenses, transactions, description, limit)
  {
    assert SimilarityKeys(description) != [];
  }

  /** Results are ordered by reference month, newest first. */
  lemma SimilarNewestFirst(expenses: seq<Expense>, transactions: seq<Transaction>, description: string,
                           limit: nat, i: nat, j: nat)
    requires i < j < |FindSimilarExpenses(expenses, transactions, description, limit)|
    requires var r := FindSimilarExpenses(expenses, transactions, description, limit);
      IsValid(r[i].referenceMonth) && IsValid(r[j].referenceMonth)
    ensures var r := FindSimilarExpenses(expenses, transactions, description, limit);
      !Precedes(r[i].referenceMonth, r[j].referenceMonth)
  {
    var r := FindSimilarExpenses(expenses, transactions, description, limit);
    OrdinalIsChronological(r[i].referenceMonth, r[j].referenceMonth);
  }

  /** Only words longer than two characters become keys. */
  lemma ShortWordsGiveNoKeys()
    ensures SimilarityKeys("X A") == []
  {
    TwoWords("X", "A");
    assert "X" + " " + "A" == "X A";
    var ws := Words("X A");
    assert Take(ws, 2) == ws;
    FilterAppend(["X"], "A", IsLongWord);
    FilterAppend([], "X", IsLongWord);
    assert [] + ["X"] == ["X"] && ["X"] + ["A"] == ws;
  }

  lemma OneLongWordIsAKey()
    ensures SimilarityKeys("Supermercado X") == ["Supermercado"]
  {
    var ws := SupermercadoWords();
    assert Take(ws, 2) == ws;
    FilterAppend(["Supermercado"], "X", IsLongWord);
    FilterAppend([], "Supermercado", IsLongWord);
    assert [] + ["Supermercado"] == ["Supermercado"] && ["Supermercado"] + ["X"] == ws;
  }

  lemma SupermercadoWords() returns (ws: seq<string>)
    ensures ws == Words("Supermercado X") == ["Supermercado", "X"]
  {
    assert NoSpace("Supermercado");
    TwoWords("Supermercado", "X");
    assert "Supermercado" + " " + "X" == "Supermercado X";
    ws := Words("Supermercado X");
  }

  lemma TwoWords(a: string, b: string)
    requires a != [] && b != [] && NoSpace(a) && NoSpace(b)
    ensures Words(a + " " + b) == [a, b]
  {
    SplitFromWord(a, " " + b, []);
    assert a + " " + b == a + (" " + b);
    assert [] + a == a && [] + b == b;
    assert (" " + b)[0] == ' ' && (" " + b)[1..] == b;
    assert SplitFrom(" " + b, a) == [a] + SplitFrom(b, []);
    SplitFromWord(b, "", []);
    assert b + "" == b;
  }

  // ---------------------------------------------------------------- the prompt

  /** One line of "Exemplos de transações similares passadas". */
  datatype Example = Example(memo: string, category: string, subcategory: string, description: string)

  /** One line of "Categorias Disponíveis": a category and the names of its subcategories. */
  datatype CatalogueEntry = CatalogueEntry(category: string, subcategories: seq<string>)

  /** What `_build_prompt` puts into the prompt text. */
  datatype Prompt = Prompt(memo: string, amount: int, date: Date, examples: seq<Example>,
                           catalogue: seq<CatalogueEntry>)

  /** The JSON object the backend answers with: `data.get("category")` and so on. */
  datatype Reply = Reply(category: Option<string>, subcategory: Option<string>, description: Option<string>)

  function ExampleFor(db: Db, e: Expense): Example
  {
    var memo := LinkedMemo(db.transactions, e);
    var sub := if e.subcategory < |db.subcategories| then Some(db.subcategories[e.subcategory]) else None;
    var category := if sub.Some? && sub.value.category < |db.categories| then db.categories[sub.value.category].name else "";
    Example(if memo.Some? then memo.value else "", category, if sub.Some? then sub.value.name else "", e.description)
  }

  function Names(subcategories: seq<SubCategory>): (r: seq<string>)
    ensures |r| == |subcategories| && forall i :: 0 <= i < |r| ==> r[i] == subcategories[i].name
  {
    seq(|subcategories|, i requires 0 <= i < |subcategories| => subcategories[i].name)
  }

  /** Each category with `", ".join(s.name for s in cat.subcategories.all())`. */
  function Catalogue(db: Db): (r: seq<CatalogueEntry>)
    ensures |r| == |db.categories|
    ensures forall i :: 0 <= i < |r| ==>
      r[i] == CatalogueEntry(db.categories[i].name, Names(Filter(db.subcategories, InCategory(db.categories[i].id))))
  {
    seq(|db.categories|, i requires 0 <= i < |db.categories| =>
      CatalogueEntry(db.categories[i].name, Names(Filter(db.subcategories, InCategory(db.categories[i].id)))))
  }

  /** The expenses offered as examples for transaction `t`: `find_similar_expenses(transaction.memo)`. */
  function SimilarTo(db: Db, t: Transaction): seq<Expense>
  {
    FindSimilarExpenses(db.expenses, db.transactions, t.memo, 3)
  }

  /** `_build_prompt(transaction, similar_expenses, categories)`. */
  function BuildPrompt(db: Db, t: Transaction): (p: Prompt)
    ensures p.memo == t.memo && p.amount == t.amount && p.date == t.date
    ensures |p.examples| == |SimilarTo(db, t)|
    ensures forall i :: 0 <= i < |p.examples| ==> p.examples[i] == ExampleFor(db, SimilarTo(db, t)[i])
  {
    var similar := SimilarTo(db, t);
    Prompt(t.memo, t.amount, t.date,
           seq(|similar|, i requires 0 <= i < |similar| => ExampleFor(db, similar[i])),
           Catalogue(db))
  }

  /** The prompt shows every similar expense with its memo, category, subcategory and description. */
  lemma PromptShowsSimilarExpenses(db: Db, t: Transaction, e: Expense)
    requires Valid(db) && e in SimilarTo(db, t)
    ensures exists x :: (x in BuildPrompt(db, t).examples
      && x.memo == db.transactions[e.transaction.value].memo
      && x.description == e.description
      && x.subcategory == db.subcategories[e.subcategory].name
      && x.category == db.categories[db.subcategories[e.subcategory].category].name)
  {
    var similar := SimilarTo(db, t);
    var i :| 0 <= i < |similar| && similar[i] == e;
    assert e in db.expenses;
    assert db.expenses[e.id] == e;
    var sub := db.subcategories[e.subcategory];
    assert db.subcategories[sub.id] == sub;
    assert BuildPrompt(db, t).examples[i] == ExampleFor(db, e);
  }

  /** The prompt does not read the suggestion table. */
  lemma PromptIgnoresSuggestions(db: Db, db': Db, t: Transaction)
    requires db' == db.(suggestions := db'.suggestions)
    ensures BuildPrompt(db', t) == BuildPrompt(db, t)
  {
    var similar, similar' := SimilarTo(db, t), SimilarTo(db', t);
    assert similar == similar';
    assert forall i :: 0 <= i < |similar| ==> ExampleFor(db, similar[i]) == ExampleFor(db', similar[i]);
    assert Catalogue(db) == Catalogue(db');
  }

  // ---------------------------------------------------------------- generate_suggestion_for_transaction

  /** The prompt sent for transaction `tx`. */
  function SuggestionPrompt(db: Db, tx: Id): Prompt
    requires tx < |db.transactions|
  {
    BuildPrompt(db, db.transactions[tx])
  }

  function IdOf(c: Option<Category>): Option<Id>
  {
    if c.Some? then Some(c.value.id) else None
  }

  function SubIdOf(s: Option<SubCategory>): Option<Id>
  {
    if s.Some? then Some(s.value.id) else None
  }

  /** `generate_suggestion_for_transaction(transaction)`: the suggestion returned, and the database after. */
  function GenerateSuggestion(db: Db, tx: Id, backend: Prompt -> Option<Reply>): (r: (Option<Suggestion>, Db))
    requires Valid(db) && tx < |db.transactions|
    ensures Valid(r.1)
  {
    Respond(db, tx, backend(SuggestionPrompt(db, tx)))
  }

  /** The service once the backend's answer `data` to the transaction's prompt is known:
      an existing suggestion is returned as it is (the backend is then not consulted),
      otherwise the answer is recorded. */
  function Respond(db: Db, tx: Id, data: Option<Reply>): (r: (Option<Suggestion>, Db))
    requires Valid(db) && tx < |db.transactions|
    ensures Valid(r.1)
  {
    match SuggestionFor(db, tx)
    case Some(existing) => (Some(existing), db)
    case None => RecordReply(db, tx, data)
  }

  /** What becomes of the backend's answer for a transaction without a suggestion: nothing
      when there is none, otherwise one suggestion row more, for `tx`. */
  function RecordReply(db: Db, tx: Id, data: Option<Reply>): (r: (Option<Suggestion>, Db))
    requires Valid(db) && tx < |db.transactions| && !HasSuggestion(db, tx)
    ensures Valid(r.1)
    ensures r.0.None? <==> data.None?
    ensures r.0.None? ==> r.1 == db
    ensures r.0.Some? ==> r.0.value.id == |db.suggestions| && r.0.value.transaction == tx &&
                          r.1 == db.(suggestions := db.suggestions + [r.0.value])
  {
    match data
    case None => (None, db)
    case Some(reply) =>
      var category := FindCategory(db, reply.category);
      var subcategory := if category.Some? then FindSubCategory(db, category.value.id, reply.subcategory) else None;
      assert category.Some? ==> category.value.id < |db.categories| && db.categories[category.value.id] == category.value;
      assert subcategory.Some? ==> subcategory.value.id < |db.subcategories|;
      var (created, db') := Models.CreateSuggestion(db, tx, IdOf(category), SubIdOf(subcategory), reply.description);
      (Some(created.value), db')
  }

  lemma GenerateReturnsExisting(db: Db, tx: Id, backend: Prompt -> Option<Reply>, k: nat)
    requires Valid(db) && tx < |db.transactions|
    requires k < |db.suggestions| && db.suggestions[k].transaction == tx
    ensures GenerateSuggestion(db, tx, backend) == (Some(db.suggestions[k]), db)
  {
    SuggestionForIsUnique(db, tx, k);
  }

  lemma GenerateBackendFailure(db: Db, tx: Id, backend: Prompt -> Option<Reply>)
    requires Valid(db) && tx < |db.transactions|
    requires !HasSuggestion(db, tx) && backend(SuggestionPrompt(db, tx)).None?
    ensures GenerateSuggestion(db, tx, backend) == (None, db)
  {
  }

  /** A new suggestion: one row more in the suggestion table, PENDENTE, with the
      reply's description; the names resolved case-insensitively, the subcategory
      only inside the resolved category, and either left null when not found. */
  lemma GenerateCreates(db: Db, tx: Id, backend: Prompt -> Option<Reply>)
    requires Valid(db) && tx < |db.transactions|
    requires !HasSuggestion(db, tx) && backend(SuggestionPrompt(db, tx)).Some?
    ensures var reply := backend(SuggestionPrompt(db, tx)).value;
      var (r, db') := GenerateSuggestion(db, tx, backend);
      && r.Some?
      && r.value.id == |db.suggestions| && r.value.transaction == tx
      && r.value.status == Pending && r.value.description == reply.description
      && db' == db.(suggestions := db.suggestions + [r.value])
      && r.value.category == IdOf(FindCategory(db, reply.category))
      && r.value.subcategory == (if FindCategory(db, reply.category).Some?
                                 then SubIdOf(FindSubCategory(db, FindCategory(db, reply.category).value.id, reply.subcategory))
                                 else None)
      && (r.value.category.None? <==>
            reply.category.None? || forall c :: c in db.categories ==> Lower(c.name) != Lower(reply.category.value))
      && (r.value.category.Some? ==> (r.value.category.value < |db.categories| &&
            Lower(db.categories[r.value.category.value].name) == Lower(reply.category.value)))
      && (r.value.subcategory.Some? ==>
            && r.value.category.Some? && reply.subcategory.Some? && r.value.subcategory.value < |db.subcategories|
            && db.subcategories[r.value.subcategory.value].category == r.value.category.value
            && Lower(db.subcategories[r.value.subcategory.value].name) == Lower(reply.subcategory.value))
      && ((r.value.category.Some? && reply.subcategory.Some? &&
           exists s :: s in db.subcategories && s.category == r.value.category.value &&
                       Lower(s.name) == Lower(reply.subcategory.value)) ==> r.value.subcategory.Some?)
  {
    var reply := backend(SuggestionPrompt(db, tx)).value;
    var (r, db') := GenerateSuggestion(db, tx, backend);
    var category := FindCategory(db, reply.category);
    assert forall i :: 0 <= i < |db.categories| ==> db.categories[i] in db.categories;
    assert forall i :: 0 <= i < |db.subcategories| ==> db.subcategories[i] in db.subcategories;
    if category.Some? {
      assert db.categories[category.value.id] == category.value;
    }
  }

  /** Asking twice gives the same suggestion and writes once, whatever the backend says the second time. */
  lemma GenerateIsIdempotent(db: Db, tx: Id, backend: Prompt -> Option<Reply>, backend2: Prompt -> Option<Reply>)
    requires Valid(db) && tx < |db.transactions|
    requires GenerateSuggestion(db, tx, backend).0.Some?
    ensures var (r, db') := GenerateSuggestion(db, tx, backend);
      GenerateSuggestion(db', tx, backend2) == (r, db')
  {
    var (r, db') := GenerateSuggestion(db, tx, backend);
    if !HasSuggestion(db, tx) {
      GenerateCreates(db, tx, backend);
      assert db'.suggestions[|db.suggestions|] == r.value;
      SuggestionForIsUnique(db', tx, |db.suggestions|);
    }
  }

  /** What one call can change: only the suggestion table, and at most by one row for
      `tx` when it had none; a suggestion is returned exactly when `tx` has one afterwards,
      and none exactly when `tx` had none and the backend gave no answer. */
  lemma RespondShape(db: Db, tx: Id, data: Option<Reply>)
    requires Valid(db) && tx < |db.transactions|
    ensures var (r, db') := Respond(db, tx, data);
      && db' == db.(suggestions := db'.suggestions)
      && (db'.suggestions == db.suggestions ||
          (r.Some? && !HasSuggestion(db, tx) && db'.suggestions == db.suggestions + [r.value]))
      && (r.Some? ==> r.value.transaction == tx)
      && (r.Some? <==> HasSuggestion(db', tx))
      && (r.None? <==> !HasSuggestion(db, tx) && data.None?)
  {
    var (r, db') := Respond(db, tx, data);
    if HasSuggestion(db, tx) {
      var s := SuggestionFor(db, tx).value;
      var k :| 0 <= k < |db.suggestions| && db.suggestions[k] == s;
      SuggestionForIsUnique(db, tx, k);
    } else if r.Some? {
      assert db'.suggestions[|db.suggestions|] == r.value;
      SuggestionForIsUnique(db', tx, |db.suggestions|);
    }
  }

  /** The same for the service with its backend. */
  lemma GenerateShape(db: Db, tx: Id, backend: Prompt -> Option<Reply>)
    requires Valid(db) && tx < |db.transactions|
    ensures var (r, db') := GenerateSuggestion(db, tx, backend);
      && db' == db.(suggestions := db'.suggestions)
      && (db'.suggestions == db.suggestions ||
          (r.Some? && !HasSuggestion(db, tx) && db'.suggestions == db.suggestions + [r.value]))
      && (r.Some? ==> r.value.transaction == tx)
      && (r.Some? <==> HasSuggestion(db', tx))
      && (r.None? <==> !HasSuggestion(db, tx) && backend(SuggestionPrompt(db, tx)).None?)
  {
    RespondShape(db, tx, backend(SuggestionPrompt(db, tx)));
  }

  /** The service itself, writing through the store. */
  method GenerateSuggestionForTransaction(store: Store, tx: Id, backend: Prompt -> Option<Reply>)
    returns (r: Option<Suggestion>)
    requires store.Valid() && tx < |store.transactions|
    modifies store
    ensures store.Valid()
    ensures (r, store.State()) == GenerateSuggestion(old(store.State()), tx, backend)
  {
    var existing := SuggestionFor(store.State(), tx);
    if existing.Some? {
      return existing;
    }
    var data := backend(SuggestionPrompt(store.State(), tx));
    if data.None? {
      return None;
    }
    var category := FindCategory(store.State(), data.value.category);
    var subcategory: Option<SubCategory> := None;
    if category.Some? {
      subcategory := FindSubCategory(store.State(), category.value.id, data.value.subcategory);
    }
    assert category.Some? ==> category.value.id < |store.categories|;
    assert subcategory.Some? ==> subcategory.value.id < |store.subcategories|;
    var created := store.CreateSuggestion(tx, IdOf(category), SubIdOf(subcategory), data.value.description);
    return Some(created.value);
  }
}
