/**
 * process_statement: an empty statement short-circuits; a statement of more
 * than 300 expenses is cut to its first 300, labelled by the keyword table
 * where a keyword occurs and by the batch classifier otherwise; a shorter one
 * goes to the batch classifier whole. The labelled expenses are then added
 * up per category, and the categories sorted by total, largest first.
 */
module Process {
  import opened Wrappers
  import opened Text
  import opened Categories
  import opened Extraction
  import opened Batch
  import opened Buckets
  import opened LineScan

  /** At most this many expenses are processed. */
  const LIMIT: nat := 300

  /** The batch size process_statement asks categorize_expenses_batch for (its default, and the explicit 50). */
  const BATCH_SIZE: nat := 50

  /** `{'categories': ..., 'total_expenses': ..., 'total_transactions': ...}` */
  datatype Summary = Summary(categories: Table, totalExpenses: real, totalTransactions: nat)

  // ---------------------------------------------------------------- reference definitions

  /** `expenses[:300]` when there are more than 300; all of them otherwise. */
  function Truncate(expenses: seq<Transaction>): (r: seq<Transaction>)
    ensures |r| == if |expenses| > LIMIT then LIMIT else |expenses|
    ensures forall i :: 0 <= i < |r| ==> r[i] == expenses[i]
  {
    if |expenses| > LIMIT then expenses[..LIMIT] else expenses
  }

  /** The keyword pass on one expense: the category of the first keyword in its description. */
  function KeywordOf(t: Transaction): Option<string> {
    KeywordCategory(t.description)
  }

  /** Each expense the key labels, with that label, in order. */
  function Keyed(key: Transaction -> Option<string>, ts: seq<Transaction>): seq<Entry> {
    if ts == [] then []
    else
      var t := ts[|ts| - 1];
      match key(t)
      case Some(c) => Keyed(key, ts[..|ts| - 1]) + [(c, t)]
      case None => Keyed(key, ts[..|ts| - 1])
  }

  /** The expenses the key leaves unlabelled, in order. */
  function Unkeyed(key: Transaction -> Option<string>, ts: seq<Transaction>): seq<Transaction> {
    if ts == [] then []
    else
      var t := ts[|ts| - 1];
      if key(t).Some? then Unkeyed(key, ts[..|ts| - 1])
      else Unkeyed(key, ts[..|ts| - 1]) + [t]
  }

  /** The keyword pass: each expense a keyword labels, with that label, in order. */
  function KeywordEntries(ts: seq<Transaction>): seq<Entry> {
    Keyed(KeywordOf, ts)
  }

  /** The expenses no keyword labels, in order: the ones sent to the classifier. */
  function Unmatched(ts: seq<Transaction>): seq<Transaction> {
    Unkeyed(KeywordOf, ts)
  }

  /** Each expense with the label at its position. */
  function Labelled(ts: seq<Transaction>, ls: seq<string>): seq<Entry>
    requires |ls| == |ts|
  {
    if ts == [] then [] else Labelled(ts[..|ts| - 1], ls[..|ls| - 1]) + [(ls[|ls| - 1], ts[|ts| - 1])]
  }

  /** The labels categorize_expenses_batch gives the expenses, position by position. */
  function ClassifierLabels(req: Requests, ts: seq<Transaction>): (r: seq<string>)
    ensures |r| == |ts|
  {
    Labels(req, CleanAll(ts), EffectiveBatchSize(|ts|, BATCH_SIZE))
  }

  /**
   * The labelled expenses in the order they are added to the dictionary: on
   * the large path the keyword matches first, then the rest with the
   * classifier's labels; otherwise every expense with the classifier's label.
   */
  function Entries(req: Requests, expenses: seq<Transaction>): seq<Entry> {
    var x := Truncate(expenses);
    if |expenses| > LIMIT then
      var rest := Unmatched(x);
      KeywordEntries(x) + Labelled(rest, ClassifierLabels(req, rest))
    else Labelled(x, ClassifierLabels(req, x))
  }

  /** What process_statement returns. */
  function Statement(req: Requests, expenses: seq<Transaction>): Summary {
    if expenses == [] then Summary([], 0.0, 0)
    else
      var table := Fold([], Entries(req, expenses));
      Summary(SortByTotal(table), SumTotals(table), |Truncate(expenses)|)
  }

  /** `batch_categories.get(i, 'Other')` */
  function Get(labels: map<nat, string>, i: nat): string {
    if i in labels then labels[i] else "Other"
  }

  /** The labels looked up for positions 0 to n - 1. */
  function Got(labels: map<nat, string>, n: nat): (r: seq<string>)
    ensures |r| == n
  {
    if n == 0 then [] else Got(labels, n - 1) + [Get(labels, n - 1)]
  }

  // ---------------------------------------------------------------- the loops

  /** The inner keyword loop: the first table entry whose keyword occurs in text, if any. */
  method ScanKeywords(table: seq<(string, string)>, text: string) returns (found: Option<nat>)
    ensures found == FirstKeyword(table, text, 0)
  {
    var k := 0;
    while k < |table|
      invariant k <= |table|
      invariant FirstKeyword(table, text, k) == FirstKeyword(table, text, 0)
    {
      if Contains(text, table[k].0) {
        return Some(k);
      }
      k := k + 1;
    }
    return None;
  }

  /** Add each expense under the label the classifier's map gives its position, "Other" when it gives none. */
  method AddBatch(table: Table, ts: seq<Transaction>, labels: map<nat, string>) returns (r: Table)
    ensures r == Fold(table, Labelled(ts, Got(labels, |ts|)))
  {
    r := table;
    for i := 0 to |ts|
      invariant r == Fold(table, Labelled(ts[..i], Got(labels, i)))
    {
      assert ts[..i + 1][..i] == ts[..i];
      assert Got(labels, i + 1)[..i] == Got(labels, i);
      r := Add(r, Get(labels, i), ts[i]);
    }
    assert ts[..|ts|] == ts;
  }

  /** The keyword pass over the first 300 expenses of a large statement. */
  method KeywordPass(x: seq<Transaction>) returns (table: Table, uncategorized: seq<Transaction>)
    ensures table == Fold([], KeywordEntries(x))
    ensures uncategorized == Unmatched(x)
  {
    table, uncategorized := [], [];
    for i := 0 to |x|
      invariant table == Fold([], KeywordEntries(x[..i]))
      invariant uncategorized == Unmatched(x[..i])
    {
      assert x[..i + 1][..i] == x[..i];
      var found := ScanKeywords(KEYWORDS, Lower(x[i].description));
      if found.Some? {
        table := Add(table, KEYWORDS[found.value].1, x[i]);
      } else {
        uncategorized := uncategorized + [x[i]];
      }
    }
    assert x[..|x|] == x;
  }

  /** A map with a label for every position gives those labels back, and never the default. */
  lemma {:induction false} GotAll(labels: map<nat, string>, ls: seq<string>, n: nat)
    requires n <= |ls| && forall i :: 0 <= i < |ls| ==> i in labels && labels[i] == ls[i]
    ensures Got(labels, n) == ls[..n]
  {
    if n > 0 {
      GotAll(labels, ls, n - 1);
      assert ls[..n] == ls[..n - 1] + [ls[n - 1]];
    }
  }

  /** The classifier's map, looked up position by position, is ClassifierLabels. */
  lemma ClassifierMap(req: Requests, ts: seq<Transaction>, labels: map<nat, string>)
    requires forall i :: 0 <= i < |ts| ==> i in labels && labels[i] == ClassifierLabels(req, ts)[i]
    ensures Got(labels, |ts|) == ClassifierLabels(req, ts)
  {
    GotAll(labels, ClassifierLabels(req, ts), |ts|);
  }

  /**
   * process_statement: the statement's text and the two patterns' matches
   * are read into expenses, which are then labelled and added up.
   */
  method ProcessStatement(req: Requests, first: seq<Match>, alt: seq<Match>, text: string) returns (summary: Summary)
    ensures summary == Statement(req, Extract(first, alt, text))
  {
    var expenses := ExtractExpenses(first, alt, text);
    summary := ProcessExpenses(req, expenses);
  }

  /** process_statement from the extracted expenses on. */
  method ProcessExpenses(req: Requests, expenses: seq<Transaction>) returns (summary: Summary)
    ensures summary == Statement(req, expenses)
  {
    if expenses == [] {
      return Summary([], 0.0, 0);
    }
    var x := expenses;
    var table: Table;
    if |x| > LIMIT {
      x := x[..LIMIT];
      var uncategorized;
      table, uncategorized := KeywordPass(x);
      if uncategorized != [] {
        var labels := CategorizeBatch(req, uncategorized, BATCH_SIZE);
        ClassifierMap(req, uncategorized, labels);
        table := AddBatch(table, uncategorized, labels);
      }
      FoldAppend([], KeywordEntries(x), Labelled(uncategorized, ClassifierLabels(req, uncategorized)));
    } else {
      var labels := CategorizeBatch(req, x, BATCH_SIZE);
      assert 0 in labels;
      if labels != map[] {
        ClassifierMap(req, x, labels);
        table := AddBatch([], x, labels);
      } else {
        // The one-by-one fallback: the batch map has a label for every position, so it is never empty.
        assert false;
      }
    }
    summary := Summary(SortByTotal(table), SumTotals(table), |x|);
  }

  // ---------------------------------------------------------------- what the summary says

  /** A keyed expense carries its key's label, an unkeyed one has none, and the two lists split the expenses' count and sum. */
  lemma {:induction false} KeyedPartition(key: Transaction -> Option<string>, ts: seq<Transaction>)
    ensures forall k :: 0 <= k < |Keyed(key, ts)| ==> key(Keyed(key, ts)[k].1) == Some(Keyed(key, ts)[k].0)
    ensures forall t :: t in Unkeyed(key, ts) ==> key(t).None?
    ensures |Keyed(key, ts)| + |Unkeyed(key, ts)| == |ts|
    ensures Sum(TxOf(Keyed(key, ts))) + Sum(Unkeyed(key, ts)) == Sum(ts)
  {
    if ts != [] {
      var ts', t := ts[..|ts| - 1], ts[|ts| - 1];
      KeyedPartition(key, ts');
      match key(t)
      case Some(c) =>
        var es := Keyed(key, ts');
        assert (es + [(c, t)])[..|es|] == es;
      case None =>
        var u := Unkeyed(key, ts');
        assert (u + [t])[..|u|] == u;
    }
  }

  /** Each expense goes exactly one way: the two lists split the expenses as a multiset. */
  lemma {:induction false} KeyedSplit(key: Transaction -> Option<string>, ts: seq<Transaction>)
    ensures multiset(TxOf(Keyed(key, ts))) + multiset(Unkeyed(key, ts)) == multiset(ts)
  {
    if ts != [] {
      var ts', t := ts[..|ts| - 1], ts[|ts| - 1];
      KeyedSplit(key, ts');
      KeyedLast(key, ts);
    }
  }

  /** The last expense adds itself to exactly one of the two lists. */
  lemma KeyedLast(key: Transaction -> Option<string>, ts: seq<Transaction>)
    requires ts != []
    ensures var ts', t := ts[..|ts| - 1], ts[|ts| - 1];
      && multiset(ts) == multiset(ts') + multiset{t}
      && multiset(TxOf(Keyed(key, ts))) + multiset(Unkeyed(key, ts))
         == multiset(TxOf(Keyed(key, ts'))) + multiset(Unkeyed(key, ts')) + multiset{t}
  {
    var ts', t := ts[..|ts| - 1], ts[|ts| - 1];
    assert ts == ts' + [t];
    match key(t)
    case Some(c) =>
      var es := Keyed(key, ts');
      assert (es + [(c, t)])[..|es|] == es;
    case None =>
  }

  /** Both lists keep the expenses' order: over a concatenation they are the lists of each part, in turn. */
  lemma {:induction false} KeyedAppend(key: Transaction -> Option<string>, a: seq<Transaction>, b: seq<Transaction>)
    ensures Keyed(key, a + b) == Keyed(key, a) + Keyed(key, b)
    ensures Unkeyed(key, a + b) == Unkeyed(key, a) + Unkeyed(key, b)
    decreases |b|
  {
    if b == [] {
      assert a + b == a;
    } else {
      var init := b[..|b| - 1];
      KeyedAppend(key, a, init);
      assert (a + b)[..|a + b| - 1] == a + init;
      assert (a + b)[|a + b| - 1] == b[|b| - 1];
    }
  }

  /** The keyword pass labels an expense with the category of the first keyword in it, and sends on exactly the rest. */
  lemma KeywordPartition(ts: seq<Transaction>)
    ensures forall k :: 0 <= k < |KeywordEntries(ts)| ==>
      KeywordCategory(KeywordEntries(ts)[k].1.description) == Some(KeywordEntries(ts)[k].0)
    ensures forall t :: t in Unmatched(ts) ==> KeywordCategory(t.description).None?
    ensures |KeywordEntries(ts)| + |Unmatched(ts)| == |ts|
    ensures Sum(TxOf(KeywordEntries(ts))) + Sum(Unmatched(ts)) == Sum(ts)
  {
    KeyedPartition(KeywordOf, ts);
  }

  /** The keyword pass sends each expense exactly one way: the two lists split the expenses as a multiset. */
  lemma KeywordSplit(ts: seq<Transaction>)
    ensures multiset(TxOf(KeywordEntries(ts))) + multiset(Unmatched(ts)) == multiset(ts)
  {
    KeyedSplit(KeywordOf, ts);
  }

  /** Both lists of the keyword pass keep the expenses' order. */
  lemma KeywordPassAppend(a: seq<Transaction>, b: seq<Transaction>)
    ensures KeywordEntries(a + b) == KeywordEntries(a) + KeywordEntries(b)
    ensures Unmatched(a + b) == Unmatched(a) + Unmatched(b)
  {
    KeyedAppend(KeywordOf, a, b);
  }

  /** One expense: labelled by the keyword pass when a keyword occurs in it, sent to the classifier otherwise. */
  lemma KeywordPassOne(t: Transaction)
    ensures KeywordEntries([t]) == if KeywordCategory(t.description).Some? then [(KeywordCategory(t.description).value, t)] else []
    ensures Unmatched([t]) == if KeywordCategory(t.description).Some? then [] else [t]
  {
    KeyedOne(KeywordOf, t);
  }

  lemma KeyedOne(key: Transaction -> Option<string>, t: Transaction)
    ensures Keyed(key, [t]) == if key(t).Some? then [(key(t).value, t)] else []
    ensures Unkeyed(key, [t]) == if key(t).Some? then [] else [t]
  {
    assert [t][..0] == [];
  }

  /** Labelled pairs position k of the expenses with position k of the labels. */
  lemma {:induction false} LabelledAt(ts: seq<Transaction>, ls: seq<string>)
    requires |ls| == |ts|
    ensures |Labelled(ts, ls)| == |ts|
    ensures forall k :: 0 <= k < |ts| ==> Labelled(ts, ls)[k] == (ls[k], ts[k])
  {
    if ts != [] {
      LabelledAt(ts[..|ts| - 1], ls[..|ls| - 1]);
    }
  }

  lemma LabelledTx(ts: seq<Transaction>, ls: seq<string>)
    requires |ls| == |ts|
    ensures TxOf(Labelled(ts, ls)) == ts
  {
    LabelledAt(ts, ls);
    TxOfAt(Labelled(ts, ls));
  }

  lemma {:induction false} TxOfAt(es: seq<Entry>)
    ensures forall k :: 0 <= k < |es| ==> TxOf(es)[k] == es[k].1
  {
    if es != [] {
      TxOfAt(es[..|es| - 1]);
    }
  }

  lemma {:induction false} TxOfAppend(es: seq<Entry>, fs: seq<Entry>)
    ensures TxOf(es + fs) == TxOf(es) + TxOf(fs)
  {
    TxOfAt(es);
    TxOfAt(fs);
    TxOfAt(es + fs);
  }

  /** Every one of the (at most 300) expenses is added exactly once, whichever path it takes. */
  lemma EntriesAccount(req: Requests, expenses: seq<Transaction>)
    ensures |Entries(req, expenses)| == |Truncate(expenses)|
    ensures Sum(TxOf(Entries(req, expenses))) == Sum(Truncate(expenses))
    ensures multiset(TxOf(Entries(req, expenses))) == multiset(Truncate(expenses))
    ensures |expenses| <= LIMIT ==> TxOf(Entries(req, expenses)) == expenses
    ensures |expenses| > LIMIT ==> TxOf(Entries(req, expenses)) == TxOf(KeywordEntries(Truncate(expenses))) + Unmatched(Truncate(expenses))
  {
    var x := Truncate(expenses);
    if |expenses| > LIMIT {
      LargeAccount(req, x);
    } else {
      assert x == expenses;
      LabelledTx(x, ClassifierLabels(req, x));
    }
  }

  /** On the large path, the keyword entries and then the classified rest: every expense once, their amounts kept. */
  lemma LargeAccount(req: Requests, x: seq<Transaction>)
    ensures var es := KeywordEntries(x) + Labelled(Unmatched(x), ClassifierLabels(req, Unmatched(x)));
      && |es| == |x| && Sum(TxOf(es)) == Sum(x) && multiset(TxOf(es)) == multiset(x)
      && TxOf(es) == TxOf(KeywordEntries(x)) + Unmatched(x)
  {
    KeywordPartition(x);
    KeywordSplit(x);
    SplitAccount(KeywordEntries(x), Unmatched(x), ClassifierLabels(req, Unmatched(x)), x);
  }

  /** Labelled entries appended to entries that split x with them account for x. */
  lemma SplitAccount(ks: seq<Entry>, rest: seq<Transaction>, ls: seq<string>, x: seq<Transaction>)
    requires |ls| == |rest| && |ks| + |rest| == |x|
    requires Sum(TxOf(ks)) + Sum(rest) == Sum(x) && multiset(TxOf(ks)) + multiset(rest) == multiset(x)
    ensures var es := ks + Labelled(rest, ls);
      && |es| == |x| && Sum(TxOf(es)) == Sum(x) && multiset(TxOf(es)) == multiset(x)
      && TxOf(es) == TxOf(ks) + rest
  {
    LabelledTx(rest, ls);
    TxOfAppend(ks, Labelled(rest, ls));
    SumAppend(TxOf(ks), rest);
  }

  /**
   * The totals: total_expenses is the sum of the amounts of the expenses
   * processed, total_transactions is how many there were (at most 300), and
   * the categories hold that many transactions between them.
   */
  lemma StatementTotals(req: Requests, expenses: seq<Transaction>)
    ensures var s := Statement(req, expenses);
      && s.totalExpenses == Sum(Truncate(expenses))
      && s.totalTransactions == |Truncate(expenses)| == Count(s.categories)
      && s.totalTransactions <= LIMIT
  {
    if expenses != [] {
      var es := Entries(req, expenses);
      EntriesAccount(req, expenses);
      FoldAccounts([], es);
      CountSort(Fold([], es));
    }
  }

  /**
   * The categories: largest total first, ties in the order the categories were
   * first used, no category twice, a row for exactly the labels given, and
   * each row holding the transactions given its label, in order, with their
   * sum as its total.
   */
  lemma StatementRows(req: Requests, expenses: seq<Transaction>)
    ensures var rows := Statement(req, expenses).categories;
      var es := Entries(req, expenses);
      && Descending(rows) && DistinctNames(rows)
      && (forall v :: WithTotal(rows, v) == WithTotal(Fold([], es), v))
      && (forall row :: row in rows ==> row.0 in FirstSeen(es) && row.1 == Bucket(Sum(Of(es, row.0)), Of(es, row.0)))
      && (forall name :: name in FirstSeen(es) ==> exists row :: row in rows && row.0 == name)
  {
    if expenses != [] {
      SortedOrder(Entries(req, expenses));
      SortedContents(Entries(req, expenses));
    } else {
      assert Entries(req, expenses) == [];
    }
  }

  /** When both service requests only ever answer with categories, every row is one of the nine categories. */
  lemma StatementCategories(req: Requests, expenses: seq<Transaction>)
    requires Answers(req)
    ensures forall row :: row in Statement(req, expenses).categories ==> row.0 in CATEGORIES
  {
    var es := Entries(req, expenses);
    EntriesCategories(req, expenses);
    StatementRows(req, expenses);
    forall row | row in Statement(req, expenses).categories
      ensures row.0 in CATEGORIES
    {
      FirstSeenMembers(es, row.0);
    }
  }

  /** For a service as the code talks to it, every row of the result is one of the nine categories. */
  lemma ServiceCategories(svc: Service, expenses: seq<Transaction>)
    ensures forall row :: row in Statement(RequestsOf(svc), expenses).categories ==> row.0 in CATEGORIES
  {
    RequestsAnswer(svc);
    StatementCategories(RequestsOf(svc), expenses);
  }

  /** Every label an entry carries is a category, when the service requests only give categories. */
  lemma EntriesCategories(req: Requests, expenses: seq<Transaction>)
    requires Answers(req)
    ensures forall k :: 0 <= k < |Entries(req, expenses)| ==> Entries(req, expenses)[k].0 in CATEGORIES
  {
    var x := Truncate(expenses);
    if |expenses| > LIMIT {
      var rest := Unmatched(x);
      KeywordEntriesCategories(x);
      ClassifiedCategories(req, rest);
      EntriesAppend(KeywordEntries(x), Labelled(rest, ClassifierLabels(req, rest)));
    } else {
      ClassifiedCategories(req, x);
    }
  }

  /** The keyword pass only ever gives categories. */
  lemma KeywordEntriesCategories(x: seq<Transaction>)
    ensures forall k :: 0 <= k < |KeywordEntries(x)| ==> KeywordEntries(x)[k].0 in CATEGORIES
  {
    var ks := KeywordEntries(x);
    KeywordPartition(x);
    forall k | 0 <= k < |ks| ensures ks[k].0 in CATEGORIES {
      assert KeywordCategory(ks[k].1.description) == Some(ks[k].0);
    }
  }

  /** With requests that only give categories, the classifier's labels are categories. */
  lemma ClassifiedCategories(req: Requests, ts: seq<Transaction>)
    requires Answers(req)
    ensures forall k :: 0 <= k < |Labelled(ts, ClassifierLabels(req, ts))| ==> Labelled(ts, ClassifierLabels(req, ts))[k].0 in CATEGORIES
  {
    LabelledAt(ts, ClassifierLabels(req, ts));
    LabelsCategories(req, CleanAll(ts), EffectiveBatchSize(|ts|, BATCH_SIZE));
  }

  lemma EntriesAppend(a: seq<Entry>, b: seq<Entry>)
    requires forall k :: 0 <= k < |a| ==> a[k].0 in CATEGORIES
    requires forall k :: 0 <= k < |b| ==> b[k].0 in CATEGORIES
    ensures forall k :: 0 <= k < |a + b| ==> (a + b)[k].0 in CATEGORIES
  {
  }
}
