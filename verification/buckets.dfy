/**
 * The per-category accumulation of process_statement: a dictionary from
 * category to a running total and the list of its transactions, filled in
 * the order labels arrive (a defaultdict keeps first-insertion order), then
 * sorted by total, largest first, with ties in insertion order.
 */
module Buckets {
  import opened Wrappers
  import opened Extraction

  /** `{'total': ..., 'transactions': [...]}` */
  datatype Bucket = Bucket(total: real, transactions: seq<Transaction>)

  /** A category label and the transaction it was given. */
  type Entry = (string, Transaction)

  /** The dictionary, as its items in insertion order. */
  type Table = seq<(string, Bucket)>

  // ---------------------------------------------------------------- reference definitions

  /** `sum(t['amount'] for t in ts)`, adding left to right from 0.0. */
  function Sum(ts: seq<Transaction>): real {
    if ts == [] then 0.0 else Sum(ts[..|ts| - 1]) + ts[|ts| - 1].amount
  }

  /** The transactions of the entries, in order. */
  function TxOf(es: seq<Entry>): (r: seq<Transaction>)
    ensures |r| == |es|
  {
    if es == [] then [] else TxOf(es[..|es| - 1]) + [es[|es| - 1].1]
  }

  /** The transactions the entries label `name`, in order. */
  function Of(es: seq<Entry>, name: string): seq<Transaction> {
    if es == [] then []
    else if es[|es| - 1].0 == name then Of(es[..|es| - 1], name) + [es[|es| - 1].1]
    else Of(es[..|es| - 1], name)
  }

  /** The labels of the entries, each once, in the order they first occur. */
  function FirstSeen(es: seq<Entry>): seq<string> {
    if es == [] then []
    else if es[|es| - 1].0 in FirstSeen(es[..|es| - 1]) then FirstSeen(es[..|es| - 1])
    else FirstSeen(es[..|es| - 1]) + [es[|es| - 1].0]
  }

  predicate DistinctNames(t: Table) {
    forall i, j :: 0 <= i < j < |t| ==> t[i].0 != t[j].0
  }

  // ---------------------------------------------------------------- the dictionary

  /** Where `name` is in the table, if it is. */
  function Slot(t: Table, name: string): (r: Option<nat>)
    ensures r.Some? ==> r.value < |t| && t[r.value].0 == name
    ensures r.None? ==> forall k :: 0 <= k < |t| ==> t[k].0 != name
  {
    if t == [] then None
    else if t[|t| - 1].0 == name then Some(|t| - 1)
    else Slot(t[..|t| - 1], name)
  }

  /**
   * `categorized[name]['total'] += t['amount']` and
   * `categorized[name]['transactions'].append(t)`, where a missing name first
   * gets the default bucket with total 0.0 and no transactions.
   */
  function Add(t: Table, name: string, x: Transaction): Table {
    match Slot(t, name)
    case Some(k) => t[k := (name, Bucket(t[k].1.total + x.amount, t[k].1.transactions + [x]))]
    case None => t + [(name, Bucket(0.0 + x.amount, [x]))]
  }

  /** The table after adding every entry in turn. */
  function Fold(t: Table, es: seq<Entry>): (r: Table)
    ensures |t| <= |r|
  {
    if es == [] then t else Add(Fold(t, es[..|es| - 1]), es[|es| - 1].0, es[|es| - 1].1)
  }

  /** Adding one more entry is one more Add. */
  lemma FoldSnoc(t: Table, es: seq<Entry>, e: Entry)
    ensures Fold(t, es + [e]) == Add(Fold(t, es), e.0, e.1)
  {
    assert (es + [e])[..|es|] == es;
  }

  /** Adding two runs of entries is adding the first, then the second. */
  lemma {:induction false} FoldAppend(t: Table, es: seq<Entry>, fs: seq<Entry>)
    ensures Fold(t, es + fs) == Fold(Fold(t, es), fs)
    decreases |fs|
  {
    if fs == [] {
      assert es + fs == es;
    } else {
      var fs', f := fs[..|fs| - 1], fs[|fs| - 1];
      assert es + fs == (es + fs') + [f];
      assert fs == fs' + [f];
      FoldSnoc(t, es + fs', f);
      FoldAppend(t, es, fs');
      FoldSnoc(Fold(t, es), fs', f);
    }
  }

  // ---------------------------------------------------------------- what the table holds

  /**
   * t has one item per label of es, in the order the labels first occur, and
   * each label's bucket holds exactly the transactions es gives that label,
   * in order, with their sum as its total.
   */
  predicate Rows(t: Table, es: seq<Entry>) {
    && |t| == |FirstSeen(es)|
    && (forall k :: 0 <= k < |t| ==> t[k].0 == FirstSeen(es)[k])
    && (forall k :: 0 <= k < |t| ==> t[k].1 == Bucket(Sum(Of(es, t[k].0)), Of(es, t[k].0)))
  }

  /** The table built from the entries holds them as Rows says. */
  lemma {:induction false} FoldRows(es: seq<Entry>)
    ensures Rows(Fold([], es), es)
  {
    if es != [] {
      var es', e := es[..|es| - 1], es[|es| - 1];
      FoldRows(es');
      assert es == es' + [e];
      AddRows(Fold([], es'), es', e);
    }
  }

  /** Adding an entry keeps the table in step with the entries. */
  lemma AddRows(t: Table, es: seq<Entry>, e: Entry)
    requires Rows(t, es)
    ensures Rows(Add(t, e.0, e.1), es + [e])
  {
    match Slot(t, e.0)
    case Some(k) => AddRowsFound(t, es, e, k);
    case None => AddRowsNew(t, es, e);
  }

  /** Entries with another label leave a label's transactions alone. */
  lemma OfOther(es: seq<Entry>, e: Entry, name: string)
    requires e.0 != name
    ensures Of(es + [e], name) == Of(es, name)
  {
    assert (es + [e])[..|es|] == es;
  }

  /** An entry with the label adds its transaction at the end. */
  lemma OfSame(es: seq<Entry>, e: Entry)
    ensures Of(es + [e], e.0) == Of(es, e.0) + [e.1]
    ensures Sum(Of(es + [e], e.0)) == Sum(Of(es, e.0)) + e.1.amount
  {
    assert (es + [e])[..|es|] == es;
    var o := Of(es, e.0);
    assert (o + [e.1])[..|o|] == o;
  }

  lemma AddRowsFound(t: Table, es: seq<Entry>, e: Entry, k: nat)
    requires Rows(t, es) && Slot(t, e.0) == Some(k)
    ensures Rows(Add(t, e.0, e.1), es + [e])
  {
    var es2, u := es + [e], Add(t, e.0, e.1);
    SeenAgain(t, es, e, k);
    forall j | 0 <= j < |t|
      ensures |u| == |t| && u[j].0 == t[j].0 && u[j].1 == Bucket(Sum(Of(es2, u[j].0)), Of(es2, u[j].0))
    {
      FoundRow(t, es, e, k, j);
    }
  }

  /** A label seen before is not seen anew. */
  lemma SeenAgain(t: Table, es: seq<Entry>, e: Entry, k: nat)
    requires Rows(t, es) && Slot(t, e.0) == Some(k)
    ensures FirstSeen(es + [e]) == FirstSeen(es)
  {
    assert (es + [e])[..|es|] == es;
    assert FirstSeen(es)[k] == e.0;
  }

  /** Row j after adding an entry whose label has row k. */
  lemma FoundRow(t: Table, es: seq<Entry>, e: Entry, k: nat, j: nat)
    requires Rows(t, es) && Slot(t, e.0) == Some(k) && j < |t|
    ensures var u := Add(t, e.0, e.1);
      && |u| == |t| && u[j].0 == t[j].0
      && u[j].1 == Bucket(Sum(Of(es + [e], u[j].0)), Of(es + [e], u[j].0))
  {
    var u := Add(t, e.0, e.1);
    assert u == t[k := (e.0, Bucket(t[k].1.total + e.1.amount, t[k].1.transactions + [e.1]))];
    if j == k {
      OfSame(es, e);
    } else {
      FirstSeenDistinct(es);
      assert FirstSeen(es)[j] != FirstSeen(es)[k];
      OfOther(es, e, t[j].0);
    }
  }

  lemma AddRowsNew(t: Table, es: seq<Entry>, e: Entry)
    requires Rows(t, es) && Slot(t, e.0).None?
    ensures Rows(Add(t, e.0, e.1), es + [e])
  {
    var es2 := es + [e];
    assert es2[..|es|] == es;
    assert e.0 !in FirstSeen(es);
    assert FirstSeen(es2) == FirstSeen(es) + [e.0];
    var u := Add(t, e.0, e.1);
    NotSeenNone(es, e.0);
    OfSame(es, e);
    assert Sum([e.1]) == Sum([]) + e.1.amount;
    forall j | 0 <= j < |u|
      ensures u[j].1 == Bucket(Sum(Of(es2, u[j].0)), Of(es2, u[j].0))
    {
      if j < |t| {
        OfOther(es, e, t[j].0);
      }
    }
  }

  /** A label that never occurs labels nothing. */
  lemma {:induction false} NotSeenNone(es: seq<Entry>, name: string)
    requires name !in FirstSeen(es)
    ensures Of(es, name) == []
  {
    if es != [] {
      NotSeenNone(es[..|es| - 1], name);
    }
  }

  /** Each label is listed once. */
  lemma {:induction false} FirstSeenDistinct(es: seq<Entry>)
    ensures forall i, j :: 0 <= i < j < |FirstSeen(es)| ==> FirstSeen(es)[i] != FirstSeen(es)[j]
  {
    if es != [] {
      FirstSeenDistinct(es[..|es| - 1]);
    }
  }

  /** The labels listed are exactly the labels of the entries. */
  lemma {:induction false} FirstSeenMembers(es: seq<Entry>, name: string)
    ensures name in FirstSeen(es) <==> exists i :: 0 <= i < |es| && es[i].0 == name
  {
    if es != [] {
      var es' := es[..|es| - 1];
      FirstSeenMembers(es', name);
      if name in FirstSeen(es') {
        var i :| 0 <= i < |es'| && es'[i].0 == name;
        assert es[i].0 == name;
      } else if name != es[|es| - 1].0 {
        forall i | 0 <= i < |es| ensures es[i].0 != name {
          if i < |es'| {
            assert es[i] == es'[i];
          }
        }
      }
    }
  }

  /** The table built from the entries never names a category twice. */
  lemma FoldDistinct(es: seq<Entry>)
    ensures DistinctNames(Fold([], es))
  {
    FoldRows(es);
    FirstSeenDistinct(es);
  }

  // ---------------------------------------------------------------- totals and counts

  /** `sum(cat['total'] for cat in categorized.values())`. */
  function SumTotals(t: Table): real {
    if t == [] then 0.0 else SumTotals(t[..|t| - 1]) + t[|t| - 1].1.total
  }

  /** How many transactions the buckets hold together. */
  function Count(t: Table): nat {
    if t == [] then 0 else Count(t[..|t| - 1]) + |t[|t| - 1].1.transactions|
  }

  lemma {:induction false} SumAppend(a: seq<Transaction>, b: seq<Transaction>)
    ensures Sum(a + b) == Sum(a) + Sum(b)
    decreases |b|
  {
    if b == [] {
      assert a + b == a;
    } else {
      assert (a + b)[..|a + b| - 1] == a + b[..|b| - 1];
      SumAppend(a, b[..|b| - 1]);
    }
  }

  /** Changing one bucket changes the sum of the totals by the change in that bucket's total. */
  lemma {:induction false} SumTotalsUpdate(t: Table, k: nat, row: (string, Bucket))
    requires k < |t|
    ensures SumTotals(t[k := row]) == SumTotals(t) - t[k].1.total + row.1.total
    decreases |t|
  {
    var u := t[k := row];
    if k == |t| - 1 {
      assert u[..|u| - 1] == t[..|t| - 1];
    } else {
      assert u[..|u| - 1] == t[..|t| - 1][k := row];
      SumTotalsUpdate(t[..|t| - 1], k, row);
    }
  }

  /** Changing one bucket changes the count by the change in that bucket's size. */
  lemma {:induction false} CountUpdate(t: Table, k: nat, row: (string, Bucket))
    requires k < |t|
    ensures Count(t[k := row]) == Count(t) - |t[k].1.transactions| + |row.1.transactions|
    decreases |t|
  {
    var u := t[k := row];
    if k == |t| - 1 {
      assert u[..|u| - 1] == t[..|t| - 1];
    } else {
      assert u[..|u| - 1] == t[..|t| - 1][k := row];
      CountUpdate(t[..|t| - 1], k, row);
    }
  }

  /** Each Add puts the amount into exactly one total and the transaction into exactly one bucket. */
  lemma AddAccounts(t: Table, name: string, x: Transaction)
    ensures SumTotals(Add(t, name, x)) == SumTotals(t) + x.amount
    ensures Count(Add(t, name, x)) == Count(t) + 1
  {
    match Slot(t, name)
    case Some(k) =>
      var row := (name, Bucket(t[k].1.total + x.amount, t[k].1.transactions + [x]));
      SumTotalsUpdate(t, k, row);
      CountUpdate(t, k, row);
    case None =>
      var u := t + [(name, Bucket(0.0 + x.amount, [x]))];
      assert u[..|u| - 1] == t;
  }

  /**
   * Nothing is lost or counted twice: the buckets hold as many transactions
   * as there are entries, and their totals add up to the entries' amounts.
   */
  lemma {:induction false} FoldAccounts(t: Table, es: seq<Entry>)
    ensures SumTotals(Fold(t, es)) == SumTotals(t) + Sum(TxOf(es))
    ensures Count(Fold(t, es)) == Count(t) + |es|
  {
    if es != [] {
      var es', e := es[..|es| - 1], es[|es| - 1];
      FoldAccounts(t, es');
      AddAccounts(Fold(t, es'), e.0, e.1);
    }
  }

  // ---------------------------------------------------------------- sorting by total

  /** `sorted(..., key=total, reverse=True)` puts x before the first item whose total is not larger. */
  function Insert(x: (string, Bucket), s: Table): (r: Table)
    ensures multiset(r) == multiset(s) + multiset{x}
  {
    if s == [] || x.1.total >= s[0].1.total then [x] + s
    else
      assert s == [s[0]] + s[1..];
      [s[0]] + Insert(x, s[1..])
  }

  /** Python's stable descending sort on the totals. */
  function SortByTotal(t: Table): (r: Table)
    ensures multiset(r) == multiset(t)
  {
    if t == [] then []
    else
      assert t == [t[0]] + t[1..];
      Insert(t[0], SortByTotal(t[1..]))
  }

  predicate Descending(s: Table) {
    forall i, j :: 0 <= i < j < |s| ==> s[i].1.total >= s[j].1.total
  }

  /** The items with total v, in order. */
  function WithTotal(s: Table, v: real): Table {
    if s == [] then [] else if s[0].1.total == v then [s[0]] + WithTotal(s[1..], v) else WithTotal(s[1..], v)
  }

  lemma {:induction false} InsertDescending(x: (string, Bucket), s: Table)
    requires Descending(s)
    ensures Descending(Insert(x, s))
  {
    if s != [] && x.1.total < s[0].1.total {
      InsertDescending(x, s[1..]);
      InsertBelow(x, s[1..], s[0].1.total);
      ConsDescending(s[0], Insert(x, s[1..]));
    } else {
      ConsDescending(x, s);
    }
  }

  /** An item no smaller than every item of a descending table can go in front. */
  lemma ConsDescending(h: (string, Bucket), r: Table)
    requires Descending(r) && forall k :: 0 <= k < |r| ==> r[k].1.total <= h.1.total
    ensures Descending([h] + r)
  {
    forall i, j | 0 <= i < j < |r| + 1
      ensures ([h] + r)[i].1.total >= ([h] + r)[j].1.total
    {
      assert ([h] + r)[j] == r[j - 1];
      if i > 0 {
        assert ([h] + r)[i] == r[i - 1];
      }
    }
  }

  /** Inserting below a bound keeps every item below it. */
  lemma InsertBelow(x: (string, Bucket), s: Table, bound: real)
    requires x.1.total <= bound && forall k :: 0 <= k < |s| ==> s[k].1.total <= bound
    ensures forall k :: 0 <= k < |Insert(x, s)| ==> Insert(x, s)[k].1.total <= bound
  {
    var r := Insert(x, s);
    forall k | 0 <= k < |r|
      ensures r[k].1.total <= bound
    {
      assert r[k] in multiset(r);
    }
  }

  /** The items come out largest total first. */
  lemma {:induction false} SortDescending(t: Table)
    ensures Descending(SortByTotal(t))
  {
    if t != [] {
      SortDescending(t[1..]);
      InsertDescending(t[0], SortByTotal(t[1..]));
    }
  }

  /** Insert passes over only items with a larger total, so x stays ahead of its equals. */
  lemma {:induction false} InsertStable(x: (string, Bucket), s: Table, v: real)
    ensures WithTotal(Insert(x, s), v) == if x.1.total == v then [x] + WithTotal(s, v) else WithTotal(s, v)
  {
    if s != [] && x.1.total < s[0].1.total {
      InsertStable(x, s[1..], v);
      assert ([s[0]] + Insert(x, s[1..]))[1..] == Insert(x, s[1..]);
    } else {
      assert ([x] + s)[1..] == s;
    }
  }

  /** Items with equal totals keep their order: the sort is stable. */
  lemma {:induction false} SortStable(t: Table, v: real)
    ensures WithTotal(SortByTotal(t), v) == WithTotal(t, v)
  {
    if t != [] {
      SortStable(t[1..], v);
      InsertStable(t[0], SortByTotal(t[1..]), v);
    }
  }

  /** Sorting keeps the names distinct. */
  lemma {:induction false} SortDistinct(t: Table)
    requires DistinctNames(t)
    ensures DistinctNames(SortByTotal(t))
  {
    if t != [] {
      SortDistinct(t[1..]);
      var s := SortByTotal(t[1..]);
      forall y | y in s ensures y.0 != t[0].0 {
        assert y in multiset(s);
        var j :| 0 <= j < |t[1..]| && t[1..][j] == y;
        assert t[j + 1] == y;
      }
      InsertDistinct(t[0], s);
    }
  }

  lemma {:induction false} InsertDistinct(x: (string, Bucket), s: Table)
    requires DistinctNames(s) && forall y :: y in s ==> y.0 != x.0
    ensures DistinctNames(Insert(x, s))
  {
    if s == [] || x.1.total >= s[0].1.total {
      ConsDistinct(x, s);
    } else {
      DistinctTail(s);
      InsertDistinct(x, s[1..]);
      InsertAvoids(x, s[1..], s[0].0);
      ConsDistinct(s[0], Insert(x, s[1..]));
    }
  }

  /** The rest of a table with distinct names has distinct names, none of them the first. */
  lemma DistinctTail(s: Table)
    requires DistinctNames(s) && s != []
    ensures DistinctNames(s[1..]) && s[0] in s
    ensures forall y :: y in s[1..] ==> y.0 != s[0].0
  {
    forall y | y in s[1..]
      ensures y.0 != s[0].0
    {
      var j :| 0 <= j < |s[1..]| && s[1..][j] == y;
      assert s[j + 1] == y;
    }
  }

  /** An item whose name is new can go in front. */
  lemma ConsDistinct(h: (string, Bucket), r: Table)
    requires DistinctNames(r) && forall y :: y in r ==> y.0 != h.0
    ensures DistinctNames([h] + r)
  {
    forall i, j | 0 <= i < j < |r| + 1
      ensures ([h] + r)[i].0 != ([h] + r)[j].0
    {
      assert ([h] + r)[j] == r[j - 1];
      if i > 0 {
        assert ([h] + r)[i] == r[i - 1];
      }
    }
  }

  /** Inserting an item without a name keeps the name out. */
  lemma InsertAvoids(x: (string, Bucket), s: Table, name: string)
    requires x.0 != name && forall y :: y in s ==> y.0 != name
    ensures forall y :: y in Insert(x, s) ==> y.0 != name
  {
    var r := Insert(x, s);
    forall y | y in r
      ensures y.0 != name
    {
      assert y in multiset(r);
    }
  }

  lemma {:induction false} CountCons(x: (string, Bucket), s: Table)
    ensures Count([x] + s) == |x.1.transactions| + Count(s)
    decreases |s|
  {
    if s != [] {
      assert ([x] + s)[..|s|] == [x] + s[..|s| - 1];
      CountCons(x, s[..|s| - 1]);
    } else {
      assert ([x] + s)[..0] == [];
    }
  }

  lemma {:induction false} CountInsert(x: (string, Bucket), s: Table)
    ensures Count(Insert(x, s)) == Count(s) + |x.1.transactions|
  {
    if s == [] || x.1.total >= s[0].1.total {
      CountCons(x, s);
    } else {
      CountInsert(x, s[1..]);
      CountCons(s[0], Insert(x, s[1..]));
      CountCons(s[0], s[1..]);
      assert [s[0]] + s[1..] == s;
    }
  }

  /** Sorting moves buckets around and changes none of them. */
  lemma {:induction false} CountSort(t: Table)
    ensures Count(SortByTotal(t)) == Count(t)
  {
    if t != [] {
      CountSort(t[1..]);
      CountInsert(t[0], SortByTotal(t[1..]));
      CountCons(t[0], t[1..]);
      assert [t[0]] + t[1..] == t;
    }
  }

  /**
   * The sorted table built from the entries: largest total first, ties in the
   * order their labels first occurred, and no label twice.
   */
  lemma SortedOrder(es: seq<Entry>)
    ensures var t := Fold([], es);
      var rows := SortByTotal(t);
      && Descending(rows) && DistinctNames(rows)
      && (forall v :: WithTotal(rows, v) == WithTotal(t, v))
  {
    var t := Fold([], es);
    FoldDistinct(es);
    SortDescending(t);
    SortDistinct(t);
    forall v ensures WithTotal(SortByTotal(t), v) == WithTotal(t, v) {
      SortStable(t, v);
    }
  }

  /**
   * The sorted table has a row for exactly the labels that occur, each holding
   * that label's transactions, in order, and their sum.
   */
  lemma SortedContents(es: seq<Entry>)
    ensures var rows := SortByTotal(Fold([], es));
      && (forall row :: row in rows ==> row.0 in FirstSeen(es) && row.1 == Bucket(Sum(Of(es, row.0)), Of(es, row.0)))
      && (forall name :: name in FirstSeen(es) ==> exists row :: row in rows && row.0 == name)
  {
    var t := Fold([], es);
    var rows := SortByTotal(t);
    FoldRows(es);
    forall row | row in rows
      ensures row.0 in FirstSeen(es) && row.1 == Bucket(Sum(Of(es, row.0)), Of(es, row.0))
    {
      SortMembers(t, row);
      var k :| 0 <= k < |t| && t[k] == row;
    }
    forall name | name in FirstSeen(es)
      ensures exists row :: row in rows && row.0 == name
    {
      var k :| 0 <= k < |FirstSeen(es)| && FirstSeen(es)[k] == name;
      SortMembers(t, t[k]);
    }
  }

  /** Sorting neither adds nor drops a row. */
  lemma SortMembers(t: Table, row: (string, Bucket))
    ensures row in SortByTotal(t) <==> row in t
  {
    assert row in SortByTotal(t) <==> row in multiset(SortByTotal(t));
    assert row in t <==> row in multiset(t);
  }
}
