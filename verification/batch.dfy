/**
 * The batch classifier: the expenses are cut into contiguous batches, each
 * batch is sent to the classification service, the reply is cleaned up and
 * parsed, and each position's label is read from the reply under its 1-based
 * key. A batch whose request or reply fails falls back to one request per
 * expense.
 */
module Batch {
  import opened Wrappers
  import opened Text
  import opened Categories
  import opened Normalize
  import opened Reply
  import opened Extraction

  /** A value of the parsed reply object: a string, or anything else (a number, null, a list, an object). */
  datatype JValue = JString(text: string) | JOther

  /**
   * The outside world as the classifier sees it. `batchReply(k, descs)` is the
   * text of the service's answer for batch number k (from 1) with the cleaned
   * descriptions descs; `itemReply(i, desc)` is the answer for expense i alone.
   * Either is None when the request, its status or the shape of its answer
   * raises. `parse` is `json.loads`: None for malformed JSON and for JSON that
   * is not an object.
   */
  datatype Service = Service(
    batchReply: (nat, seq<string>) -> Option<string>,
    itemReply: (nat, string) -> Option<string>,
    parse: string -> Option<map<string, JValue>>)

  // ---------------------------------------------------------------- one expense at a time

  /**
   * The single-expense classifier on a cleaned description: the trimmed reply
   * resolved with the single-item rule, or "Other" when anything raised.
   */
  function ClassifySingle(svc: Service, i: nat, cleaned: string): (r: string)
    ensures r in CATEGORIES
    ensures svc.itemReply(i, cleaned).None? ==> r == "Other"
    ensures svc.itemReply(i, cleaned).Some? && Strip(svc.itemReply(i, cleaned).value) in CATEGORIES ==>
      r == Strip(svc.itemReply(i, cleaned).value)
  {
    match svc.itemReply(i, cleaned)
    case None => "Other"
    case Some(reply) => ResolveSingle(Strip(reply))
  }

  /**
   * Every description cleaned: the batch prompt and the single-expense request
   * both send clean_description of the expense's description, and cleaning is
   * a pure function, so it is done once here.
   */
  function CleanAll(expenses: seq<Transaction>): (r: seq<string>)
    ensures |r| == |expenses|
  {
    seq(|expenses|, i requires 0 <= i < |expenses| => CleanDescription(expenses[i].description))
  }

  // ---------------------------------------------------------------- batches

  /** More than 200 expenses force batches of 50, whatever size was asked for. */
  function EffectiveBatchSize(n: nat, requested: nat): (b: nat)
    requires requested >= 1
    ensures b >= 1
    ensures n > 200 ==> b == 50
    ensures n <= 200 ==> b == requested
  {
    if n > 200 then 50 else requested
  }

  /** `(n + b - 1) // b`: the number of batches. */
  function NumBatches(n: nat, b: nat): nat
    requires b >= 1
  {
    (n + b - 1) / b
  }

  function Min(x: nat, y: nat): nat { if x <= y then x else y }

  /** `range(start, n, b)`: the first index of every batch. */
  function Starts(n: nat, b: nat, start: nat): seq<nat>
    requires b >= 1
    decreases n - start
  {
    if start >= n then [] else [start] + Starts(n, b, start + b)
  }

  /** The quotient is the only q with q * b <= i < q * b + b. */
  lemma DivUnique(i: nat, b: nat, q: nat)
    requires b >= 1 && q * b <= i < q * b + b
    ensures i / b == q
  {
    var k := i / b;
    assert i == k * b + i % b;
    assert (k + 1) * b == k * b + b && (q + 1) * b == q * b + b;
    MulStrict(q, k + 1, b);
    MulStrict(k, q + 1, b);
  }

  lemma MulMono(x: nat, y: nat, b: nat)
    requires x <= y
    ensures x * b <= y * b
  {
  }

  lemma MulStrict(x: nat, y: nat, b: nat)
    requires x * b < y * b
    ensures x < y
  {
    if y <= x {
      MulMono(y, x, b);
    }
  }

  /** One batch more than the rest: (x + b) / b == x / b + 1. */
  lemma DivStep(x: nat, b: nat)
    requires b >= 1
    ensures (x + b) / b == x / b + 1
  {
    var q := x / b;
    assert x == q * b + x % b;
    assert (q + 1) * b == q * b + b;
    DivUnique(x + b, b, q + 1);
  }

  /** There are `(n + b - 1) // b` batches, the count the loop announces. */
  lemma {:induction false} StartsCount(n: nat, b: nat, start: nat)
    requires b >= 1 && start <= n
    ensures |Starts(n, b, start)| == NumBatches(n - start, b)
    decreases n - start
  {
    if start == n {
      DivUnique(b - 1, b, 0);
    } else if start + b >= n {
      assert Starts(n, b, start + b) == [];
      DivUnique(n - start + b - 1, b, 1);
    } else {
      StartsCount(n, b, start + b);
      DivStep(n - start - 1, b);
      assert n - (start + b) + b - 1 == n - start - 1;
    }
  }

  /**
   * The batches are consecutive: the first starts at `start`, each starts b
   * after the one before, all start before n, and the last reaches n.
   */
  lemma {:induction false} StartsSteps(n: nat, b: nat, start: nat)
    requires b >= 1 && start < n
    ensures var ss := Starts(n, b, start);
      && |ss| >= 1 && ss[0] == start && n <= ss[|ss| - 1] + b
      && (forall j :: 0 <= j < |ss| ==> start <= ss[j] < n)
      && (forall j :: 0 <= j < |ss| - 1 ==> ss[j + 1] == ss[j] + b)
    decreases n - start
  {
    var ss := Starts(n, b, start);
    if start + b < n {
      StartsSteps(n, b, start + b);
      var rest := Starts(n, b, start + b);
      assert ss == [start] + rest;
      assert ss[|ss| - 1] == rest[|rest| - 1];
      forall j | 0 <= j < |ss|
        ensures start <= ss[j] < n
      {
        if j > 0 { assert ss[j] == rest[j - 1]; }
      }
      forall j | 0 <= j < |ss| - 1
        ensures ss[j + 1] == ss[j] + b
      {
        assert ss[j + 1] == rest[j];
        if j > 0 { assert ss[j] == rest[j - 1]; }
      }
    } else {
      assert Starts(n, b, start + b) == [];
      assert ss == [start];
    }
  }

  /** Every batch from `start` on starts at `start` or later, and before n. */
  lemma {:induction false} StartsWithin(n: nat, b: nat, start: nat, j: nat)
    requires b >= 1 && j < |Starts(n, b, start)|
    ensures start <= Starts(n, b, start)[j] < n
    decreases j
  {
    if j > 0 {
      StartsWithin(n, b, start + b, j - 1);
    }
  }

  /** The batch that index i falls in: the j with Starts[j] <= i < Starts[j] + b. */
  function BatchOf(n: nat, b: nat, start: nat, i: nat): (j: nat)
    requires b >= 1 && start <= i < n
    ensures j < |Starts(n, b, start)|
    ensures Starts(n, b, start)[j] <= i < Min(n, Starts(n, b, start)[j] + b)
    decreases n - start
  {
    if i < start + b then 0 else BatchOf(n, b, start + b, i) + 1
  }

  /** Batch j starts j batches after `start`. */
  lemma {:induction false} StartsAt(n: nat, b: nat, start: nat, j: nat)
    requires b >= 1 && j < |Starts(n, b, start)|
    ensures Starts(n, b, start)[j] == start + j * b
    decreases j
  {
    if j > 0 {
      StartsAt(n, b, start + b, j - 1);
      assert j * b == (j - 1) * b + b;
    }
  }

  /** No index lies in two batches. */
  lemma StartsDisjoint(n: nat, b: nat, start: nat, i: nat, j: nat, j': nat)
    requires b >= 1 && j < |Starts(n, b, start)| && j' < |Starts(n, b, start)|
    requires Starts(n, b, start)[j] <= i < Starts(n, b, start)[j] + b
    requires Starts(n, b, start)[j'] <= i < Starts(n, b, start)[j'] + b
    ensures j == j'
  {
    StartsAt(n, b, start, j);
    StartsAt(n, b, start, j');
    DivUnique(i - start, b, j);
    DivUnique(i - start, b, j');
  }

  // ---------------------------------------------------------------- reading a batch reply

  /** Position j of a batch is looked up under the key str(j + 1). */
  function Key(j: nat): string {
    NatToString(j + 1)
  }

  /**
   * The label of position j: "Other" when the key is missing, the batch rule's
   * resolution of the string under it otherwise. (A non-string value raises,
   * and is dealt with by ReplyLabels.)
   */
  function KeyLabel(parsed: map<string, JValue>, j: nat): (r: string)
    ensures r in CATEGORIES
    ensures Key(j) !in parsed ==> r == "Other"
    ensures Key(j) in parsed && parsed[Key(j)].JString? ==> r == ResolveBatch(parsed[Key(j)].text)
  {
    if Key(j) in parsed && parsed[Key(j)].JString? then ResolveBatch(parsed[Key(j)].text)
    else "Other"
  }

  /** Some position of the batch holds a value that is not a string. */
  predicate HasNonString(parsed: map<string, JValue>, size: nat) {
    exists j :: 0 <= j < size && Key(j) in parsed && parsed[Key(j)].JOther?
  }

  /**
   * The object the reply to batch `number` parses to, or None when the batch
   * falls back: no reply, unparseable text, or a non-string value under one
   * of the batch's keys (its `.lower()` raises and the whole batch is redone).
   */
  function ParsedReply(svc: Service, number: nat, batch: seq<string>): (r: Option<map<string, JValue>>)
    ensures r.Some? ==> !HasNonString(r.value, |batch|)
    ensures svc.batchReply(number, batch).None? ==> r.None?
    ensures svc.batchReply(number, batch).Some? && svc.parse(JsonText(svc.batchReply(number, batch).value)).Some? ==>
      var parsed := svc.parse(JsonText(svc.batchReply(number, batch).value)).value;
      r == if HasNonString(parsed, |batch|) then None else Some(parsed)
  {
    match svc.batchReply(number, batch)
    case None => None
    case Some(reply) =>
      match svc.parse(JsonText(reply))
      case None => None
      case Some(parsed) => if HasNonString(parsed, |batch|) then None else Some(parsed)
  }

  // ---------------------------------------------------------------- the two requests

  /**
   * The two requests the classifier makes, each with its reply read:
   * `batch(k, descs)` gives the label of every position of batch number k, or
   * None when the batch falls back; `single(i, desc)` classifies expense i alone.
   */
  datatype Requests = Requests(batch: (nat, seq<string>) -> Option<nat -> string>, single: (nat, string) -> string)

  /** The requests to the service, read as the source reads them. */
  function RequestsOf(svc: Service): Requests {
    Requests(
      (k: nat, batch: seq<string>) =>
        match ParsedReply(svc, k, batch)
        case None => None
        case Some(parsed) => Some((j: nat) => KeyLabel(parsed, j)),
      (i: nat, desc: string) => ClassifySingle(svc, i, desc))
  }

  /** Both requests only ever give categories. */
  ghost predicate Answers(req: Requests) {
    && (forall k: nat, batch: seq<string>, j: nat :: req.batch(k, batch).Some? ==> req.batch(k, batch).value(j) in CATEGORIES)
    && (forall i: nat, desc: string :: req.single(i, desc) in CATEGORIES)
  }

  lemma RequestsAnswer(svc: Service)
    ensures Answers(RequestsOf(svc))
  {
    var req := RequestsOf(svc);
    forall k: nat, batch: seq<string>, j: nat | req.batch(k, batch).Some?
      ensures req.batch(k, batch).value(j) in CATEGORIES
    {
      var parsed := ParsedReply(svc, k, batch).value;
      assert req.batch(k, batch).value(j) == KeyLabel(parsed, j);
    }
  }

  // ---------------------------------------------------------------- one batch

  /** The fallback for descriptions start to end: one single-expense request each, in order. */
  function Singles(req: Requests, descs: seq<string>, start: nat, end: nat): (r: seq<string>)
    requires start <= end <= |descs|
    ensures |r| == end - start
    decreases end - start
  {
    if end == start then [] else Singles(req, descs, start, end - 1) + [req.single(end - 1, descs[end - 1])]
  }

  /** The labels a read reply gives positions 0 to size - 1. */
  function Spread(labelOf: nat -> string, size: nat): (r: seq<string>)
    ensures |r| == size
  {
    if size == 0 then [] else Spread(labelOf, size - 1) + [labelOf(size - 1)]
  }

  lemma {:induction false} SinglesAt(req: Requests, descs: seq<string>, start: nat, end: nat, p: nat)
    requires start <= end <= |descs| && p < end - start
    ensures Singles(req, descs, start, end)[p] == req.single(start + p, descs[start + p])
    decreases end - start
  {
    if p < end - start - 1 {
      SinglesAt(req, descs, start, end - 1, p);
    }
  }

  lemma {:induction false} SpreadAt(labelOf: nat -> string, size: nat, p: nat)
    requires p < size
    ensures Spread(labelOf, size)[p] == labelOf(p)
  {
    if p < size - 1 {
      SpreadAt(labelOf, size - 1, p);
    }
  }

  /**
   * The labels the batch of cleaned descriptions start to end, sent as batch
   * number `number`, ends up with: the reply's labels, or the single-expense
   * classifier for each of its descriptions when the batch fell back.
   */
  function BatchLabels(req: Requests, descs: seq<string>, start: nat, end: nat, number: nat): (r: seq<string>)
    requires start <= end <= |descs|
    ensures |r| == end - start
  {
    match req.batch(number, descs[start..end])
    case Some(labelOf) => Spread(labelOf, end - start)
    case None => Singles(req, descs, start, end)
  }

  /** Position p of a batch: the reply's label when it was read, its own request otherwise. */
  lemma BatchLabelsAt(req: Requests, descs: seq<string>, start: nat, end: nat, number: nat, p: nat)
    requires start <= end <= |descs| && p < end - start
    ensures var replied := req.batch(number, descs[start..end]);
      && (replied.Some? ==> BatchLabels(req, descs, start, end, number)[p] == replied.value(p))
      && (replied.None? ==> BatchLabels(req, descs, start, end, number)[p] == req.single(start + p, descs[start + p]))
  {
    match req.batch(number, descs[start..end])
    case Some(labelOf) => SpreadAt(labelOf, end - start, p);
    case None => SinglesAt(req, descs, start, end, p);
  }

  lemma BatchLabelsCategories(req: Requests, descs: seq<string>, start: nat, end: nat, number: nat)
    requires Answers(req) && start <= end <= |descs|
    ensures forall j :: 0 <= j < end - start ==> BatchLabels(req, descs, start, end, number)[j] in CATEGORIES
  {
    forall j | 0 <= j < end - start
      ensures BatchLabels(req, descs, start, end, number)[j] in CATEGORIES
    {
      BatchLabelsAt(req, descs, start, end, number, j);
    }
  }

  // ---------------------------------------------------------------- the labels, batch after batch

  /**
   * What one batch yields: given its first index, its end and its number,
   * the labels of its positions.
   */
  type BatchFn = (nat, nat, nat) -> seq<string>

  /** Each batch of indices below n yields exactly one label per position. */
  ghost predicate Sized(f: BatchFn, n: nat) {
    forall s: nat, e: nat, k: nat :: s <= e <= n ==> |f(s, e, k)| == e - s
  }

  /** The labels of the batches from `start` on, numbered from `number`, one after the other. */
  function LabelsFrom(f: BatchFn, n: nat, b: nat, start: nat, number: nat): seq<string>
    requires b >= 1
    decreases n - start
  {
    if start >= n then [] else f(start, Min(n, start + b), number) + LabelsFrom(f, n, b, start + b, number + 1)
  }

  /** One batch, then the batches after it. */
  lemma LabelsFromStep(f: BatchFn, n: nat, b: nat, start: nat, number: nat)
    requires b >= 1 && Sized(f, n) && start < n
    ensures var end := Min(n, start + b);
      && start < end && |f(start, end, number)| == end - start
      && LabelsFrom(f, n, b, start, number) == f(start, end, number) + LabelsFrom(f, n, b, start + b, number + 1)
  {
  }

  /** One label for every index from `start` on. */
  lemma {:induction false} LabelsFromLength(f: BatchFn, n: nat, b: nat, start: nat, number: nat)
    requires b >= 1 && Sized(f, n)
    ensures |LabelsFrom(f, n, b, start, number)| == if start >= n then 0 else n - start
    decreases n - start
  {
    if start < n {
      LabelsFromLength(f, n, b, start + b, number + 1);
    }
  }

  /**
   * Index i of batch j gets the label at position i - s of that batch's
   * labels, where s is the batch's first index and its number is number + j.
   */
  lemma LabelsFromAt(f: BatchFn, n: nat, b: nat, start: nat, number: nat, j: nat, i: nat, s: nat)
    requires b >= 1 && Sized(f, n) && j < |Starts(n, b, start)|
    requires s == Starts(n, b, start)[j] && s <= i < Min(n, s + b)
    ensures start <= i && i - start < |LabelsFrom(f, n, b, start, number)|
    ensures LabelsFrom(f, n, b, start, number)[i - start] == f(s, Min(n, s + b), number + j)[i - s]
  {
    var before := LabelsFromDrop(f, n, b, start, number, j, s, number + j);
    LabelsFromAtFirst(f, n, b, s, number + j, i);
    AppendAt(before, LabelsFrom(f, n, b, s, number + j), i - start);
  }


  /** Index i of the first batch: its own label. */
  lemma LabelsFromAtFirst(f: BatchFn, n: nat, b: nat, start: nat, number: nat, i: nat)
    requires b >= 1 && Sized(f, n) && start <= i < Min(n, start + b)
    ensures i - start < |LabelsFrom(f, n, b, start, number)|
    ensures LabelsFrom(f, n, b, start, number)[i - start] == f(start, Min(n, start + b), number)[i - start]
  {
    LabelsFromStep(f, n, b, start, number);
  }

  /** The labels from batch j, which starts at s, on follow the labels of the j batches before it. */
  lemma {:induction false} LabelsFromDrop(f: BatchFn, n: nat, b: nat, start: nat, number: nat, j: nat, s: nat, m: nat) returns (before: seq<string>)
    requires b >= 1 && Sized(f, n) && j < |Starts(n, b, start)| && s == Starts(n, b, start)[j] && m == number + j
    ensures start <= s && |before| == s - start
    ensures LabelsFrom(f, n, b, start, number) == before + LabelsFrom(f, n, b, s, m)
    decreases j
  {
    StartsTail(n, b, start, j);
    var last := LabelsFrom(f, n, b, s, m);
    if j == 0 {
      before := [];
      assert before + last == last;
    } else {
      StartsWithin(n, b, start + b, j - 1);
      var rest := LabelsFromDrop(f, n, b, start + b, number + 1, j - 1, s, m);
      LabelsFromStep(f, n, b, start, number);
      var first := f(start, Min(n, start + b), number);
      before := first + rest;
      Regroup(first, rest, last, LabelsFrom(f, n, b, start + b, number + 1), LabelsFrom(f, n, b, start, number));
    }
  }

  lemma AppendAt(x: seq<string>, y: seq<string>, k: nat)
    requires k < |x| + |y|
    ensures (x + y)[k] == if k < |x| then x[k] else y[k - |x|]
  {
  }

  /** The first batch starts at `start`; batch j > 0 is batch j - 1 of the batches after it. */
  lemma StartsTail(n: nat, b: nat, start: nat, j: nat)
    requires b >= 1 && j < |Starts(n, b, start)|
    ensures start < n && Starts(n, b, start)[0] == start
    ensures j > 0 ==> j - 1 < |Starts(n, b, start + b)| && Starts(n, b, start)[j] == Starts(n, b, start + b)[j - 1]
  {
  }

  /** Every batch yields categories only. */
  ghost predicate AllCategorized(f: BatchFn, n: nat) {
    forall s: nat, e: nat, k: nat, j :: s <= e <= n && 0 <= j < |f(s, e, k)| ==> f(s, e, k)[j] in CATEGORIES
  }

  /** Then every label is one of the categories. */
  lemma {:induction false} LabelsFromCategories(f: BatchFn, n: nat, b: nat, start: nat, number: nat)
    requires b >= 1 && AllCategorized(f, n)
    ensures forall j :: 0 <= j < |LabelsFrom(f, n, b, start, number)| ==> LabelsFrom(f, n, b, start, number)[j] in CATEGORIES
    decreases n - start
  {
    if start < n {
      LabelsFromCategories(f, n, b, start + b, number + 1);
      AllCategories(f(start, Min(n, start + b), number), LabelsFrom(f, n, b, start + b, number + 1));
    }
  }

  lemma AllCategories(x: seq<string>, y: seq<string>)
    requires forall j :: 0 <= j < |x| ==> x[j] in CATEGORIES
    requires forall j :: 0 <= j < |y| ==> y[j] in CATEGORIES
    ensures forall j :: 0 <= j < |x + y| ==> (x + y)[j] in CATEGORIES
  {
  }

  // ---------------------------------------------------------------- all the batches of the classifier

  /** The batches of the classifier's loop over the cleaned descriptions. */
  function Batches(req: Requests, descs: seq<string>): BatchFn {
    (s: nat, e: nat, k: nat) => if s <= e <= |descs| then BatchLabels(req, descs, s, e, k) else []
  }

  lemma BatchesSized(req: Requests, descs: seq<string>)
    ensures Sized(Batches(req, descs), |descs|)
  {
  }

  /** The labels of all the cleaned descriptions, in batches of b numbered from 1. */
  function Labels(req: Requests, descs: seq<string>, b: nat): (r: seq<string>)
    requires b >= 1
    ensures |r| == |descs|
  {
    BatchesSized(req, descs);
    LabelsFromLength(Batches(req, descs), |descs|, b, 0, 1);
    LabelsFrom(Batches(req, descs), |descs|, b, 0, 1)
  }

  /** When both requests only give categories, so do all the batches. */
  lemma LabelsCategories(req: Requests, descs: seq<string>, b: nat)
    requires b >= 1 && Answers(req)
    ensures forall i :: 0 <= i < |descs| ==> Labels(req, descs, b)[i] in CATEGORIES
  {
    BatchesCategorized(req, descs);
    LabelsFromCategories(Batches(req, descs), |descs|, b, 0, 1);
  }

  lemma BatchesCategorized(req: Requests, descs: seq<string>)
    requires Answers(req)
    ensures AllCategorized(Batches(req, descs), |descs|)
  {
    var f := Batches(req, descs);
    forall s: nat, e: nat, k: nat | s <= e <= |descs|
      ensures forall j :: 0 <= j < |f(s, e, k)| ==> f(s, e, k)[j] in CATEGORIES
    {
      BatchLabelsCategories(req, descs, s, e, k);
    }
  }

  /** f computes the classifier's batches over the cleaned descriptions. */
  ghost predicate Computes(f: BatchFn, req: Requests, descs: seq<string>) {
    forall s: nat, e: nat, k: nat {:trigger BatchLabels(req, descs, s, e, k)} :: s <= e <= |descs| ==> f(s, e, k) == BatchLabels(req, descs, s, e, k)
  }

  lemma BatchesComputes(req: Requests, descs: seq<string>)
    ensures Computes(Batches(req, descs), req, descs)
  {
  }

  /** Index i of batch j gets position i - s of the labels of batch number j + 1. */
  lemma LabelInBatch(f: BatchFn, req: Requests, descs: seq<string>, b: nat, j: nat, i: nat, s: nat, e: nat)
    requires b >= 1 && Sized(f, |descs|) && Computes(f, req, descs) && j < |Starts(|descs|, b, 0)|
    requires s == Starts(|descs|, b, 0)[j] && e == Min(|descs|, s + b) && s <= i < e
    ensures i < |LabelsFrom(f, |descs|, b, 0, 1)|
    ensures LabelsFrom(f, |descs|, b, 0, 1)[i] == BatchLabels(req, descs, s, e, j + 1)[i - s]
  {
    LabelsFromAt(f, |descs|, b, 0, 1, j, i, s);
    assert f(s, e, j + 1) == BatchLabels(req, descs, s, e, j + 1);
  }


  /**
   * Description i, in batch j (the one batch that holds it, by BatchOf and
   * StartsDisjoint), gets position i - s of the labels of batch number j + 1:
   * from the reply to the batch when that reply was read, and from its own
   * single-expense request otherwise.
   */
  lemma LabelOfIndex(f: BatchFn, req: Requests, descs: seq<string>, b: nat, j: nat, i: nat, s: nat, e: nat)
    requires b >= 1 && Sized(f, |descs|) && Computes(f, req, descs) && j < |Starts(|descs|, b, 0)|
    requires s == Starts(|descs|, b, 0)[j] && e == Min(|descs|, s + b) && s <= i < e
    ensures i < |LabelsFrom(f, |descs|, b, 0, 1)|
    ensures req.batch(j + 1, descs[s..e]).Some? ==> LabelsFrom(f, |descs|, b, 0, 1)[i] == req.batch(j + 1, descs[s..e]).value(i - s)
    ensures req.batch(j + 1, descs[s..e]).None? ==> LabelsFrom(f, |descs|, b, 0, 1)[i] == req.single(i, descs[i])
  {
    LabelInBatch(f, req, descs, b, j, i, s, e);
    ReplyCases(req, descs, s, e, j + 1, i, LabelsFrom(f, |descs|, b, 0, 1)[i]);
  }

  /** A label equal to position i - s of a batch's labels is the reply's, or the single request's. */
  lemma ReplyCases(req: Requests, descs: seq<string>, s: nat, e: nat, number: nat, i: nat, x: string)
    requires s <= i < e <= |descs| && x == BatchLabels(req, descs, s, e, number)[i - s]
    ensures req.batch(number, descs[s..e]).Some? ==> x == req.batch(number, descs[s..e]).value(i - s)
    ensures req.batch(number, descs[s..e]).None? ==> x == req.single(i, descs[i])
  {
    BatchLabelsAt(req, descs, s, e, number, i - s);
  }

  // ---------------------------------------------------------------- the loop

  /** `labels[start + j] := values[j]` for every j; every other entry is kept. */
  method Store(labels: map<nat, string>, start: nat, values: seq<string>) returns (stored: map<nat, string>)
    ensures forall i :: i in stored <==> i in labels || start <= i < start + |values|
    ensures forall i :: start <= i < start + |values| ==> stored[i] == values[i - start]
    ensures forall i :: i in labels && !(start <= i < start + |values|) ==> stored[i] == labels[i]
  {
    stored := labels;
    for j := 0 to |values|
      invariant forall i :: i in stored <==> i in labels || start <= i < start + j
      invariant forall i :: start <= i < start + j ==> stored[i] == values[i - start]
      invariant forall i :: i in labels && !(start <= i < start + j) ==> stored[i] == labels[i]
    {
      stored := stored[start + j := values[j]];
    }
  }

  /**
   * One batch of the loop: its request and reply, or, when either fails, one
   * request per description of the batch.
   */
  method SendBatch(req: Requests, descs: seq<string>, start: nat, end: nat, number: nat) returns (results: seq<string>)
    requires start <= end <= |descs|
    ensures results == BatchLabels(req, descs, start, end, number)
  {
    var replied := req.batch(number, descs[start..end]);
    results := [];
    if replied.Some? {
      var labelOf := replied.value;
      for j := 0 to end - start
        invariant results == Spread(labelOf, j)
      {
        results := results + [labelOf(j)];
      }
    } else {
      for j := 0 to end - start
        invariant results == Singles(req, descs, start, start + j)
      {
        results := results + [req.single(start + j, descs[start + j])];
      }
    }
  }

  /** The batch loop over the cleaned descriptions, batch after batch from index 0 and number 1. */
  method LabelBatches(req: Requests, descs: seq<string>, b: nat, ghost f: BatchFn) returns (labels: map<nat, string>)
    requires b >= 1 && Sized(f, |descs|) && Computes(f, req, descs)
    ensures forall i :: i in labels <==> 0 <= i < |descs|
    ensures |LabelsFrom(f, |descs|, b, 0, 1)| == |descs|
    ensures forall i :: 0 <= i < |descs| ==> labels[i] == LabelsFrom(f, |descs|, b, 0, 1)[i]
  {
    labels := map[];
    var n := |descs|;
    var start, number := 0, 1;
    ghost var done: seq<string> := [];
    LabelsFromLength(f, n, b, 0, 1);
    assert [] + LabelsFrom(f, n, b, 0, 1) == LabelsFrom(f, n, b, 0, 1);
    while start < n
      invariant Splits(f, n, b, done, start, number)
      invariant start < n ==> |done| == start
      invariant Holds(labels, done)
      decreases n - start
    {
      labels, done := NextBatch(req, descs, b, f, labels, start, number, done);
      start, number := start + b, number + 1;
    }
    SplitsEnd(f, n, b, done, start, number);
  }

  /** The map holds the labels done so far, under their indices. */
  ghost predicate Holds(labels: map<nat, string>, done: seq<string>) {
    && (forall i :: i in labels <==> 0 <= i < |done|)
    && (forall i :: 0 <= i < |done| ==> labels[i] == done[i])
  }

  /** Past the last batch, the labels done are all the labels. */
  lemma SplitsEnd(f: BatchFn, n: nat, b: nat, done: seq<string>, start: nat, number: nat)
    requires b >= 1 && Splits(f, n, b, done, start, number) && start >= n
    ensures done == LabelsFrom(f, n, b, 0, 1)
  {
    assert done + [] == done;
  }

  /** The labels done so far, followed by those of the batches from `start` on, are all the labels. */
  ghost predicate Splits(f: BatchFn, n: nat, b: nat, done: seq<string>, start: nat, number: nat)
    requires b >= 1
  {
    done + LabelsFrom(f, n, b, start, number) == LabelsFrom(f, n, b, 0, 1)
  }

  /**
   * One turn of the batch loop: the batch from `start`, numbered `number`, is
   * sent and its labels stored after those of the batches before it.
   */
  method NextBatch(req: Requests, descs: seq<string>, b: nat, ghost f: BatchFn, labels: map<nat, string>,
                   start: nat, number: nat, ghost done: seq<string>)
    returns (stored: map<nat, string>, ghost done': seq<string>)
    requires b >= 1 && Sized(f, |descs|) && Computes(f, req, descs) && start < |descs|
    requires Splits(f, |descs|, b, done, start, number)
    requires |done| == start && Holds(labels, done)
    ensures Splits(f, |descs|, b, done', start + b, number + 1)
    ensures start + b < |descs| ==> |done'| == start + b
    ensures Holds(stored, done')
  {
    var end := Min(|descs|, start + b);
    var results := SendBatch(req, descs, start, end, number);
    LabelsFromStep(f, |descs|, b, start, number);
    assert results == f(start, end, number);
    stored := Store(labels, start, results);
    StoredAfter(labels, stored, done, results);
    Regroup(done, results, LabelsFrom(f, |descs|, b, start + b, number + 1),
            LabelsFrom(f, |descs|, b, start, number), LabelsFrom(f, |descs|, b, 0, 1));
    done' := done + results;
  }

  /** The labels done so far, then this batch's, then the rest's, are all the labels. */
  lemma Regroup(done: seq<string>, results: seq<string>, rest: seq<string>, tail: seq<string>, whole: seq<string>)
    requires done + tail == whole && tail == results + rest
    ensures (done + results) + rest == whole
  {
    assert (done + results) + rest == done + (results + rest);
  }

  /** Storing a batch's labels right after the labels stored so far extends them by that batch. */
  lemma StoredAfter(labels: map<nat, string>, stored: map<nat, string>, done: seq<string>, results: seq<string>)
    requires forall i :: i in labels <==> 0 <= i < |done|
    requires forall i :: 0 <= i < |done| ==> labels[i] == done[i]
    requires forall i :: i in stored <==> i in labels || |done| <= i < |done| + |results|
    requires forall i :: |done| <= i < |done| + |results| ==> stored[i] == results[i - |done|]
    requires forall i :: i in labels && !(|done| <= i < |done| + |results|) ==> stored[i] == labels[i]
    ensures forall i :: i in stored <==> 0 <= i < |done + results|
    ensures forall i :: 0 <= i < |done + results| ==> stored[i] == (done + results)[i]
  {
  }

  /**
   * The batch classifier, with its requests read as `req` reads them. The
   * empty input gives the empty map; otherwise every index gets its label
   * from the batch loop, and that label is a category whenever the requests
   * only give categories (as the service's do: RequestsAnswer).
   */
  method CategorizeBatch(req: Requests, expenses: seq<Transaction>, requested: nat) returns (labels: map<nat, string>)
    requires requested >= 1
    ensures |expenses| == 0 ==> labels == map[]
    ensures forall i :: i in labels <==> 0 <= i < |expenses|
    ensures forall i :: 0 <= i < |expenses| ==>
      labels[i] == Labels(req, CleanAll(expenses), EffectiveBatchSize(|expenses|, requested))[i]
    ensures Answers(req) ==> forall i :: 0 <= i < |expenses| ==> labels[i] in CATEGORIES
  {
    if |expenses| == 0 {
      return map[];
    }
    var b := EffectiveBatchSize(|expenses|, requested);
    var descs := CleanAll(expenses);
    BatchesSized(req, descs);
    BatchesComputes(req, descs);
    labels := LabelBatches(req, descs, b, Batches(req, descs));
    if Answers(req) {
      LabelsCategories(req, descs, b);
    }
  }
}
