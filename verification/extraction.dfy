/**
 * The filter pass of the statement reader: the (date, description, amount)
 * triples the two transaction patterns found are merged, run through a fixed
 * chain of checks, and de-duplicated on the resulting transaction.
 */
module Extraction {
  import opened Wrappers
  import opened Text

  /** One (date, description, amount text) triple as a pattern's findall returns it. */
  datatype Match = Match(date: string, description: string, amount: string)

  /** An extracted expense: also the key of the seen-set, since it holds exactly its three parts. */
  datatype Transaction = Transaction(date: string, description: string, amount: real)

  /** Descriptions containing one of these (lower-cased) are header or summary rows. */
  const SKIP_KEYWORDS: seq<string> := [
    "opening balance", "closing balance", "total outstanding",
    "transaction date", "posting date", "transaction details",
    "original amount", "total amount", "important:", "warning",
    "page", "statement", "account"
  ]

  // ---------------------------------------------------------------- date token

  /** `\d{1,2}-[A-Za-z]{3}-\d{2}` matches the first k + 7 characters of s, with k day digits. */
  predicate DateShape(s: string, k: nat) {
    && (k == 1 || k == 2)
    && |s| >= k + 7
    && IsDigit(s[0]) && (k == 2 ==> IsDigit(s[1]))
    && s[k] == '-'
    && IsLetter(s[k + 1]) && IsLetter(s[k + 2]) && IsLetter(s[k + 3])
    && s[k + 4] == '-'
    && IsDigit(s[k + 5]) && IsDigit(s[k + 6])
  }

  /**
   * The length of the date token `re.match` finds at the start of s: the greedy
   * `\d{1,2}` tries two digits before one.
   */
  function DateTokenLength(s: string): (r: Option<nat>)
    ensures r.Some? <==> DateShape(s, 1) || DateShape(s, 2)
    ensures r.Some? ==> 8 <= r.value <= |s| && DateShape(s, r.value - 7)
  {
    if DateShape(s, 2) then Some(9)
    else if DateShape(s, 1) then Some(8)
    else None
  }

  /** One and two day digits exclude each other, so the token length is determined by s. */
  lemma DateShapeUnique(s: string)
    ensures !(DateShape(s, 1) && DateShape(s, 2))
  {
  }

  // ---------------------------------------------------------------- the filter chain

  /** Some skip keyword occurs in text. */
  predicate HasSkipKeyword(text: string) {
    exists i :: 0 <= i < |SKIP_KEYWORDS| && Contains(text, SKIP_KEYWORDS[i])
  }

  /** A credit: " CR" anywhere in the upper-cased amount, or "CR" at its trimmed end. */
  predicate IsCredit(amount: string) {
    Contains(Upper(amount), " CR") || EndsWith(Strip(Upper(amount)), "CR")
  }

  predicate IsNumberChar(c: char) {
    IsDigit(c) || c == '.' || c == ',' || c == '-'
  }

  /** `re.sub(r'[^\d.,-]', '', s)`: keep digits, '.', ',' and '-'. */
  function KeepNumberChars(s: string): (r: string)
    ensures |r| <= |s|
    ensures forall i :: 0 <= i < |r| ==> IsNumberChar(r[i])
    ensures forall c :: c in r <==> c in s && IsNumberChar(c)
  {
    if s == [] then []
    else (if IsNumberChar(s[0]) then [s[0]] else []) + KeepNumberChars(s[1..])
  }

  /** A text made of number characters only is kept whole. */
  lemma {:induction false} KeepsNumberText(s: string)
    requires forall i :: 0 <= i < |s| ==> IsNumberChar(s[i])
    ensures KeepNumberChars(s) == s
  {
    if s != [] {
      KeepsNumberText(s[1..]);
      assert s == [s[0]] + s[1..];
    }
  }

  /** `re.sub` works character by character: the kept text of a concatenation is the kept texts, in order. */
  lemma {:induction false} KeepNumberCharsAppend(a: string, b: string)
    ensures KeepNumberChars(a + b) == KeepNumberChars(a) + KeepNumberChars(b)
    decreases |a|
  {
    if a == [] {
      assert a + b == b;
    } else {
      var head := if IsNumberChar(a[0]) then [a[0]] else [];
      KeepNumberCharsAppend(a[1..], b);
      assert (a + b)[1..] == a[1..] + b && (a + b)[0] == a[0];
      assert KeepNumberChars(a + b) == head + KeepNumberChars(a[1..] + b);
      assert KeepNumberChars(a) == head + KeepNumberChars(a[1..]);
      Assoc(head, KeepNumberChars(a[1..]), KeepNumberChars(b));
    }
  }

  /** One character is kept exactly when it is a number character. */
  lemma KeepNumberCharsOne(c: char)
    ensures KeepNumberChars([c]) == if IsNumberChar(c) then [c] else []
  {
    assert [c][1..] == [];
  }

  /**
   * The amount text as `float()` receives it: the number characters in order,
   * without commas. The final strip removes nothing, since no whitespace is left.
   */
  function CleanAmount(amount: string): (r: string)
    ensures forall c :: c in r ==> IsDigit(c) || c == '.' || c == '-'
    ensures r == DropCommas(KeepNumberChars(amount))
  {
    var kept := DropCommas(KeepNumberChars(amount));
    DropCommasMembers(KeepNumberChars(amount));
    assert IsStripped(kept) by {
      if kept != [] {
        assert kept[0] in kept && kept[|kept| - 1] in kept;
      }
    }
    Strip(kept)
  }

  /** Cleaning an amount works character by character. */
  lemma CleanAmountAppend(a: string, b: string)
    ensures CleanAmount(a + b) == CleanAmount(a) + CleanAmount(b)
  {
    KeepNumberCharsAppend(a, b);
    DropCommasSplit(KeepNumberChars(a), KeepNumberChars(b));
  }

  /** One character survives cleaning exactly when it is a digit, '.' or '-'. */
  lemma CleanAmountOne(c: char)
    ensures CleanAmount([c]) == if IsDigit(c) || c == '.' || c == '-' then [c] else []
  {
    KeepNumberCharsOne(c);
    if IsNumberChar(c) {
      DropCommasOne(c);
    } else {
      assert DropCommas([]) == [];
    }
  }

  /**
   * The checks one triple goes through, in the order the reader applies them;
   * None when the triple is skipped.
   */
  function Candidate(m: Match): Option<Transaction> {
    var date, description, amount := Strip(m.date), Strip(m.description), Strip(m.amount);
    if date == [] || description == [] || amount == [] then None
    else if HasSkipKeyword(Lower(description)) then None
    else if IsCredit(amount) then None
    else if DateTokenLength(date).None? then None
    else
      var clean := CleanAmount(amount);
      if clean == [] then None
      else match ParseFloat(clean)
        case None => None
        case Some(v) =>
          if v <= 0.0 then None
          else
            var d := CollapseSpaces(description);
            if |d| < 3 then None
            else Some(Transaction(date, d, v))
  }

  /**
   * What a transaction that passed the chain satisfies: positive amount, the
   * whitespace-collapsed description of at least three characters, a date
   * token, no skip keyword in the trimmed description, no credit marker.
   */
  lemma CandidateChecks(m: Match)
    requires Candidate(m).Some?
    ensures var t := Candidate(m).value;
      && t.amount > 0.0
      && t.description == CollapseSpaces(Strip(m.description))
      && IsCollapsed(t.description) && |t.description| >= 3
      && t.date == Strip(m.date) && DateTokenLength(t.date).Some?
      && !HasSkipKeyword(Lower(Strip(m.description)))
      && !IsCredit(Strip(m.amount))
      && ParseFloat(CleanAmount(Strip(m.amount))) == Some(t.amount)
  {
  }

  /** And conversely: a triple that passes every check becomes a transaction. */
  lemma CandidateAccepts(m: Match, v: real)
    requires Strip(m.date) != [] && Strip(m.description) != [] && Strip(m.amount) != []
    requires !HasSkipKeyword(Lower(Strip(m.description)))
    requires !IsCredit(Strip(m.amount))
    requires DateTokenLength(Strip(m.date)).Some?
    requires ParseFloat(CleanAmount(Strip(m.amount))) == Some(v) && v > 0.0
    requires |CollapseSpaces(Strip(m.description))| >= 3
    ensures Candidate(m) == Some(Transaction(Strip(m.date), CollapseSpaces(Strip(m.description)), v))
  {
  }

  /** Each check of the chain rejects on its own. */
  lemma CandidateRejects(m: Match)
    requires || Strip(m.date) == [] || Strip(m.description) == [] || Strip(m.amount) == []
             || HasSkipKeyword(Lower(Strip(m.description)))
             || IsCredit(Strip(m.amount))
             || DateTokenLength(Strip(m.date)).None?
             || ParseFloat(CleanAmount(Strip(m.amount))).None?
             || ParseFloat(CleanAmount(Strip(m.amount))).value <= 0.0
             || |CollapseSpaces(Strip(m.description))| < 3
    ensures Candidate(m).None?
  {
  }

  // ---------------------------------------------------------------- merging and de-duplication

  /** `[m for m in alt if m not in first]`. */
  function AltOnly(alt: seq<Match>, first: seq<Match>): (r: seq<Match>)
    ensures |r| <= |alt|
    ensures forall m :: m in r <==> m in alt && m !in first
  {
    if alt == [] then []
    else (if alt[0] in first then [] else [alt[0]]) + AltOnly(alt[1..], first)
  }

  /** The comprehension keeps alt's order: over a concatenation it is the kept matches of each part, in turn. */
  lemma {:induction false} AltOnlyAppend(a: seq<Match>, b: seq<Match>, first: seq<Match>)
    ensures AltOnly(a + b, first) == AltOnly(a, first) + AltOnly(b, first)
    decreases |a|
  {
    if a == [] {
      assert a + b == b;
    } else {
      AltOnlyAppend(a[1..], b, first);
      assert a == [a[0]] + a[1..];
      AltOnlyStep(a[0], a[1..], b, first);
    }
  }

  lemma AltOnlyStep(x: Match, rest: seq<Match>, b: seq<Match>, first: seq<Match>)
    requires AltOnly(rest + b, first) == AltOnly(rest, first) + AltOnly(b, first)
    ensures AltOnly([x] + rest + b, first) == AltOnly([x] + rest, first) + AltOnly(b, first)
  {
    assert [x] + rest + b == [x] + (rest + b);
    AltOnlyCons(x, rest, first);
    AltOnlyCons(x, rest + b, first);
    Assoc(AltOnly([x], first), AltOnly(rest, first), AltOnly(b, first));
  }

  lemma AltOnlyCons(x: Match, rest: seq<Match>, first: seq<Match>)
    ensures AltOnly([x] + rest, first) == AltOnly([x], first) + AltOnly(rest, first)
  {
    assert ([x] + rest)[1..] == rest && [x][1..] == [];
    assert AltOnly([x], first) == (if x in first then [] else [x]) + AltOnly([], first);
  }

  lemma Assoc<T>(x: seq<T>, y: seq<T>, z: seq<T>)
    ensures x + (y + z) == (x + y) + z
  {
  }

  /** One match is kept exactly when the first pattern did not find it. */
  lemma AltOnlyOne(m: Match, first: seq<Match>)
    ensures AltOnly([m], first) == if m in first then [] else [m]
  {
    assert [m][1..] == [];
  }

  /** The first pattern's matches, then the alternative pattern's matches it did not already have. */
  function MergeMatches(first: seq<Match>, alt: seq<Match>): (r: seq<Match>)
    ensures |first| <= |r| && r[..|first|] == first
    ensures forall m :: m in r <==> m in first || m in alt
    ensures forall i :: |first| <= i < |r| ==> r[i] !in first
  {
    first + AltOnly(alt, first)
  }

  /**
   * The transactions a check lets through, in input order, duplicates
   * included. The check is a parameter (the filter chain on matches, or the
   * line scan on lines) so that the list reasoning never has to look inside it.
   */
  function Accepted<M>(check: M -> Option<Transaction>, ms: seq<M>): seq<Transaction> {
    if ms == [] then []
    else
      var last := match check(ms[|ms| - 1]) case Some(t) => [t] case None => [];
      Accepted(check, ms[..|ms| - 1]) + last
  }

  /** The transactions a check lets through are exactly the results of the check. */
  lemma {:induction false} AcceptedFrom<M>(check: M -> Option<Transaction>, ms: seq<M>, t: Transaction)
    ensures t in Accepted(check, ms) <==> exists m :: m in ms && check(m) == Some(t)
  {
    if ms != [] {
      var init, m := ms[..|ms| - 1], ms[|ms| - 1];
      assert ms == init + [m];
      AcceptedFrom(check, init, t);
      if t in Accepted(check, init) {
        var m' :| m' in init && check(m') == Some(t);
        assert m' in ms;
      }
      if m' :| m' in ms && check(m') == Some(t) {
        if m' != m {
          assert m' in init;
        }
      }
    }
  }

  /** Running the check on more input only appends. */
  lemma {:induction false} AcceptedAppend<M>(check: M -> Option<Transaction>, a: seq<M>, b: seq<M>)
    ensures Accepted(check, a + b) == Accepted(check, a) + Accepted(check, b)
    decreases |b|
  {
    if b == [] {
      assert a + b == a;
    } else {
      var init := b[..|b| - 1];
      AcceptedAppend(check, a, init);
      assert (a + b)[..|a + b| - 1] == a + init;
      assert b[..|b| - 1] == init;
    }
  }

  /** An input the check accepts, given twice, gives its transaction twice. */
  lemma AcceptedRepeats<M>(check: M -> Option<Transaction>, m: M)
    requires check(m).Some?
    ensures Accepted(check, [m, m]) == [check(m).value, check(m).value]
  {
    var v := check(m).value;
    assert [m, m][..1] == [m] && [m][..0] == [];
    assert Accepted(check, [m]) == Accepted(check, []) + [v] == [v];
    assert Accepted(check, [m, m]) == Accepted(check, [m]) + [v];
  }

  predicate Distinct<T(==)>(s: seq<T>) {
    forall i, j :: 0 <= i < j < |s| ==> s[i] != s[j]
  }

  /** First occurrences only, in order: what the seen-set lets through. */
  function Dedup(ts: seq<Transaction>): (r: seq<Transaction>)
    ensures Distinct(r)
    ensures forall t :: t in r <==> t in ts
    ensures |r| <= |ts|
  {
    if ts == [] then []
    else
      var d, last := Dedup(ts[..|ts| - 1]), ts[|ts| - 1];
      assert ts == ts[..|ts| - 1] + [last];
      if last in d then d else d + [last]
  }

  lemma DedupSnoc(ts: seq<Transaction>, t: Transaction)
    ensures Dedup(ts + [t]) == if t in Dedup(ts) then Dedup(ts) else Dedup(ts) + [t]
  {
    assert (ts + [t])[..|ts|] == ts;
  }

  /** A list without repetitions is left as it is. */
  lemma {:induction false} DedupDistinct(ts: seq<Transaction>)
    requires Distinct(ts)
    ensures Dedup(ts) == ts
  {
    if ts != [] {
      var init := ts[..|ts| - 1];
      DedupDistinct(init);
      assert ts[|ts| - 1] !in init;
      assert ts == init + [ts[|ts| - 1]];
    }
  }

  /**
   * The filter loop: each match runs the check, and a transaction already in
   * the seen-set is dropped.
   */
  method FilterBy(check: Match -> Option<Transaction>, ms: seq<Match>) returns (expenses: seq<Transaction>)
    ensures expenses == Dedup(Accepted(check, ms))
  {
    expenses := [];
    var seen: set<Transaction> := {};
    for i := 0 to |ms|
      invariant expenses == Dedup(Accepted(check, ms[..i]))
      invariant forall t :: t in seen <==> t in expenses
    {
      assert ms[..i + 1][..i] == ms[..i];
      match check(ms[i]) {
        case None =>
          assert Accepted(check, ms[..i]) + [] == Accepted(check, ms[..i]);
        case Some(t) =>
          DedupSnoc(Accepted(check, ms[..i]), t);
          if t !in seen {
            seen := seen + {t};
            expenses := expenses + [t];
          }
      }
    }
    assert ms[..|ms|] == ms;
  }

  /** The filter pass over the merged matches, with the reader's chain as the check. */
  method FilterMatches(ms: seq<Match>) returns (expenses: seq<Transaction>)
    ensures expenses == Dedup(Accepted(Candidate, ms))
  {
    expenses := FilterBy(Candidate, ms);
  }

  /** What the filter pass emits: every property the chain guarantees, and no duplicates. */
  lemma FilterPassOutput(ms: seq<Match>, t: Transaction)
    requires t in Dedup(Accepted(Candidate, ms))
    ensures exists m :: m in ms && Candidate(m) == Some(t)
    ensures t.amount > 0.0 && IsCollapsed(t.description) && |t.description| >= 3
    ensures DateTokenLength(t.date).Some?
  {
    AcceptedFrom(Candidate, ms, t);
    var m :| m in ms && Candidate(m) == Some(t);
    CandidateChecks(m);
  }
}
