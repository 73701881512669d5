/**
 * A worked example of the filter chain: the skip keywords are looked for in
 * the trimmed description before its whitespace is collapsed, so a summary row
 * written with two spaces gets through and is emitted with the keyword in it.
 */
module ExtractionExamples {
  import opened Wrappers
  import opened Text
  import opened Extraction

  /** Skip keywords 0 to 6 each miss a letter of "total  amount". */
  lemma DoubleSpacedLacksKeys0To6(s: string)
    requires s == "total  amount"
    ensures forall j :: 0 <= j < 7 ==> !Contains(s, SKIP_KEYWORDS[j])
  {
    assert SKIP_KEYWORDS[0] == "opening balance";
    MissingChar(s, "opening balance", 1, 0);
    assert SKIP_KEYWORDS[1] == "closing balance";
    MissingChar(s, "closing balance", 0, 0);
    assert SKIP_KEYWORDS[2] == "total outstanding";
    MissingChar(s, "total outstanding", 9, 0);
    assert SKIP_KEYWORDS[3] == "transaction date";
    MissingChar(s, "transaction date", 1, 0);
    assert SKIP_KEYWORDS[4] == "posting date";
    MissingChar(s, "posting date", 0, 0);
    assert SKIP_KEYWORDS[5] == "transaction details";
    MissingChar(s, "transaction details", 1, 0);
    assert SKIP_KEYWORDS[6] == "original amount";
    MissingChar(s, "original amount", 1, 0);
  }

  /** Skip keywords 8 to 12 each miss a letter of "total  amount". */
  lemma DoubleSpacedLacksKeys8To12(s: string)
    requires s == "total  amount"
    ensures forall j :: 8 <= j < 13 ==> !Contains(s, SKIP_KEYWORDS[j])
  {
    assert SKIP_KEYWORDS[8] == "important:";
    MissingChar(s, "important:", 0, 0);
    assert SKIP_KEYWORDS[9] == "warning";
    MissingChar(s, "warning", 0, 0);
    assert SKIP_KEYWORDS[10] == "page";
    MissingChar(s, "page", 0, 0);
    assert SKIP_KEYWORDS[11] == "statement";
    MissingChar(s, "statement", 0, 0);
    assert SKIP_KEYWORDS[12] == "account";
    MissingChar(s, "account", 1, 0);
  }

  /** The two spaces hide "total amount": no window of the text lines up with it. */
  lemma DoubleSpaceHidesKeyword(s: string, p: string)
    requires s == "total  amount" && p == "total amount"
    ensures !Contains(s, p)
  {
    assert !ContainsFrom(s, p, 2);
    assert s[1..13][0] == 'o' && p[0] == 't';
    assert !ContainsFrom(s, p, 1);
    assert s[0..12][6] == ' ' && p[6] == 'a';
  }

  lemma DoubleSpacedPassesSkip(s: string)
    requires s == "total  amount"
    ensures !HasSkipKeyword(s)
  {
    DoubleSpacedLacksKeys0To6(s);
    DoubleSpacedLacksKeys8To12(s);
    assert SKIP_KEYWORDS[7] == "total amount";
    DoubleSpaceHidesKeyword(s, "total amount");
  }

  /** split() and ' '.join turn the two spaces into one. */
  lemma DoubleSpacedCollapses(s: string)
    requires s == "Total  Amount"
    ensures CollapseSpaces(s) == "Total Amount"
  {
    DoubleSpacedWords(s);
    var ws := ["Total", "Amount"];
    assert JoinSpaced(ws[1..]) == "Amount";
    assert JoinSpaced(ws) == "Total" + " " + "Amount";
  }

  lemma DoubleSpacedWords(s: string)
    requires s == "Total  Amount"
    ensures Words(s) == ["Total", "Amount"]
  {
    TwoSpacesBetween("Total", "Amount", s);
  }

  /** Two words with two spaces between them split into those two words. */
  lemma TwoSpacesBetween(w: string, v: string, s: string)
    requires IsWord(w) && IsWord(v) && s == w + "  " + v
    ensures Words(s) == [w, v]
  {
    var u := " " + v;
    assert s == w + " " + u;
    WordThenSpace(w, u);
    WordsSkipSpace(u);
    assert u[1..] == v;
    OneWord(v);
  }

  lemma OneWord(v: string)
    requires IsWord(v)
    ensures Words(v) == [v]
  {
    WordsCons(v, []);
    assert v + [] == v;
  }

  /** The amount text "10.00" passes every amount check with the value 10. */
  lemma TenParses(a: string)
    requires a == "10.00"
    ensures Strip(a) == a && !IsCredit(a)
    ensures CleanAmount(a) == a && ParseFloat(a) == Some(10.0)
  {
    TenNotCredit(a);
    TenClean(a);
    TenValue(a);
  }

  lemma TenNotCredit(a: string)
    requires a == "10.00"
    ensures Strip(a) == a && !IsCredit(a)
  {
    assert IsStripped(a) && Upper(a) == a;
    MissingChar(a, " CR", 0, 0);
  }

  lemma TenClean(a: string)
    requires a == "10.00"
    ensures CleanAmount(a) == a
  {
    assert IsStripped(a);
    KeepsNumberText(a);
    NoCommaKept(a);
  }

  lemma TenValue(a: string)
    requires a == "10.00"
    ensures ParseFloat(a) == Some(10.0)
  {
    assert a[2] == '.' && '.' !in a[..2];
    IndexOfAt(a, '.', 2);
    assert a[..2] == "10" && a[3..] == "00";
    assert DigitsValue("10") == 10 && DigitsValue("00") == 0;
  }

  lemma NewYearDate(d: string)
    requires d == "01-Jan-24"
    ensures Strip(d) == d && d != [] && DateTokenLength(Strip(d)) == Some(9)
  {
    assert IsStripped(d) && DateShape(d, 2);
  }

  lemma SummaryDescription(x: string)
    requires x == "Total  Amount"
    ensures Strip(x) == x && x != [] && !HasSkipKeyword(Lower(Strip(x)))
    ensures CollapseSpaces(Strip(x)) == "Total Amount" && |CollapseSpaces(Strip(x))| >= 3
  {
    assert IsStripped(x);
    assert Lower(x) == "total  amount";
    DoubleSpacedPassesSkip(Lower(x));
    DoubleSpacedCollapses(x);
  }

  lemma SummaryAmount(a: string)
    requires a == "10.00"
    ensures Strip(a) == a && a != [] && !IsCredit(Strip(a)) && ParseFloat(CleanAmount(Strip(a))) == Some(10.0)
  {
    TenParses(a);
  }

  lemma SummaryRowPasses(m: Match)
    requires m == Match("01-Jan-24", "Total  Amount", "10.00")
    ensures Candidate(m) == Some(Transaction("01-Jan-24", "Total Amount", 10.0))
  {
    NewYearDate(m.date);
    SummaryDescription(m.description);
    SummaryAmount(m.amount);
    CandidateAccepts(m, 10.0);
  }

  lemma KeywordInCollapsed(d: string)
    requires d == "Total Amount"
    ensures Contains(Lower(d), SKIP_KEYWORDS[7])
  {
    assert Lower(d) == "total amount" == SKIP_KEYWORDS[7];
    ContainsAt("total amount", "total amount", 0, 0);
  }

  /**
   * A "Total  Amount" row with two spaces passes the chain, and the emitted
   * description "Total Amount" contains the skip keyword "total amount".
   */
  lemma SkipCheckedBeforeCollapse(m: Match)
    requires m == Match("01-Jan-24", "Total  Amount", "10.00")
    ensures Candidate(m) == Some(Transaction("01-Jan-24", "Total Amount", 10.0))
    ensures Contains(Lower(Candidate(m).value.description), SKIP_KEYWORDS[7])
  {
    SummaryRowPasses(m);
    KeywordInCollapsed("Total Amount");
  }
}
