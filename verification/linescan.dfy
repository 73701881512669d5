/**
 * The fallback line scan of the statement reader, and the reader as a whole:
 * the filter pass over the pattern matches, and the line scan over the text
 * when the filter pass found nothing.
 */
module LineScan {
  import opened Wrappers
  import opened Text
  import opened Extraction
  import opened AmountToken

  /**
   * One line of the fallback scan: a trimmed, non-empty line that starts with a
   * date token and holds an amount token (the leftmost one) goes on to the
   * checks of LineEntry; any other line is skipped.
   */
  function ScanLine(raw: string): Option<Transaction> {
    var line := Strip(raw);
    if line == [] then None
    else match DateTokenLength(line)
      case None => None
      case Some(dlen) =>
        match AmountSearch(line, 0)
        case None => None
        case Some(token) => LineEntry(line, dlen, token.0, token.1)
  }

  /**
   * The checks on a line whose date token ends at dlen and whose amount token is
   * line[a..e]: the description is the trimmed text between the two (empty when
   * the amount starts inside the date) and must be longer than three
   * characters; the amount must be positive; and the upper-cased line must not
   * contain "CR".
   */
  function LineEntry(line: string, dlen: nat, a: nat, e: nat): Option<Transaction>
    requires dlen <= |line| && a <= e <= |line|
  {
    var desc := if dlen <= a then Strip(line[dlen..a]) else [];
    if |desc| <= 3 then None
    else match ParseFloat(DropCommas(line[a..e]))
      case None => None
      case Some(v) =>
        if v > 0.0 && !Contains(Upper(line), "CR") then Some(Transaction(line[..dlen], desc, v))
        else None
  }

  /** Only a line with a date token and an amount token reaches the checks. */
  lemma ScanLineStages(raw: string)
    requires ScanLine(raw).Some?
    ensures var line := Strip(raw);
      && DateTokenLength(line).Some? && AmountSearch(line, 0).Some?
      && var dlen, token := DateTokenLength(line).value, AmountSearch(line, 0).value;
      && AmountShape(line, token.0, token.1)
      && ScanLine(raw) == LineEntry(line, dlen, token.0, token.1)
  {
  }

  /** What a line the checks keep satisfies. */
  lemma LineEntryChecks(line: string, dlen: nat, a: nat, e: nat)
    requires dlen <= |line| && a <= e <= |line|
    requires LineEntry(line, dlen, a, e).Some?
    ensures var t := LineEntry(line, dlen, a, e).value;
      && dlen <= a && t.date == line[..dlen]
      && t.description == Strip(line[dlen..a]) && |t.description| > 3 && IsStripped(t.description)
      && ParseFloat(DropCommas(line[a..e])) == Some(t.amount) && t.amount > 0.0
      && !Contains(Upper(line), "CR")
  {
  }

  /**
   * And conversely: with an amount token after the date, more than three
   * characters of description between them and no "CR", the amount always
   * parses, and the line is kept exactly when it is positive.
   */
  lemma LineEntryKeeps(line: string, dlen: nat, a: nat, e: nat)
    requires AmountShape(line, a, e) && dlen <= a
    requires |Strip(line[dlen..a])| > 3 && !Contains(Upper(line), "CR")
    ensures ParseFloat(DropCommas(line[a..e])).Some?
    ensures LineEntry(line, dlen, a, e).Some? <==> ParseFloat(DropCommas(line[a..e])).value > 0.0
  {
    AmountParses(line, a, e);
  }

  /** The fallback loop: each line runs the check, and every hit is appended, duplicates included. */
  method ScanBy(check: string -> Option<Transaction>, lines: seq<string>) returns (expenses: seq<Transaction>)
    ensures expenses == Accepted(check, lines)
  {
    expenses := [];
    for i := 0 to |lines|
      invariant expenses == Accepted(check, lines[..i])
    {
      assert lines[..i + 1][..i] == lines[..i];
      match check(lines[i]) {
        case None =>
          assert expenses + [] == expenses;
        case Some(t) =>
          expenses := expenses + [t];
      }
    }
    assert lines[..|lines|] == lines;
  }

  /** The fallback scan over the lines of the text. */
  method ScanLines(text: string) returns (expenses: seq<Transaction>)
    ensures expenses == Accepted(ScanLine, SplitOn(text, '\n'))
  {
    expenses := ScanBy(ScanLine, SplitOn(text, '\n'));
  }

  /** Lines the scan keeps twice are emitted twice: the fallback has no seen-set. */
  lemma ScanKeepsRepeats(line: string)
    requires ScanLine(line).Some?
    ensures Accepted(ScanLine, [line, line]) == [ScanLine(line).value, ScanLine(line).value]
  {
    AcceptedRepeats(ScanLine, line);
  }

  // ---------------------------------------------------------------- the reader

  /**
   * The expenses the reader returns for the two patterns' matches and the page
   * text: the filter pass, or the line scan when the filter pass found nothing.
   */
  function Extract(first: seq<Match>, alt: seq<Match>, text: string): seq<Transaction> {
    var filtered := Dedup(Accepted(Candidate, MergeMatches(first, alt)));
    if filtered != [] then filtered else Accepted(ScanLine, SplitOn(text, '\n'))
  }

  method ExtractExpenses(first: seq<Match>, alt: seq<Match>, text: string) returns (expenses: seq<Transaction>)
    ensures expenses == Extract(first, alt, text)
  {
    var merged := MergeMatches(first, alt);
    expenses := FilterMatches(merged);
    if expenses == [] {
      expenses := ScanLines(text);
    }
  }

  /** Whichever pass produced it, every expense has a positive amount, a date token and a real description. */
  lemma ExtractOutput(first: seq<Match>, alt: seq<Match>, text: string, t: Transaction)
    requires t in Extract(first, alt, text)
    ensures t.amount > 0.0 && |t.description| >= 3 && DateTokenLength(t.date).Some?
  {
    var filtered := Dedup(Accepted(Candidate, MergeMatches(first, alt)));
    if filtered != [] {
      FilterPassOutput(MergeMatches(first, alt), t);
    } else {
      var lines := SplitOn(text, '\n');
      AcceptedFrom(ScanLine, lines, t);
      var raw :| raw in lines && ScanLine(raw) == Some(t);
      ScanLineStages(raw);
      var line := Strip(raw);
      var dlen, token := DateTokenLength(line).value, AmountSearch(line, 0).value;
      LineEntryChecks(line, dlen, token.0, token.1);
      DatePrefix(line, dlen);
    }
  }

  /** The date token a scanned line starts with is a date token on its own. */
  lemma DatePrefix(line: string, dlen: nat)
    requires DateTokenLength(line) == Some(dlen)
    ensures DateTokenLength(line[..dlen]) == Some(dlen)
  {
  }
}
