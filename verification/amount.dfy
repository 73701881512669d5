/**
 * The amount token of the line scan, `[\d,]+\.?\d{2}`, written as a scanner
 * that follows the backtracking order of the pattern: the greedy `[\d,]+`
 * first, then the optional '.', then shorter digit-and-comma runs.
 */
module AmountToken {
  import opened Wrappers
  import opened Text

  predicate IsAmountChar(c: char) { IsDigit(c) || c == ',' }

  /** `[\d,]*` matches s[i..j]. */
  predicate AmountChars(s: string, i: nat, j: nat)
    requires i <= j <= |s|
  {
    forall k :: i <= k < j ==> IsAmountChar(s[k])
  }

  /** `[\d,]+\.?\d{2}` matches s[p..e] exactly. */
  predicate AmountShape(s: string, p: nat, e: nat) {
    && p + 3 <= e <= |s|
    && IsDigit(s[e - 2]) && IsDigit(s[e - 1])
    && ((e - p >= 4 && s[e - 3] == '.' && AmountChars(s, p, e - 3)) || AmountChars(s, p, e - 2))
  }

  /** The end of the digit-and-comma run that starts at i: what the greedy `[\d,]+` takes first. */
  function RunEnd(s: string, i: nat): (j: nat)
    requires i <= |s|
    ensures i <= j <= |s| && AmountChars(s, i, j)
    ensures j < |s| ==> !IsAmountChar(s[j])
    decreases |s| - i
  {
    if i < |s| && IsAmountChar(s[i]) then RunEnd(s, i + 1) else i
  }

  /**
   * The largest e with p + 3 <= e <= hi whose last two characters s[e-2], s[e-1]
   * are digits: backtracking `[\d,]+` one character at a time until `\d{2}` fits.
   */
  function LastDigitPair(s: string, p: nat, hi: nat): (r: Option<nat>)
    requires hi <= |s|
    ensures r.Some? ==> p + 3 <= r.value <= hi && IsDigit(s[r.value - 2]) && IsDigit(s[r.value - 1])
    decreases hi
  {
    if hi < p + 3 then None
    else if IsDigit(s[hi - 2]) && IsDigit(s[hi - 1]) then Some(hi)
    else LastDigitPair(s, p, hi - 1)
  }

  /** The end of the match of `[\d,]+\.?\d{2}` that starts at p, if one does. */
  function AmountAt(s: string, p: nat): (r: Option<nat>)
    requires p <= |s|
    ensures r.Some? ==> AmountShape(s, p, r.value)
  {
    var q := RunEnd(s, p);
    if q == p then None
    else if q + 2 < |s| && s[q] == '.' && IsDigit(s[q + 1]) && IsDigit(s[q + 2]) then Some(q + 3)
    else
      var r := LastDigitPair(s, p, q);
      assert r.Some? ==> AmountChars(s, p, r.value - 2);
      r
  }

  lemma {:induction false} RunEndCovers(s: string, i: nat, j: nat)
    requires i <= j <= |s| && AmountChars(s, i, j)
    ensures j <= RunEnd(s, i)
    decreases j - i
  {
    if i < j {
      RunEndCovers(s, i + 1, j);
    }
  }

  lemma {:induction false} LastDigitPairFinds(s: string, p: nat, hi: nat, e: nat)
    requires hi <= |s| && p + 3 <= e <= hi && IsDigit(s[e - 2]) && IsDigit(s[e - 1])
    ensures LastDigitPair(s, p, hi).Some? && e <= LastDigitPair(s, p, hi).value
    decreases hi
  {
    if !(IsDigit(s[hi - 2]) && IsDigit(s[hi - 1])) {
      LastDigitPairFinds(s, p, hi - 1, e);
    }
  }

  /**
   * The scanner finds a match at p whenever the pattern can match there, and
   * its match is the longest one.
   */
  lemma AmountAtLongest(s: string, p: nat, e: nat)
    requires p <= |s| && AmountShape(s, p, e)
    ensures AmountAt(s, p).Some? && e <= AmountAt(s, p).value
  {
    var q := RunEnd(s, p);
    if e - p >= 4 && s[e - 3] == '.' && AmountChars(s, p, e - 3) {
      RunEndCovers(s, p, e - 3);
      assert q == e - 3;
    } else {
      assert AmountChars(s, p, e);
      RunEndCovers(s, p, e);
      if !(q + 2 < |s| && s[q] == '.' && IsDigit(s[q + 1]) && IsDigit(s[q + 2])) {
        LastDigitPairFinds(s, p, q, e);
      }
    }
  }

  /**
   * `re.search`: the leftmost position at or after p where the pattern matches,
   * with the end of that match.
   */
  function AmountSearch(s: string, p: nat): (r: Option<(nat, nat)>)
    requires p <= |s|
    ensures r.Some? ==> p <= r.value.0 <= r.value.1 <= |s| && AmountAt(s, r.value.0) == Some(r.value.1)
    ensures forall a :: p <= a <= |s| && (r.None? || a < r.value.0) ==> AmountAt(s, a).None?
    decreases |s| - p
  {
    match AmountAt(s, p)
    case Some(e) => Some((p, e))
    case None => if p == |s| then None else AmountSearch(s, p + 1)
  }

  /**
   * The token the search returns is a well-formed amount, and no amount starts
   * further left.
   */
  lemma AmountSearchLeftmost(s: string, a: nat, e: nat)
    requires AmountShape(s, a, e)
    ensures AmountSearch(s, 0).Some? && AmountSearch(s, 0).value.0 <= a
    ensures AmountShape(s, AmountSearch(s, 0).value.0, AmountSearch(s, 0).value.1)
  {
    AmountAtLongest(s, a, e);
  }

  /**
   * Dropping the commas from a token leaves an unsigned numeral: `float()`
   * never fails on it, so the scan's ValueError handler cannot fire.
   */
  lemma AmountParses(s: string, p: nat, e: nat)
    requires AmountShape(s, p, e)
    ensures ParseFloat(DropCommas(s[p..e])).Some?
  {
    var t := s[p..e];
    if AmountChars(s, p, e - 2) {
      assert forall i :: 0 <= i < |t| - 2 ==> IsAmountChar(t[i]);
      WholeTokenParses(t);
    } else {
      assert forall i :: 0 <= i < |t| - 3 ==> IsAmountChar(t[i]);
      FractionTokenParses(t);
    }
  }

  /** Digits and commas, then two digits. */
  lemma WholeTokenParses(t: string)
    requires |t| >= 3 && IsDigit(t[|t| - 2]) && IsDigit(t[|t| - 1])
    requires forall i :: 0 <= i < |t| - 2 ==> IsAmountChar(t[i])
    ensures ParseFloat(DropCommas(t)).Some?
  {
    var w, tail := WholeParts(t);
    UnsignedDigits(w, tail, DropCommas(t));
  }

  /** Without its commas, the token is a run of digits, then two digits. */
  lemma WholeParts(t: string) returns (w: string, tail: string)
    requires |t| >= 3 && IsDigit(t[|t| - 2]) && IsDigit(t[|t| - 1])
    requires forall i :: 0 <= i < |t| - 2 ==> IsAmountChar(t[i])
    ensures AllDigits(w) && TwoDigits(tail) && DropCommas(t) == w + tail
  {
    WholeTail(t);
    TokenCommas(t, |t| - 2);
    w, tail := DropCommas(t[..|t| - 2]), t[|t| - 2..];
  }

  /** Digits and commas, then '.' and two digits. */
  lemma FractionTokenParses(t: string)
    requires |t| >= 4 && t[|t| - 3] == '.' && IsDigit(t[|t| - 2]) && IsDigit(t[|t| - 1])
    requires forall i :: 0 <= i < |t| - 3 ==> IsAmountChar(t[i])
    ensures ParseFloat(DropCommas(t)).Some?
  {
    var w, tail := FractionParts(t);
    UnsignedFraction(w, tail, DropCommas(t));
  }

  /** Without its commas, the token is a run of digits, then '.' and two digits. */
  lemma FractionParts(t: string) returns (w: string, tail: string)
    requires |t| >= 4 && t[|t| - 3] == '.' && IsDigit(t[|t| - 2]) && IsDigit(t[|t| - 1])
    requires forall i :: 0 <= i < |t| - 3 ==> IsAmountChar(t[i])
    ensures AllDigits(w) && DotTwoDigits(tail) && DropCommas(t) == w + tail
  {
    FractionTail(t);
    TokenCommas(t, |t| - 3);
    w, tail := DropCommas(t[..|t| - 3]), t[|t| - 3..];
  }

  predicate TwoDigits(tail: string) { |tail| == 2 && IsDigit(tail[0]) && IsDigit(tail[1]) }

  predicate DotTwoDigits(tail: string) { |tail| == 3 && tail[0] == '.' && IsDigit(tail[1]) && IsDigit(tail[2]) }

  lemma WholeTail(t: string)
    requires |t| >= 3 && IsDigit(t[|t| - 2]) && IsDigit(t[|t| - 1])
    ensures TwoDigits(t[|t| - 2..]) && ',' !in t[|t| - 2..]
  {
  }

  lemma FractionTail(t: string)
    requires |t| >= 4 && t[|t| - 3] == '.' && IsDigit(t[|t| - 2]) && IsDigit(t[|t| - 1])
    ensures DotTwoDigits(t[|t| - 3..]) && ',' !in t[|t| - 3..]
  {
  }

  /** Only the run before k can hold commas. */
  lemma TokenCommas(t: string, k: nat)
    requires k <= |t| && ',' !in t[k..]
    requires forall i :: 0 <= i < k ==> IsAmountChar(t[i])
    ensures DropCommas(t) == DropCommas(t[..k]) + t[k..]
    ensures AllDigits(DropCommas(t[..k]))
  {
    PrefixAmountChars(t, k);
    RunThenTail(t[..k], t[k..]);
    assert t == t[..k] + t[k..];
  }

  lemma PrefixAmountChars(t: string, k: nat)
    requires k <= |t| && forall i :: 0 <= i < k ==> IsAmountChar(t[i])
    ensures forall i :: 0 <= i < |t[..k]| ==> IsAmountChar(t[..k][i])
  {
  }

  /** A run of digits and commas, then text without commas. */
  lemma RunThenTail(run: string, tail: string)
    requires ',' !in tail && forall i :: 0 <= i < |run| ==> IsAmountChar(run[i])
    ensures DropCommas(run + tail) == DropCommas(run) + tail
    ensures AllDigits(DropCommas(run))
  {
    DropCommasSplit(run, tail);
    DropCommasDigits(run);
    NoCommaKept(tail);
  }

  /** Removing the commas from a run of digits and commas leaves digits only. */
  lemma {:induction false} DropCommasDigits(x: string)
    requires forall i :: 0 <= i < |x| ==> IsAmountChar(x[i])
    ensures AllDigits(DropCommas(x))
  {
    if x != [] {
      DropCommasDigits(x[1..]);
    }
  }

  /** Digits, then "dd" or ".dd": numerals `float()` accepts. */
  lemma UnsignedDigits(w: string, tail: string, u: string)
    requires AllDigits(w) && TwoDigits(tail) && u == w + tail
    ensures ParseFloat(u).Some?
  {
    assert AllDigits(u);
    assert '.' !in u by {
      forall i | 0 <= i < |u| ensures u[i] != '.' { assert IsDigit(u[i]); }
    }
  }

  lemma UnsignedFraction(w: string, tail: string, u: string)
    requires AllDigits(w) && DotTwoDigits(tail) && u == w + tail
    ensures ParseFloat(u).Some?
  {
    assert '.' !in w by {
      forall i | 0 <= i < |w| ensures w[i] != '.' { assert IsDigit(w[i]); }
    }
    assert u[..|w|] == w;
    IndexOfAt(u, '.', |w|);
    assert u[|w| + 1..] == tail[1..];
    assert AllDigits(tail[1..]);
  }
}
