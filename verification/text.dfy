/**
 * The part of Python's string library that the statement pipeline leans on:
 * str.isspace, strip, lower/upper, the `in` substring test, split() and
 * ' '.join, split('\n'), str(n) and float() on the characters that can reach it.
 */
module Text {
  import opened Wrappers

  /** Python's str.isspace() on one code point. */
  predicate IsSpace(c: char) {
    var n := c as int;
    || 9 <= n <= 13
    || 28 <= n <= 32
    || n == 0x85 || n == 0xA0 || n == 0x1680
    || 0x2000 <= n <= 0x200A
    || n == 0x2028 || n == 0x2029 || n == 0x202F || n == 0x205F || n == 0x3000
  }

  predicate IsDigit(c: char) { '0' <= c <= '9' }

  predicate IsLetter(c: char) { 'A' <= c <= 'Z' || 'a' <= c <= 'z' }

  predicate NoSpace(s: string) { forall i :: 0 <= i < |s| ==> !IsSpace(s[i]) }

  predicate AllDigits(s: string) { forall i :: 0 <= i < |s| ==> IsDigit(s[i]) }

  /** No whitespace at either end: what str.strip() guarantees. */
  predicate IsStripped(s: string) {
    s == [] || (!IsSpace(s[0]) && !IsSpace(s[|s| - 1]))
  }

  /** r occurs in s as one contiguous piece. */
  ghost predicate IsInfix(r: string, s: string) {
    exists a {:trigger s[a..]} :: 0 <= a <= |s| - |r| && r == s[a..][..|r|]
  }

  // ---------------------------------------------------------------- whitespace runs

  /** The end of the whitespace run that starts at i: what a greedy `\s*` consumes. */
  function SpaceRun(s: string, i: nat): (j: nat)
    requires i <= |s|
    ensures i <= j <= |s|
    ensures forall k :: i <= k < j ==> IsSpace(s[k])
    ensures j < |s| ==> !IsSpace(s[j])
    decreases |s| - i
  {
    if i < |s| && IsSpace(s[i]) then SpaceRun(s, i + 1) else i
  }

  predicate AllSpace(s: string, i: nat, j: nat)
    requires i <= j <= |s|
  {
    forall k :: i <= k < j ==> IsSpace(s[k])
  }

  /** A whitespace run ending at a non-whitespace character (or the end) is what `\s*` takes. */
  lemma SpaceRunIs(s: string, i: nat, j: nat)
    requires i <= j <= |s| && AllSpace(s, i, j) && (j < |s| ==> !IsSpace(s[j]))
    ensures SpaceRun(s, i) == j
    decreases j - i
  {
    if i < j {
      SpaceRunIs(s, i + 1, j);
    }
  }

  lemma {:induction false} SpaceRunCovers(s: string, i: nat, j: nat)
    requires i <= j <= |s| && AllSpace(s, i, j)
    ensures j <= SpaceRun(s, i)
    decreases j - i
  {
    if i < j {
      SpaceRunCovers(s, i + 1, j);
    }
  }

  // ---------------------------------------------------------------- strip

  function StripLeft(s: string): (r: string)
    ensures |r| <= |s| && r == s[|s| - |r|..]
    ensures r == [] || !IsSpace(r[0])
    ensures forall i :: 0 <= i < |s| - |r| ==> IsSpace(s[i])
  {
    if s != [] && IsSpace(s[0]) then
      var t := s[1..];
      var r := StripLeft(t);
      assert t[|t| - |r|..] == s[|s| - |r|..];
      assert forall i :: 1 <= i < |s| - |r| ==> s[i] == t[i - 1];
      r
    else s
  }

  function StripRight(s: string): (r: string)
    ensures |r| <= |s| && r == s[..|r|]
    ensures r == [] || !IsSpace(r[|r| - 1])
    ensures forall i :: |r| <= i < |s| ==> IsSpace(s[i])
  {
    if s != [] && IsSpace(s[|s| - 1]) then
      var t := s[..|s| - 1];
      var r := StripRight(t);
      assert t[..|r|] == s[..|r|];
      assert forall i :: |r| <= i < |s| - 1 ==> s[i] == t[i];
      r
    else s
  }

  /** r is s with a run of whitespace taken off each end. */
  ghost predicate TrimmedFrom(r: string, s: string) {
    exists i {:trigger s[i..]} :: 0 <= i <= |s| - |r| && r == s[i..][..|r|] && AllSpace(s, 0, i) && AllSpace(s, i + |r|, |s|)
  }

  /** str.strip(): only whitespace is removed, and only at the two ends. */
  function Strip(s: string): (r: string)
    ensures IsStripped(r)
    ensures IsStripped(s) ==> r == s
    ensures IsInfix(r, s)
    ensures TrimmedFrom(r, s)
  {
    var l := StripLeft(s);
    var r := StripRight(l);
    StripParts(s, l, r, |s| - |l|);
    r
  }

  lemma StripParts(s: string, l: string, r: string, i: nat)
    requires l == StripLeft(s) && r == StripRight(l) && i == |s| - |l|
    ensures i + |r| <= |s| && r == s[i..][..|r|]
    ensures AllSpace(s, 0, i) && AllSpace(s, i + |r|, |s|)
    ensures IsInfix(r, s) && TrimmedFrom(r, s)
  {
    assert l == s[i..];
    assert r == l[..|r|];
    forall k | i + |r| <= k < |s|
      ensures IsSpace(s[k])
    {
      assert |r| <= k - i < |l| && s[k] == l[k - i];
    }
    assert r == s[i..][..|r|];
  }

  /** The trimmed text is the only piece with no whitespace at its ends that is left after cutting whitespace off both ends. */
  lemma StripUnique(s: string, r: string)
    requires IsStripped(r) && TrimmedFrom(r, s)
    ensures r == Strip(s)
  {
    var i :| 0 <= i <= |s| - |r| && r == s[i..][..|r|] && AllSpace(s, 0, i) && AllSpace(s, i + |r|, |s|);
    var j := StripAt(s);
    TrimSame(s, r, i, Strip(s), j);
  }

  /** Where the trimmed text sits in s. */
  lemma StripAt(s: string) returns (j: nat)
    ensures j + |Strip(s)| <= |s| && Strip(s) == s[j..][..|Strip(s)|]
    ensures AllSpace(s, 0, j) && AllSpace(s, j + |Strip(s)|, |s|) && IsStripped(Strip(s))
  {
    var l := StripLeft(s);
    j := |s| - |l|;
    StripParts(s, l, StripRight(l), j);
  }

  lemma TrimSame(s: string, r: string, i: nat, t: string, j: nat)
    requires IsStripped(r) && i + |r| <= |s| && r == s[i..][..|r|] && AllSpace(s, 0, i) && AllSpace(s, i + |r|, |s|)
    requires IsStripped(t) && j + |t| <= |s| && t == s[j..][..|t|] && AllSpace(s, 0, j) && AllSpace(s, j + |t|, |s|)
    ensures r == t
  {
    if r != [] {
      assert !IsSpace(s[i]) && !IsSpace(s[i + |r| - 1]) by {
        assert r[0] == s[i] && r[|r| - 1] == s[i + |r| - 1];
      }
    }
    if t != [] {
      assert !IsSpace(s[j]) && !IsSpace(s[j + |t| - 1]) by {
        assert t[0] == s[j] && t[|t| - 1] == s[j + |t| - 1];
      }
    }
    if r != [] && t != [] {
      assert i == j;
      assert |r| == |t|;
    }
  }

  /** An infix has no character its host lacks. */
  lemma InfixMembers(r: string, s: string)
    requires IsInfix(r, s)
    ensures forall c :: c in r ==> c in s
  {
    var a :| 0 <= a <= |s| - |r| && r == s[a..][..|r|];
    forall c | c in r
      ensures c in s
    {
      var i :| 0 <= i < |r| && r[i] == c;
      assert s[a + i] == c;
    }
  }

  // ---------------------------------------------------------------- case

  function LowerChar(c: char): char {
    if 'A' <= c <= 'Z' then (c as int + 32) as char else c
  }

  function UpperChar(c: char): char {
    if 'a' <= c <= 'z' then (c as int - 32) as char else c
  }

  /** str.lower(), on the ASCII letters. */
  function Lower(s: string): (r: string)
    ensures |r| == |s| && forall i :: 0 <= i < |s| ==> r[i] == LowerChar(s[i])
  {
    seq(|s|, i requires 0 <= i < |s| => LowerChar(s[i]))
  }

  /** str.upper(), on the ASCII letters. */
  function Upper(s: string): (r: string)
    ensures |r| == |s| && forall i :: 0 <= i < |s| ==> r[i] == UpperChar(s[i])
  {
    seq(|s|, i requires 0 <= i < |s| => UpperChar(s[i]))
  }

  // ---------------------------------------------------------------- substrings

  predicate StartsWith(s: string, p: string) {
    |p| <= |s| && s[..|p|] == p
  }

  predicate EndsWith(s: string, p: string) {
    |p| <= |s| && s[|s| - |p|..] == p
  }

  /** Python's `p in s` on strings. */
  predicate Contains(s: string, p: string) {
    ContainsFrom(s, p, 0)
  }

  /** p occurs in s at position i or later. */
  predicate ContainsFrom(s: string, p: string, i: nat)
    decreases |s| - i
  {
    i + |p| <= |s| && (s[i..i + |p|] == p || ContainsFrom(s, p, i + 1))
  }

  lemma {:induction false} ContainsAt(s: string, p: string, i: nat, a: nat)
    requires i <= a && a + |p| <= |s| && s[a..a + |p|] == p
    ensures ContainsFrom(s, p, i)
    decreases a - i
  {
    if i < a {
      ContainsAt(s, p, i + 1, a);
    }
  }

  /** A string missing one of p's characters does not contain p. */
  lemma {:induction false} MissingChar(s: string, p: string, m: nat, i: nat)
    requires m < |p| && p[m] !in s
    ensures !ContainsFrom(s, p, i)
    decreases |s| - i
  {
    if i + |p| <= |s| {
      assert s[i..i + |p|][m] == s[i + m];
      MissingChar(s, p, m, i + 1);
    }
  }

  /** The position of the first occurrence of c. */
  function IndexOf(s: string, c: char): (i: nat)
    requires c in s
    ensures i < |s| && s[i] == c && c !in s[..i]
  {
    if s[0] == c then 0 else 1 + IndexOf(s[1..], c)
  }

  /** s.find(c, i), with None for -1: the first position at or after i that holds c. */
  function Find(s: string, c: char, i: nat): (r: Option<nat>)
    requires i <= |s|
    ensures r.Some? ==> i <= r.value < |s| && s[r.value] == c && forall k :: i <= k < r.value ==> s[k] != c
    ensures r.None? ==> forall k :: i <= k < |s| ==> s[k] != c
    decreases |s| - i
  {
    if i == |s| then None
    else if s[i] == c then Some(i)
    else Find(s, c, i + 1)
  }

  /** The search stops at the first c. */
  lemma FindIs(s: string, c: char, i: nat, j: nat)
    requires i <= j < |s| && s[j] == c && forall k :: i <= k < j ==> s[k] != c
    ensures Find(s, c, i) == Some(j)
    decreases j - i
  {
    if i < j {
      FindIs(s, c, i + 1, j);
    }
  }

  /** The first occurrence of c is at i when c does not occur before i. */
  lemma IndexOfAt(s: string, c: char, i: nat)
    requires i < |s| && s[i] == c && c !in s[..i]
    ensures IndexOf(s, c) == i
  {
    if i > 0 {
      assert s[1..][..i - 1] == s[..i][1..];
      IndexOfAt(s[1..], c, i - 1);
    }
  }

  // ---------------------------------------------------------------- split() and ' '.join

  /** What split() returns pieces of: non-empty, without whitespace. */
  predicate IsWord(w: string) { w != [] && NoSpace(w) }

  /** Length of the leading run of non-whitespace characters. */
  function WordLength(s: string): (n: nat)
    ensures n <= |s| && NoSpace(s[..n]) && (n < |s| ==> IsSpace(s[n]))
  {
    if s == [] || IsSpace(s[0]) then 0 else 1 + WordLength(s[1..])
  }

  /** str.split() with no argument: the maximal runs of non-whitespace, in order. */
  function Words(s: string): (ws: seq<string>)
    ensures forall i :: 0 <= i < |ws| ==> IsWord(ws[i])
    decreases |s|
  {
    if s == [] then []
    else if IsSpace(s[0]) then Words(s[1..])
    else
      var n := WordLength(s);
      [s[..n]] + Words(s[n..])
  }

  /** ' '.join(ws). */
  function JoinSpaced(ws: seq<string>): string {
    if ws == [] then []
    else if |ws| == 1 then ws[0]
    else ws[0] + " " + JoinSpaced(ws[1..])
  }

  /** Whitespace only as single ' ' characters between two non-whitespace ones. */
  predicate IsCollapsed(s: string) {
    && IsStripped(s)
    && forall i :: 0 <= i < |s| && IsSpace(s[i]) ==> s[i] == ' ' && i + 1 < |s| && !IsSpace(s[i + 1])
  }

  /** ' '.join(s.split()). */
  function CollapseSpaces(s: string): (r: string)
    ensures IsCollapsed(r)
  {
    JoinCollapsed(Words(s));
    JoinSpaced(Words(s))
  }

  /** Joining words with single spaces gives a collapsed string. */
  lemma {:induction false} JoinCollapsed(ws: seq<string>)
    requires forall i :: 0 <= i < |ws| ==> IsWord(ws[i])
    ensures IsCollapsed(JoinSpaced(ws))
    ensures ws != [] ==> StartsWith(JoinSpaced(ws), ws[0])
  {
    if |ws| > 1 {
      JoinCollapsed(ws[1..]);
      var w, rest := ws[0], JoinSpaced(ws[1..]);
      var j := w + " " + rest;
      assert rest[0] == ws[1][0];
      assert forall i :: 0 <= i < |w| ==> j[i] == w[i];
      assert forall i :: |w| < i < |j| ==> j[i] == rest[i - |w| - 1];
      assert j[..|w|] == w;
    }
  }

  lemma {:induction false} WordLengthOf(w: string, rest: string)
    requires NoSpace(w) && (rest == [] || IsSpace(rest[0]))
    ensures WordLength(w + rest) == |w|
  {
    if w != [] {
      assert (w + rest)[1..] == w[1..] + rest;
      WordLengthOf(w[1..], rest);
    }
  }

  /** A word followed by whitespace (or nothing) is split() off first. */
  lemma WordsCons(w: string, u: string)
    requires IsWord(w) && (u == [] || IsSpace(u[0]))
    ensures Words(w + u) == [w] + Words(u)
  {
    var t := w + u;
    assert t[0] == w[0];
    WordLengthOf(w, u);
    assert t[..|w|] == w && t[|w|..] == u;
  }

  /** Leading whitespace is skipped by split(). */
  lemma WordsSkipSpace(u: string)
    requires u != [] && IsSpace(u[0])
    ensures Words(u) == Words(u[1..])
  {
  }

  /** A word, a space and anything: split() takes the word off first. */
  lemma WordThenSpace(w: string, rest: string)
    requires IsWord(w)
    ensures Words(w + " " + rest) == [w] + Words(rest)
  {
    assert w + " " + rest == w + (" " + rest);
    WordsCons(w, " " + rest);
    assert (" " + rest)[1..] == rest;
  }

  /** split() undoes ' '.join on words. */
  lemma {:induction false} WordsOfJoin(ws: seq<string>)
    requires forall i :: 0 <= i < |ws| ==> IsWord(ws[i])
    ensures Words(JoinSpaced(ws)) == ws
  {
    if |ws| == 1 {
      WordsCons(ws[0], []);
      assert ws[0] + [] == ws[0];
      assert ws == [ws[0]];
    } else if |ws| > 1 {
      WordThenSpace(ws[0], JoinSpaced(ws[1..]));
      WordsOfJoin(ws[1..]);
      assert ws == [ws[0]] + ws[1..];
    }
  }

  /** Collapsing whitespace twice is the same as collapsing it once. */
  lemma CollapseIdempotent(s: string)
    ensures CollapseSpaces(CollapseSpaces(s)) == CollapseSpaces(s)
  {
    WordsOfJoin(Words(s));
  }

  // ---------------------------------------------------------------- split(sep)

  /** str.split(sep) for a one-character separator: every piece, empty ones included. */
  function SplitOn(s: string, sep: char): (parts: seq<string>)
    ensures |parts| >= 1
    ensures forall i :: 0 <= i < |parts| ==> sep !in parts[i]
    decreases |s|
  {
    if sep !in s then [s]
    else
      var i := IndexOf(s, sep);
      [s[..i]] + SplitOn(s[i + 1..], sep)
  }

  /** sep.join(parts). */
  function JoinOn(parts: seq<string>, sep: char): string {
    if parts == [] then []
    else if |parts| == 1 then parts[0]
    else parts[0] + [sep] + JoinOn(parts[1..], sep)
  }

  /** Joining a list of two or more pieces puts the separator after the first. */
  lemma JoinCons(head: string, rest: seq<string>, sep: char)
    requires |rest| >= 1
    ensures JoinOn([head] + rest, sep) == head + [sep] + JoinOn(rest, sep)
  {
    assert ([head] + rest)[1..] == rest;
  }

  /** Splitting loses nothing: joining the pieces gives back the text. */
  lemma {:induction false} JoinSplit(s: string, sep: char)
    ensures JoinOn(SplitOn(s, sep), sep) == s
    decreases |s|
  {
    if sep in s {
      var i := IndexOf(s, sep);
      var rest := SplitOn(s[i + 1..], sep);
      JoinSplit(s[i + 1..], sep);
      JoinCons(s[..i], rest, sep);
      assert s == s[..i] + [sep] + s[i + 1..];
    }
  }

  // ---------------------------------------------------------------- numbers

  function DigitValue(c: char): nat
    requires IsDigit(c)
  {
    c as int - '0' as int
  }

  function DigitChar(d: nat): (c: char)
    requires d < 10
    ensures IsDigit(c) && DigitValue(c) == d
  {
    ('0' as int + d) as char
  }

  /** The number a string of decimal digits denotes. */
  function DigitsValue(s: string): nat
    requires AllDigits(s)
  {
    if s == [] then 0 else 10 * DigitsValue(s[..|s| - 1]) + DigitValue(s[|s| - 1])
  }

  function Pow10(k: nat): (p: nat)
    ensures p >= 1
  {
    if k == 0 then 1 else 10 * Pow10(k - 1)
  }

  /** str(n): the decimal numeral of n, without leading zeros. */
  function NatToString(n: nat): (s: string)
    ensures s != [] && AllDigits(s)
    ensures DigitsValue(s) == n
    ensures s[0] == '0' ==> s == "0"
  {
    if n < 10 then [DigitChar(n)]
    else
      var s := NatToString(n / 10) + [DigitChar(n % 10)];
      assert s[..|s| - 1] == NatToString(n / 10);
      s
  }

  /** `s.replace(',', '')`. */
  function DropCommas(s: string): string {
    if s == [] then []
    else (if s[0] == ',' then [] else [s[0]]) + DropCommas(s[1..])
  }

  /** The characters kept are exactly the non-comma ones. */
  lemma {:induction false} DropCommasMembers(s: string)
    ensures |DropCommas(s)| <= |s|
    ensures forall c :: c in DropCommas(s) <==> c in s && c != ','
  {
    if s != [] {
      DropCommasMembers(s[1..]);
      assert s == [s[0]] + s[1..];
    }
  }

  /** One character is dropped exactly when it is a comma. */
  lemma DropCommasOne(c: char)
    ensures DropCommas([c]) == if c == ',' then [] else [c]
  {
    assert [c][1..] == [];
  }

  /** A text without commas is left as it is. */
  lemma {:induction false} NoCommaKept(x: string)
    requires ',' !in x
    ensures DropCommas(x) == x
  {
    if x != [] {
      NoCommaKept(x[1..]);
      assert x == [x[0]] + x[1..];
    }
  }

  /** Removing commas distributes over concatenation. */
  lemma {:induction false} DropCommasSplit(a: string, b: string)
    ensures DropCommas(a + b) == DropCommas(a) + DropCommas(b)
    decreases |a|
  {
    if a != [] {
      DropCommasSplit(a[1..], b);
      assert (a + b)[1..] == a[1..] + b;
    } else {
      assert a + b == b;
    }
  }

  /** The value of the numeral w.f: the whole digits plus the fraction digits over 10 to their count. */
  function DecimalValue(w: string, f: string): (v: real)
    requires AllDigits(w) && AllDigits(f)
    ensures v >= 0.0
  {
    DigitsValue(w) as real + DigitsValue(f) as real / Pow10(|f|) as real
  }

  /** float() on an unsigned numeral: digits with at most one '.', and at least one digit. */
  function ParseUnsigned(s: string): (r: Option<real>)
    ensures r.Some? ==> s != [] && r.value >= 0.0
  {
    if '.' in s then
      var i := IndexOf(s, '.');
      var whole, frac := s[..i], s[i + 1..];
      if AllDigits(whole) && AllDigits(frac) && |whole| + |frac| > 0
      then Some(DecimalValue(whole, frac))
      else None
    else if s != [] && AllDigits(s) then Some(DigitsValue(s) as real)
    else None
  }

  /**
   * float() on a string made of digits, '.' and '-' only (the only characters
   * that ever reach it here): an optional '-' before an unsigned numeral.
   */
  function ParseFloat(s: string): (r: Option<real>)
    ensures r.Some? ==> s != []
    ensures r.Some? && r.value > 0.0 ==> s[0] != '-'
    ensures r.Some? && s[0] != '-' ==> r.value >= 0.0
  {
    if s != [] && s[0] == '-' then
      match ParseUnsigned(s[1..])
      case Some(v) => Some(-v)
      case None => None
    else ParseUnsigned(s)
  }

  /** A digit string has no '.' and does not start with '-'. */
  lemma DigitsPlain(s: string)
    requires AllDigits(s)
    ensures '.' !in s && (s != [] ==> s[0] != '-')
  {
    assert forall i :: 0 <= i < |s| ==> IsDigit(s[i]);
  }

  /** float(str(n)) == n. */
  lemma ParseNumeral(n: nat)
    ensures ParseFloat(NatToString(n)) == Some(n as real)
  {
    DigitsPlain(NatToString(n));
  }

  /** float(w + "." + f) is the value of the numeral w.f. */
  lemma ParseDecimal(w: string, f: string)
    requires AllDigits(w) && AllDigits(f) && |w| + |f| > 0
    ensures ParseFloat(w + "." + f) == Some(DecimalValue(w, f))
  {
    DotAt(w, f, w + "." + f);
  }

  /** The first '.' of w + "." + f is the one between them. */
  lemma DotAt(w: string, f: string, u: string)
    requires AllDigits(w) && u == w + "." + f
    ensures '.' in u && IndexOf(u, '.') == |w|
    ensures u[..|w|] == w && u[|w| + 1..] == f
    ensures u[0] != '-'
  {
    DigitsPlain(w);
    assert u[..|w|] == w && u[|w|] == '.';
    IndexOfAt(u, '.', |w|);
    if w != [] {
      assert u[0] == w[0];
    }
  }

  /** A leading '-' negates what follows, and nothing parses after two of them. */
  lemma ParseNegated(s: string)
    requires s == [] || s[0] != '-'
    ensures ParseFloat("-" + s) == if ParseFloat(s).Some? then Some(-ParseFloat(s).value) else None
  {
    assert ("-" + s)[1..] == s;
  }
}
