/**
 * Cleaning up the batch classifier's reply before it is parsed as JSON: the
 * code fences are removed, then the first brace-delimited object of nesting
 * depth at most two is taken; failing that, a depth-counting scan from the
 * first '{' looks for the shortest balanced span.
 */
module Reply {
  import opened Wrappers
  import opened Text

  // ---------------------------------------------------------------- code fences

  /**
   * `re.sub(re.escape(marker) + r'\s*', '', t[i..])`: every occurrence of the
   * marker, found left to right, is removed together with the whitespace run
   * after it.
   */
  function RemoveMarker(t: string, marker: string, i: nat): (r: string)
    requires i <= |t| && marker != []
    ensures |r| <= |t| - i
    decreases |t| - i
  {
    if i == |t| then []
    else if StartsWith(t[i..], marker) then RemoveMarker(t, marker, SpaceRun(t, i + |marker|))
    else [t[i]] + RemoveMarker(t, marker, i + 1)
  }

  /** The two substitutions, "```json" first, then "```". */
  function StripFences(t: string): (r: string)
    ensures |r| <= |t|
  {
    var once := RemoveMarker(t, "```json", 0);
    RemoveMarker(once, "```", 0)
  }

  /** A text in which the marker's first character does not occur is left alone. */
  lemma {:induction false} MarkerAbsent(t: string, marker: string, i: nat)
    requires i <= |t| && marker != [] && forall k :: i <= k < |t| ==> t[k] != marker[0]
    ensures RemoveMarker(t, marker, i) == t[i..]
    decreases |t| - i
  {
    if i < |t| {
      assert t[i..][0] == t[i];
      MarkerAbsent(t, marker, i + 1);
      assert t[i..] == [t[i]] + t[i + 1..];
    }
  }

  /** A reply without backticks is not altered by the fence removal. */
  lemma NoBacktickUnchanged(t: string)
    requires '`' !in t
    ensures StripFences(t) == t
  {
    MarkerAbsent(t, "```json", 0);
    assert t[0..] == t;
    MarkerAbsent(t, "```", 0);
  }

  // ---------------------------------------------------------------- the object pattern

  /**
   * `\{[^{}]*(?:\{[^{}]*\}[^{}]*)*\}` after its opening '{', scanning from i
   * inside `depth` open braces (one or two): the pattern admits no third level,
   * and the first '}' at depth one ends the match. The pattern has only one way
   * to match, so no backtracking is needed.
   */
  function ShallowEnd(s: string, i: nat, depth: nat): (r: Option<nat>)
    requires i <= |s| && (depth == 1 || depth == 2)
    ensures r.Some? ==> i < r.value <= |s| && s[r.value - 1] == '}'
    decreases |s| - i
  {
    if i == |s| then None
    else if s[i] == '{' then (if depth == 1 then ShallowEnd(s, i + 1, 2) else None)
    else if s[i] == '}' then (if depth == 1 then Some(i + 1) else ShallowEnd(s, i + 1, 1))
    else ShallowEnd(s, i + 1, depth)
  }

  /** The end of the object pattern's match at p, if it matches there. */
  function ShallowAt(s: string, p: nat): (r: Option<nat>)
    requires p <= |s|
    ensures r.Some? ==> p < r.value <= |s| && s[p] == '{' && s[r.value - 1] == '}'
  {
    if p < |s| && s[p] == '{' then ShallowEnd(s, p + 1, 1) else None
  }

  /** `re.search` with the object pattern from p: the leftmost match and its end. */
  function BraceSearch(s: string, p: nat): (r: Option<(nat, nat)>)
    requires p <= |s|
    ensures r.Some? ==> p <= r.value.0 < r.value.1 <= |s| && ShallowAt(s, r.value.0) == Some(r.value.1)
    decreases |s| - p
  {
    match ShallowAt(s, p)
    case Some(e) => Some((p, e))
    case None => if p == |s| then None else BraceSearch(s, p + 1)
  }

  /** The search's match is the leftmost one: the pattern matches nowhere before it. */
  lemma {:induction false} BraceSearchLeftmost(s: string, p: nat, a: nat)
    requires p <= a <= |s| && (BraceSearch(s, p).None? || a < BraceSearch(s, p).value.0)
    ensures ShallowAt(s, a).None?
    decreases a - p
  {
    if p < a {
      BraceSearchLeftmost(s, p + 1, a);
    }
  }

  /** A '{' with no brace between it and a later '}' starts a match that ends at that '}'. */
  lemma {:induction false} InnermostMatches(s: string, p: nat, j: nat, i: nat)
    requires p < i <= j < |s| && s[j] == '}'
    requires forall k :: p < k < j ==> s[k] != '{' && s[k] != '}'
    ensures ShallowEnd(s, i, 1) == Some(j + 1)
    decreases j - i
  {
    if i < j {
      InnermostMatches(s, p, j, i + 1);
    }
  }

  /**
   * Whenever a '{' at i is followed by a '}' at j with no '}' between them,
   * some '{' from i on starts a match of the object pattern.
   */
  lemma {:induction false} PairMatches(s: string, i: nat, j: nat) returns (p: nat)
    requires i < j < |s| && s[i] == '{' && s[j] == '}'
    requires forall k :: i <= k < j ==> s[k] != '}'
    ensures i <= p <= j && ShallowAt(s, p).Some?
    decreases j - i
  {
    var next := Find(s, '{', i + 1);
    if next.Some? && next.value < j {
      p := PairMatches(s, next.value, j);
    } else {
      p := i;
      InnermostMatches(s, i, j, i + 1);
    }
  }

  /** So when the pattern finds nothing, no '}' follows the first '{'. */
  lemma SearchFailsNoClose(s: string, a: nat)
    requires BraceSearch(s, 0).None? && a < |s| && s[a] == '{'
    ensures forall k :: a <= k < |s| ==> s[k] != '}'
  {
    if j :| a <= j < |s| && s[j] == '}' {
      var first := Find(s, '}', a).value;
      var p := PairMatches(s, a, first);
      BraceSearchLeftmost(s, 0, p);
      assert false;
    }
  }

  // ---------------------------------------------------------------- the depth-counting scan

  /** The count of '{' minus the count of '}' in s[a..j]. */
  function Depth(s: string, a: nat, j: nat): int
    requires a <= j <= |s|
    decreases j - a
  {
    if j == a then 0
    else Depth(s, a, j - 1) + (if s[j - 1] == '{' then 1 else if s[j - 1] == '}' then -1 else 0)
  }

  /** The first e >= from at which the count from a comes back to zero. */
  function FirstBalance(s: string, a: nat, from: nat): (r: Option<nat>)
    requires a <= from <= |s|
    ensures r.Some? ==> from <= r.value <= |s| && Depth(s, a, r.value) == 0
    decreases |s| - from
  {
    if Depth(s, a, from) == 0 then Some(from)
    else if from == |s| then None
    else FirstBalance(s, a, from + 1)
  }

  /** Before the balance point the scan finds, the count is never zero. */
  lemma {:induction false} FirstBalanceFirst(s: string, a: nat, from: nat, e: nat)
    requires a <= from <= e <= |s| && (FirstBalance(s, a, from).None? || e < FirstBalance(s, a, from).value)
    ensures Depth(s, a, e) != 0
    decreases e - from
  {
    if from < e {
      FirstBalanceFirst(s, a, from + 1, e);
    }
  }

  /**
   * The span the scan cuts out: from the first '{' to the first point where the
   * braces balance; the whole text when there is no '{' or no such point.
   */
  function BraceSpan(s: string): (r: string)
  {
    match Find(s, '{', 0)
    case None => s
    case Some(a) =>
      match FirstBalance(s, a, a + 1)
      case None => s
      case Some(e) => s[a..e]
  }

  /** Before the count first returns to zero it stays positive. */
  lemma {:induction false} DepthPositive(s: string, a: nat, e: nat)
    requires a < e <= |s| && s[a] == '{'
    requires forall k :: a < k <= e ==> Depth(s, a, k) != 0
    ensures Depth(s, a, e) > 0
    decreases e - a
  {
    if e > a + 1 {
      DepthPositive(s, a, e - 1);
    }
  }

  /**
   * The span found by the scan starts with '{', ends with '}', balances, and
   * is the shortest such prefix of the text from the first '{'.
   */
  lemma BraceSpanShape(s: string, a: nat, e: nat)
    requires Find(s, '{', 0) == Some(a) && FirstBalance(s, a, a + 1) == Some(e)
    ensures BraceSpan(s) == s[a..e]
    ensures a + 2 <= e && s[a] == '{' && s[e - 1] == '}'
    ensures Depth(s, a, e) == 0 && forall k :: a < k < e ==> Depth(s, a, k) > 0
  {
    assert Depth(s, a, a + 1) == 1;
    forall k | a < k <= e - 1
      ensures Depth(s, a, k) != 0
    {
      FirstBalanceFirst(s, a, a + 1, k);
    }
    DepthPositive(s, a, e - 1);
    assert Depth(s, a, e) == Depth(s, a, e - 1) + (if s[e - 1] == '{' then 1 else if s[e - 1] == '}' then -1 else 0);
    forall k | a < k < e
      ensures Depth(s, a, k) > 0
    {
      DepthPositive(s, a, k);
    }
  }

  /** With no '}' after the first '{', the count never returns to zero. */
  lemma {:induction false} NoCloseDepth(s: string, a: nat, e: nat)
    requires a < e <= |s| && s[a] == '{' && forall k :: a <= k < |s| ==> s[k] != '}'
    ensures Depth(s, a, e) >= 1
    decreases e - a
  {
    if e > a + 1 {
      NoCloseDepth(s, a, e - 1);
    }
  }

  /**
   * When the object pattern finds nothing, the scan leaves the text as it is:
   * the fallback never changes what is handed to the JSON parser.
   */
  lemma FallbackUnchanged(s: string)
    requires BraceSearch(s, 0).None?
    ensures BraceSpan(s) == s
  {
    match Find(s, '{', 0)
    case None =>
    case Some(a) =>
      SearchFailsNoClose(s, a);
      forall e | a + 1 <= e <= |s|
        ensures Depth(s, a, e) != 0
      {
        NoCloseDepth(s, a, e);
      }
  }

  /** The depth-counting scan of the reply, as a loop with an early exit. */
  method ScanBraces(text: string) returns (r: string)
    ensures r == BraceSpan(text)
  {
    r := text;
    var found := Find(text, '{', 0);
    if found.Some? {
      var start := found.value;
      var count := 0;
      var end := start;
      var i := start;
      while i < |text|
        invariant start <= i <= |text| && end == start
        invariant count == Depth(text, start, i)
        invariant forall k :: start < k <= i ==> Depth(text, start, k) > 0
        decreases |text| - i
      {
        if text[i] == '{' {
          count := count + 1;
        } else if text[i] == '}' {
          count := count - 1;
          if count == 0 {
            end := i + 1;
            assert Depth(text, start, end) == 0;
            var first := FirstBalance(text, start, start + 1);
            if first.None? || end < first.value {
              FirstBalanceFirst(text, start, start + 1, end);
            }
            break;
          }
        }
        assert count == Depth(text, start, i + 1);
        i := i + 1;
      }
      if end > start {
        r := text[start..end];
      }
    }
  }

  // ---------------------------------------------------------------- the whole cleanup

  /** The text handed to `json.loads`: fences removed, then the object pattern, then the scan. */
  function JsonText(reply: string): string {
    var t := StripFences(Strip(reply));
    match BraceSearch(t, 0)
    case Some(m) => t[m.0..m.1]
    case None => BraceSpan(t)
  }

  /** A match of the object pattern starts with '{' and ends with '}'. */
  lemma SpanIsObject(t: string, p: nat, e: nat)
    requires p <= |t| && ShallowAt(t, p) == Some(e)
    ensures var r := t[p..e]; |r| >= 1 && r[0] == '{' && r[|r| - 1] == '}'
  {
    assert t[p..e][e - p - 1] == t[e - 1];
  }

  /** Either the object pattern's first match, or the fence-free reply unchanged. */
  lemma JsonTextCases(reply: string)
    ensures var t, r := StripFences(Strip(reply)), JsonText(reply);
      match BraceSearch(t, 0)
      case Some(m) => r == t[m.0..m.1] && |r| >= 1 && r[0] == '{' && r[|r| - 1] == '}'
      case None => r == t
  {
    var t := StripFences(Strip(reply));
    match BraceSearch(t, 0)
    case Some(m) =>
      SpanIsObject(t, m.0, m.1);
    case None =>
      FallbackUnchanged(t);
  }

  method ExtractJsonText(reply: string) returns (text: string)
    ensures text == JsonText(reply)
  {
    text := StripFences(Strip(reply));
    match BraceSearch(text, 0) {
      case Some(m) =>
        text := text[m.0..m.1];
      case None =>
        text := ScanBraces(text);
    }
  }
}
