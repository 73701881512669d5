/**
 * The description normaliser: trim, drop one leading "- ", drop one
 * `(NFC|IAP) - (...) -` payment-channel marker (any letter case), trim again.
 */
module Normalize {
  import opened Wrappers
  import opened Text

  /** The alternation `(NFC|IAP)` at the start of s, ignoring letter case. */
  predicate TagAt(s: string) {
    && |s| >= 3
    && var a, b, c := UpperChar(s[0]), UpperChar(s[1]), UpperChar(s[2]);
       (a == 'N' && b == 'F' && c == 'C') || (a == 'I' && b == 'A' && c == 'P')
  }

  /**
   * s[..e] matches `(NFC|IAP)\s*-\s*\([^)]+\)\s*-\s*`, with the first '-' at a,
   * the '(' at b, the ')' at c and the second '-' at d.
   */
  predicate MarkerShape(s: string, a: nat, b: nat, c: nat, d: nat, e: nat) {
    && TagAt(s)
    && 3 <= a < b && b + 1 < c < d < e <= |s|
    && AllSpace(s, 3, a) && s[a] == '-'
    && AllSpace(s, a + 1, b) && s[b] == '('
    && NoCloseParen(s, b + 1, c) && s[c] == ')'
    && AllSpace(s, c + 1, d) && s[d] == '-'
    && AllSpace(s, d + 1, e)
  }

  /** `[^)]*` over s[i..j]. */
  predicate NoCloseParen(s: string, i: nat, j: nat)
    requires i <= j <= |s|
  {
    forall k :: i <= k < j ==> s[k] != ')'
  }

  /** Where the parts of a marker sit: the two dashes, the parentheses, and the end. */
  datatype Marker = Marker(dash1: nat, open: nat, close: nat, dash2: nat, end: nat)

  predicate IsMarker(s: string, m: Marker) {
    MarkerShape(s, m.dash1, m.open, m.close, m.dash2, m.end)
  }

  /**
   * The marker `re.sub(r'^(NFC|IAP)\s*-\s*\([^)]+\)\s*-\s*', '', s,
   * flags=re.IGNORECASE)` removes, if s starts with one.
   */
  function FindMarker(s: string): (r: Option<Marker>)
    ensures r.Some? ==> IsMarker(s, r.value)
    ensures r.Some? && r.value.end < |s| ==> !IsSpace(s[r.value.end])
  {
    if !TagAt(s) then None
    else
      var a := SpaceRun(s, 3);
      if a == |s| || s[a] != '-' then None
      else
        var b := SpaceRun(s, a + 1);
        if b == |s| || s[b] != '(' then None
        else match CloseAndDash(s, b)
          case None => None
          case Some(m) => Some(Marker(a, b, m.0, m.1, m.2))
  }

  /** From the '(' at b: the first ')' (after at least one other character), then `\s*-\s*`. */
  function CloseAndDash(s: string, b: nat): (r: Option<(nat, nat, nat)>)
    requires b < |s|
    ensures r.Some? ==> var (c, d, e) := r.value;
      && b + 1 < c < d < e <= |s| && NoCloseParen(s, b + 1, c) && s[c] == ')'
      && AllSpace(s, c + 1, d) && s[d] == '-' && AllSpace(s, d + 1, e)
      && (e < |s| ==> !IsSpace(s[e]))
  {
    match Find(s, ')', b + 1)
    case None => None
    case Some(c) =>
      if c == b + 1 then None
      else match DashAfter(s, c)
        case None => None
        case Some(de) => Some((c, de.0, de.1))
  }

  /** `\s*-\s*` after position c: the position of the '-' and the end of the whitespace after it. */
  function DashAfter(s: string, c: nat): (r: Option<(nat, nat)>)
    requires c < |s|
    ensures r.Some? ==> var (d, e) := r.value;
      && c < d < e <= |s| && AllSpace(s, c + 1, d) && s[d] == '-' && AllSpace(s, d + 1, e)
      && (e < |s| ==> !IsSpace(s[e]))
  {
    var d := SpaceRun(s, c + 1);
    if d == |s| || s[d] != '-' then None
    else Some((d, SpaceRun(s, d + 1)))
  }

  lemma CloseAndDashFound(s: string, b: nat, c: nat, d: nat, e: nat)
    requires b + 1 < c < d < e <= |s| && NoCloseParen(s, b + 1, c) && s[c] == ')'
    requires AllSpace(s, c + 1, d) && s[d] == '-' && AllSpace(s, d + 1, e)
    ensures CloseAndDash(s, b) == Some((c, d, SpaceRun(s, d + 1)))
    ensures e <= SpaceRun(s, d + 1)
  {
    FindIs(s, ')', b + 1, c);
    DashAfterFound(s, c, d, e);
  }

  lemma DashAfterFound(s: string, c: nat, d: nat, e: nat)
    requires c < d < e <= |s| && AllSpace(s, c + 1, d) && s[d] == '-' && AllSpace(s, d + 1, e)
    ensures DashAfter(s, c) == Some((d, SpaceRun(s, d + 1)))
    ensures e <= SpaceRun(s, d + 1)
  {
    SpaceRunIs(s, c + 1, d);
    assert d < |s| && s[d] == '-';
    SpaceRunCovers(s, d + 1, e);
  }

  /**
   * Completeness: whenever s starts with a marker, the matcher finds that one,
   * taking the whole whitespace run after it (greedy `\s*`).
   */
  lemma MarkerFound(s: string, a: nat, b: nat, c: nat, d: nat, e: nat)
    requires MarkerShape(s, a, b, c, d, e)
    ensures FindMarker(s) == Some(Marker(a, b, c, d, SpaceRun(s, d + 1)))
    ensures e <= SpaceRun(s, d + 1)
  {
    SpaceRunIs(s, 3, a);
    SpaceRunIs(s, a + 1, b);
    CloseAndDashFound(s, b, c, d, e);
  }

  /** r is r2 with `(NFC|IAP) - (...) -` taken off its front, when r2 has one. */
  function DropMarker(r2: string): (r: string)
    ensures |r| <= |r2| && IsInfix(r, r2)
    ensures FindMarker(r2).None? ==> r == r2
  {
    var r := match FindMarker(r2) case Some(m) => r2[m.end..] case None => r2;
    assert r == r2[|r2| - |r|..][..|r|];
    r
  }

  /** Drop one leading "- ", trimming what follows it. */
  function DropDash(d: string): (r: string)
    ensures IsStripped(d) ==> IsStripped(r)
    ensures StartsWith(d, "- ") ==> r == Strip(d[2..])
    ensures !StartsWith(d, "- ") ==> r == d
    ensures IsInfix(r, d)
  {
    if StartsWith(d, "- ") then
      var r := Strip(d[2..]);
      InfixTrans(r, d[2..], d);
      r
    else
      assert d == d[0..][..|d|];
      d
  }

  /** clean_description. */
  function CleanDescription(description: string): (r: string)
    ensures IsStripped(r)
    ensures IsInfix(r, description)
    ensures |r| <= |description|
  {
    var d1 := Strip(description);
    var d2 := DropDash(d1);
    var d3 := DropMarker(d2);
    var r := Strip(d3);
    InfixChain(r, d3, d2, d1, description);
    r
  }

  lemma InfixChain(r: string, d3: string, d2: string, d1: string, s: string)
    requires IsInfix(r, d3) && IsInfix(d3, d2) && IsInfix(d2, d1) && IsInfix(d1, s)
    ensures IsInfix(r, s) && |r| <= |s|
  {
    InfixTrans(d2, d1, s);
    InfixTrans(d3, d2, s);
    InfixTrans(r, d3, s);
  }

  lemma InfixTrans(a: string, b: string, c: string)
    requires IsInfix(a, b) && IsInfix(b, c)
    ensures IsInfix(a, c)
  {
    var x :| 0 <= x <= |b| - |a| && a == b[x..][..|a|];
    var y :| 0 <= y <= |c| - |b| && b == c[y..][..|b|];
    assert forall i :: 0 <= i < |a| ==> a[i] == b[x + i] == c[y + x + i];
    assert a == c[y + x..][..|a|];
  }

  /**
   * Without a marker after the dash step, the cleaned description is the
   * trimmed input, less one leading "- " and the whitespace after it.
   */
  lemma CleanUnmarked(s: string, t: string)
    requires t == DropDash(Strip(s)) && FindMarker(t).None?
    ensures CleanDescription(s) == t
    ensures StartsWith(Strip(s), "- ") ==> CleanDescription(s) == Strip(Strip(s)[2..])
    ensures !StartsWith(Strip(s), "- ") ==> CleanDescription(s) == Strip(s)
  {
  }

  /**
   * A description that is already trimmed and carries neither a leading "- "
   * nor a payment-channel marker is left alone.
   */
  lemma CleanFixpoint(s: string)
    requires IsStripped(s) && !StartsWith(s, "- ") && FindMarker(s).None?
    ensures CleanDescription(s) == s
  {
    CleanUnmarked(s, s);
  }

  /**
   * Every marker the pattern describes in the text after the dash step is
   * removed, along with all the whitespace after it.
   */
  lemma CleanDropsMarker(s: string, t: string, a: nat, b: nat, c: nat, d: nat, e: nat)
    requires t == DropDash(Strip(s)) && MarkerShape(t, a, b, c, d, e)
    ensures e <= SpaceRun(t, d + 1)
    ensures CleanDescription(s) == t[SpaceRun(t, d + 1)..]
  {
    var u := MarkerTail(t, a, b, c, d, e);
    assert DropMarker(t) == u;
  }

  /** In trimmed text, what follows a marker and its whitespace is trimmed too. */
  lemma MarkerTail(t: string, a: nat, b: nat, c: nat, d: nat, e: nat) returns (u: string)
    requires IsStripped(t) && MarkerShape(t, a, b, c, d, e)
    ensures e <= SpaceRun(t, d + 1) && u == t[SpaceRun(t, d + 1)..]
    ensures FindMarker(t) == Some(Marker(a, b, c, d, SpaceRun(t, d + 1)))
    ensures IsStripped(u) && Strip(u) == u
  {
    MarkerFound(t, a, b, c, d, e);
    u := t[SpaceRun(t, d + 1)..];
    assert u == [] || u[|u| - 1] == t[|t| - 1];
  }
}
