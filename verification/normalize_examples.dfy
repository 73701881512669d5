/** Worked examples of the description normaliser. */
module NormalizeExamples {
  import opened Wrappers
  import opened Text
  import opened Normalize

  /** A card-terminal purchase line: trimmed, no leading "- ", and a marker ending at 15. */
  lemma MallPurchaseMarker(s: string)
    requires s == "NFC - (AP-PAY)-DUBAI MALL"
    ensures IsStripped(s) && !StartsWith(s, "- ")
    ensures MarkerShape(s, 4, 6, 13, 14, 15)
  {
    assert TagAt(s);
    assert s[3] == ' ' && s[4] == '-' && s[5] == ' ' && s[6] == '(';
    assert s[7..13] == "AP-PAY" && s[13] == ')' && s[14] == '-';
  }

  /** What follows that marker: the merchant name, with no whitespace before it. */
  lemma MallPurchaseRest(s: string)
    requires s == "NFC - (AP-PAY)-DUBAI MALL"
    ensures SpaceRun(s, 15) == 15 && s[15..] == "DUBAI MALL"
  {
    SpaceRunIs(s, 15, 15);
  }

  /** The payment-channel marker of a card-terminal purchase is removed. */
  lemma ChannelMarkerRemoved()
    ensures CleanDescription("NFC - (AP-PAY)-DUBAI MALL") == "DUBAI MALL"
  {
    var s := "NFC - (AP-PAY)-DUBAI MALL";
    MallPurchaseMarker(s);
    MallPurchaseRest(s);
    CleanDropsMarker(s, s, 4, 6, 13, 14, 15);
  }

  /** A leading "- " and then a marker both go. */
  lemma DashThenMarker()
    ensures CleanDescription("- NFC - (X) - Y") == "Y"
  {
    var s := "- NFC - (X) - Y";
    var t := "NFC - (X) - Y";
    DashThenMarkerText(s, t);
    DashedMarkerShape(t);
    DashedMarkerRest(t);
    CleanDropsMarker(s, t, 4, 6, 8, 10, 12);
  }

  lemma DashedMarkerRest(t: string)
    requires t == "NFC - (X) - Y"
    ensures SpaceRun(t, 11) == 12 && t[12..] == "Y"
  {
    SpaceRunIs(t, 11, 12);
  }

  lemma DashThenMarkerText(s: string, t: string)
    requires s == "- NFC - (X) - Y" && t == "NFC - (X) - Y"
    ensures DropDash(Strip(s)) == t
  {
    assert IsStripped(s) && StartsWith(s, "- ");
    assert s[2..] == t;
    assert IsStripped(t);
  }

  lemma DashedMarkerShape(t: string)
    requires t == "NFC - (X) - Y"
    ensures MarkerShape(t, 4, 6, 8, 10, 12)
  {
    assert TagAt(t);
    assert t[3] == ' ' && t[4] == '-' && t[5] == ' ' && t[6] == '(' && t[7] == 'X';
    assert t[8] == ')' && t[9] == ' ' && t[10] == '-' && t[11] == ' ';
  }

  /** Only one leading "- " goes per call, so a second call can change the result again. */
  lemma CleanNotIdempotent()
    ensures CleanDescription("- - X") == "- X"
    ensures CleanDescription(CleanDescription("- - X")) == "X"
  {
    DashOnly("- - X", "- X");
    DashOnly("- X", "X");
  }

  /** A trimmed text whose leading "- " is followed by trimmed, unmarked text cleans to that text. */
  lemma DashOnly(s: string, t: string)
    requires |s| >= 2 && s[0] == '-' && s[1] == ' ' && s[2..] == t
    requires t != [] && !IsSpace(t[0]) && !IsSpace(t[|t| - 1]) && !TagAt(t)
    ensures CleanDescription(s) == t
  {
    assert s[|s| - 1] == t[|t| - 1];
    assert IsStripped(s) && StartsWith(s, "- ") && IsStripped(t);
    CleanUnmarked(s, t);
  }
}
