/** The ordered keyword table at work: a short key early in the table decides the category. */
module KeywordExamples {
  import opened Wrappers
  import opened Text
  import opened Categories

  /** A key that does not occur passes the search on to the next entry. */
  lemma SkipKeyword(table: seq<(string, string)>, text: string, k: nat)
    requires k < |table| && !Contains(text, table[k].0)
    ensures FirstKeyword(table, text, k) == FirstKeyword(table, text, k + 1)
  {
  }

  /** A key that occurs ends the search. */
  lemma HitKeyword(table: seq<(string, string)>, text: string, k: nat)
    requires k < |table| && Contains(text, table[k].0)
    ensures FirstKeyword(table, text, k) == Some(k)
  {
  }


  /** Keys 0 to 2 of the table do not occur in "uber". */
  lemma UberLacksKeys0To2()
    ensures !Contains("uber", KEYWORDS[0].0)
    ensures !Contains("uber", KEYWORDS[1].0)
    ensures !Contains("uber", KEYWORDS[2].0)
  {
    assert KEYWORDS[0].0 == "food";
    MissingChar("uber", "food", 0, 0);
    assert KEYWORDS[1].0 == "restaurant";
    MissingChar("uber", "restaurant", 2, 0);
    assert KEYWORDS[2].0 == "cafe";
    MissingChar("uber", "cafe", 0, 0);
  }

  /** Keys 3 to 6 of the table do not occur in "uber". */
  lemma UberLacksKeys3To6()
    ensures !Contains("uber", KEYWORDS[3].0)
    ensures !Contains("uber", KEYWORDS[4].0)
    ensures !Contains("uber", KEYWORDS[5].0)
    ensures !Contains("uber", KEYWORDS[6].0)
  {
    assert KEYWORDS[3].0 == "carrefour";
    MissingChar("uber", "carrefour", 0, 0);
    assert KEYWORDS[4].0 == "lulu";
    MissingChar("uber", "lulu", 0, 0);
    assert KEYWORDS[5].0 == "supermarket";
    MissingChar("uber", "supermarket", 0, 0);
    assert KEYWORDS[6].0 == "grocery";
    MissingChar("uber", "grocery", 0, 0);
  }

  /** "Uber" is recognised as Transportation by the table alone: "uber" is key 7. */
  lemma UberIsTransport()
    ensures KeywordCategory("Uber") == Some("Transportation")
  {
    assert Lower("Uber") == "uber";
    assert KEYWORDS[7].0 == "uber";
    assert "uber"[0..4] == "uber";
    assert Contains("uber", "uber");
    HitKeyword(KEYWORDS, "uber", 7);
    UberLacksKeys0To2();
    UberLacksKeys3To6();
    SkipKeyword(KEYWORDS, "uber", 6);
    SkipKeyword(KEYWORDS, "uber", 5);
    SkipKeyword(KEYWORDS, "uber", 4);
    SkipKeyword(KEYWORDS, "uber", 3);
    SkipKeyword(KEYWORDS, "uber", 2);
    SkipKeyword(KEYWORDS, "uber", 1);
    SkipKeyword(KEYWORDS, "uber", 0);
  }

  /** Keys 0 to 2 of the table do not occur in "dubai parks": each misses a letter of it. */
  lemma ParksLacksKeys0To2()
    ensures !Contains("dubai parks", KEYWORDS[0].0)
    ensures !Contains("dubai parks", KEYWORDS[1].0)
    ensures !Contains("dubai parks", KEYWORDS[2].0)
  {
    assert KEYWORDS[0].0 == "food";
    MissingChar("dubai parks", "food", 2, 0);
    assert KEYWORDS[1].0 == "restaurant";
    MissingChar("dubai parks", "restaurant", 1, 0);
    assert KEYWORDS[2].0 == "cafe";
    MissingChar("dubai parks", "cafe", 0, 0);
  }

  /** Keys 3 to 5 of the table do not occur in "dubai parks": each misses a letter of it. */
  lemma ParksLacksKeys3To5()
    ensures !Contains("dubai parks", KEYWORDS[3].0)
    ensures !Contains("dubai parks", KEYWORDS[4].0)
    ensures !Contains("dubai parks", KEYWORDS[5].0)
  {
    assert KEYWORDS[3].0 == "carrefour";
    MissingChar("dubai parks", "carrefour", 0, 0);
    assert KEYWORDS[4].0 == "lulu";
    MissingChar("dubai parks", "lulu", 0, 0);
    assert KEYWORDS[5].0 == "supermarket";
    MissingChar("dubai parks", "supermarket", 3, 0);
  }

  /** Keys 6 to 8 of the table do not occur in "dubai parks": each misses a letter of it. */
  lemma ParksLacksKeys6To8()
    ensures !Contains("dubai parks", KEYWORDS[6].0)
    ensures !Contains("dubai parks", KEYWORDS[7].0)
    ensures !Contains("dubai parks", KEYWORDS[8].0)
  {
    assert KEYWORDS[6].0 == "grocery";
    MissingChar("dubai parks", "grocery", 0, 0);
    assert KEYWORDS[7].0 == "uber";
    MissingChar("dubai parks", "uber", 2, 0);
    assert KEYWORDS[8].0 == "careem";
    MissingChar("dubai parks", "careem", 0, 0);
  }

  /** Keys 9 to 11 of the table do not occur in "dubai parks": each misses a letter of it. */
  lemma ParksLacksKeys9To11()
    ensures !Contains("dubai parks", KEYWORDS[9].0)
    ensures !Contains("dubai parks", KEYWORDS[10].0)
    ensures !Contains("dubai parks", KEYWORDS[11].0)
  {
    assert KEYWORDS[9].0 == "taxi";
    MissingChar("dubai parks", "taxi", 0, 0);
    assert KEYWORDS[10].0 == "metro";
    MissingChar("dubai parks", "metro", 0, 0);
    assert KEYWORDS[11].0 == "amazon";
    MissingChar("dubai parks", "amazon", 1, 0);
  }

  /** Keys 12 to 14 of the table do not occur in "dubai parks": each misses a letter of it. */
  lemma ParksLacksKeys12To14()
    ensures !Contains("dubai parks", KEYWORDS[12].0)
    ensures !Contains("dubai parks", KEYWORDS[13].0)
    ensures !Contains("dubai parks", KEYWORDS[14].0)
  {
    assert KEYWORDS[12].0 == "shopping";
    MissingChar("dubai parks", "shopping", 1, 0);
    assert KEYWORDS[13].0 == "mall";
    MissingChar("dubai parks", "mall", 0, 0);
    assert KEYWORDS[14].0 == "pharmacy";
    MissingChar("dubai parks", "pharmacy", 1, 0);
  }

  /** Keys 15 to 17 of the table do not occur in "dubai parks": each misses a letter of it. */
  lemma ParksLacksKeys15To17()
    ensures !Contains("dubai parks", KEYWORDS[15].0)
    ensures !Contains("dubai parks", KEYWORDS[16].0)
    ensures !Contains("dubai parks", KEYWORDS[17].0)
  {
    assert KEYWORDS[15].0 == "hospital";
    MissingChar("dubai parks", "hospital", 0, 0);
    assert KEYWORDS[16].0 == "medical";
    MissingChar("dubai parks", "medical", 0, 0);
    assert KEYWORDS[17].0 == "salon";
    MissingChar("dubai parks", "salon", 2, 0);
  }

  /** Keys 18 to 20 of the table do not occur in "dubai parks": each misses a letter of it. */
  lemma ParksLacksKeys18To20()
    ensures !Contains("dubai parks", KEYWORDS[18].0)
    ensures !Contains("dubai parks", KEYWORDS[19].0)
    ensures !Contains("dubai parks", KEYWORDS[20].0)
  {
    assert KEYWORDS[18].0 == "gym";
    MissingChar("dubai parks", "gym", 0, 0);
    assert KEYWORDS[19].0 == "fitness";
    MissingChar("dubai parks", "fitness", 0, 0);
    assert KEYWORDS[20].0 == "etisalat";
    MissingChar("dubai parks", "etisalat", 0, 0);
  }

  lemma ParksFirstKeyFrom14()
    ensures FirstKeyword(KEYWORDS, "dubai parks", 14) == Some(21)
  {
    assert KEYWORDS[21].0 == "du";
    assert "dubai parks"[..2] == "du";
    assert Contains("dubai parks", "du");
    HitKeyword(KEYWORDS, "dubai parks", 21);
    ParksLacksKeys12To14();
    ParksLacksKeys15To17();
    ParksLacksKeys18To20();
    SkipKeyword(KEYWORDS, "dubai parks", 20);
    SkipKeyword(KEYWORDS, "dubai parks", 19);
    SkipKeyword(KEYWORDS, "dubai parks", 18);
    SkipKeyword(KEYWORDS, "dubai parks", 17);
    SkipKeyword(KEYWORDS, "dubai parks", 16);
    SkipKeyword(KEYWORDS, "dubai parks", 15);
    SkipKeyword(KEYWORDS, "dubai parks", 14);
  }

  lemma ParksFirstKeyFrom7()
    ensures FirstKeyword(KEYWORDS, "dubai parks", 7) == Some(21)
  {
    ParksFirstKeyFrom14();
    ParksLacksKeys6To8();
    ParksLacksKeys9To11();
    ParksLacksKeys12To14();
    SkipKeyword(KEYWORDS, "dubai parks", 13);
    SkipKeyword(KEYWORDS, "dubai parks", 12);
    SkipKeyword(KEYWORDS, "dubai parks", 11);
    SkipKeyword(KEYWORDS, "dubai parks", 10);
    SkipKeyword(KEYWORDS, "dubai parks", 9);
    SkipKeyword(KEYWORDS, "dubai parks", 8);
    SkipKeyword(KEYWORDS, "dubai parks", 7);
  }

  lemma ParksFirstKey()
    ensures FirstKeyword(KEYWORDS, "dubai parks", 0) == Some(21)
  {
    ParksFirstKeyFrom7();
    ParksLacksKeys0To2();
    ParksLacksKeys3To5();
    ParksLacksKeys6To8();
    SkipKeyword(KEYWORDS, "dubai parks", 6);
    SkipKeyword(KEYWORDS, "dubai parks", 5);
    SkipKeyword(KEYWORDS, "dubai parks", 4);
    SkipKeyword(KEYWORDS, "dubai parks", 3);
    SkipKeyword(KEYWORDS, "dubai parks", 2);
    SkipKeyword(KEYWORDS, "dubai parks", 1);
    SkipKeyword(KEYWORDS, "dubai parks", 0);
  }

  /** The category of a description is the label of the first key found in it. */
  lemma CategoryOfFirstKey(description: string, j: nat)
    requires j < |KEYWORDS| && FirstKeyword(KEYWORDS, Lower(description), 0) == Some(j)
    ensures KeywordCategory(description) == Some(KEYWORDS[j].1)
  {
  }

  /** The two-letter key "du" sends anything mentioning Dubai that no earlier key caught to Bills & Utilities. */
  lemma DubaiIsUtility(description: string)
    requires Lower(description) == "dubai parks"
    ensures KeywordCategory(description) == Some("Bills & Utilities")
  {
    ParksFirstKey();
    CategoryOfFirstKey(description, 21);
  }
}
