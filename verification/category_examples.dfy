/** Worked examples of the two label matchers and of the keyword table. */
module CategoryExamples {
  import opened Wrappers
  import opened Text
  import opened Categories

  /** Every category name contains the empty string, so an empty reply lands on the first one. */
  lemma EmptyReplyIsFood()
    ensures ResolveSingle("") == "Food & Dining"
  {
    assert Matches(SingleItem, CATEGORIES[0], "");
  }

  lemma FoodInFoodAndDining()
    ensures Matches(SingleItem, "Food & Dining", "Food")
  {
    assert Lower("Food") == "food";
    assert Lower("Food & Dining")[..4] == "food";
  }

  /** The single-item matcher accepts "Food" because it occurs in "Food & Dining". */
  lemma FoodSingle()
    ensures ResolveSingle("Food") == "Food & Dining"
  {
    FoodInFoodAndDining();
    assert FirstMatch(CATEGORIES, SingleItem, "Food", 0) == Some(0);
  }

  /** The batch matcher does not: no category name occurs inside "Food". */
  lemma FoodBatch()
    ensures ResolveBatch("Food") == "Other"
  {
    forall j | 0 <= j < |CATEGORIES|
      ensures !Matches(Batch, CATEGORIES[j], "Food")
    {
      assert |Lower(CATEGORIES[j])| == |CATEGORIES[j]| > 4;
    }
  }
}
