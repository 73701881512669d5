/**
 * The closed list of nine spending categories, the two fuzzy matchers that map
 * a free-text reply from the classification service onto it, and the ordered
 * keyword table used on the large-statement path.
 */
module Categories {
  import opened Wrappers
  import opened Text

  /** The category labels, in the order every matcher walks them. */
  const CATEGORIES: seq<string> := [
    "Food & Dining",
    "Transportation",
    "Shopping",
    "Bills & Utilities",
    "Entertainment",
    "Healthcare",
    "Personal Care",
    "Education",
    "Other"
  ]

  /** The two matchers differ: the single-item one also accepts a reply contained in a category name. */
  datatype Rule = SingleItem | Batch

  predicate Matches(rule: Rule, cat: string, reply: string) {
    var c, l := Lower(cat), Lower(reply);
    || c == l
    || Contains(l, c)
    || (rule == SingleItem && Contains(c, l))
  }

  /** The first name in cats, at position k or later, that the rule accepts for reply. */
  function FirstMatch(cats: seq<string>, rule: Rule, reply: string, k: nat): (r: Option<nat>)
    requires k <= |cats|
    ensures r.Some? ==> k <= r.value < |cats| && Matches(rule, cats[r.value], reply)
    ensures forall j :: k <= j < |cats| && (r.None? || j < r.value) ==> !Matches(rule, cats[j], reply)
    decreases |cats| - k
  {
    if k == |cats| then None
    else if Matches(rule, cats[k], reply) then Some(k)
    else FirstMatch(cats, rule, reply, k + 1)
  }

  /**
   * An exact category name is kept; otherwise the first category in list order
   * that the rule accepts; otherwise "Other".
   */
  function Resolve(rule: Rule, reply: string): (r: string)
    ensures r in CATEGORIES
    ensures reply in CATEGORIES ==> r == reply
  {
    if reply in CATEGORIES then reply
    else match FirstMatch(CATEGORIES, rule, reply, 0)
      case Some(j) => CATEGORIES[j]
      case None => "Other"
  }

  /**
   * A reply that is not a category name resolves to a category the rule
   * accepts (or to "Other"), and no category listed before it is accepted.
   */
  lemma ResolveFirst(rule: Rule, reply: string, j: nat)
    requires reply !in CATEGORIES && j < |CATEGORIES| && CATEGORIES[j] == Resolve(rule, reply)
    ensures Matches(rule, CATEGORIES[j], reply) || CATEGORIES[j] == "Other"
    ensures forall k :: 0 <= k < j ==> !Matches(rule, CATEGORIES[k], reply)
  {
    CategoriesDistinct();
  }

  lemma CategoriesDistinct()
    ensures forall i, j :: 0 <= i < j < |CATEGORIES| ==> CATEGORIES[i] != CATEGORIES[j]
  {
  }

  /** The single-item path: equal, contained in, or containing, ignoring case. */
  function ResolveSingle(reply: string): (r: string)
    ensures r in CATEGORIES
  {
    Resolve(SingleItem, reply)
  }

  /** The batch path: equal, or the category name inside the reply, ignoring case. */
  function ResolveBatch(reply: string): (r: string)
    ensures r in CATEGORIES
  {
    Resolve(Batch, reply)
  }

  // ---------------------------------------------------------------- keyword table

  /** The keyword table, in insertion order: the first keyword found wins. */
  const KEYWORDS: seq<(string, string)> := [
    ("food", "Food & Dining"),
    ("restaurant", "Food & Dining"),
    ("cafe", "Food & Dining"),
    ("carrefour", "Food & Dining"),
    ("lulu", "Food & Dining"),
    ("supermarket", "Food & Dining"),
    ("grocery", "Food & Dining"),
    ("uber", "Transportation"),
    ("careem", "Transportation"),
    ("taxi", "Transportation"),
    ("metro", "Transportation"),
    ("amazon", "Shopping"),
    ("shopping", "Shopping"),
    ("mall", "Shopping"),
    ("pharmacy", "Healthcare"),
    ("hospital", "Healthcare"),
    ("medical", "Healthcare"),
    ("salon", "Personal Care"),
    ("gym", "Personal Care"),
    ("fitness", "Personal Care"),
    ("etisalat", "Bills & Utilities"),
    ("du", "Bills & Utilities"),
    ("dewa", "Bills & Utilities"),
    ("utility", "Bills & Utilities")
  ]

  /** Every label in the keyword table is one of the categories. */
  lemma KeywordLabels()
    ensures forall j :: 0 <= j < |KEYWORDS| ==> KEYWORDS[j].1 in CATEGORIES
  {
  }

  /** The first entry of table, at position k or later, whose keyword occurs in text. */
  function FirstKeyword(table: seq<(string, string)>, text: string, k: nat): (r: Option<nat>)
    requires k <= |table|
    ensures r.Some? ==> k <= r.value < |table| && Contains(text, table[r.value].0)
    ensures forall j :: k <= j < |table| && (r.None? || j < r.value) ==> !Contains(text, table[j].0)
    decreases |table| - k
  {
    if k == |table| then None
    else if Contains(text, table[k].0) then Some(k)
    else FirstKeyword(table, text, k + 1)
  }

  /**
   * The keyword pass on one description: the category of the first keyword in
   * table order that occurs in the lower-cased description, if any.
   */
  function KeywordCategory(description: string): (r: Option<string>)
    ensures r.Some? ==> r.value in CATEGORIES
  {
    KeywordLabels();
    match FirstKeyword(KEYWORDS, Lower(description), 0)
    case Some(j) => Some(KEYWORDS[j].1)
    case None => None
  }

  /**
   * No category exactly when no keyword occurs in the lower-cased description;
   * otherwise the label of the first keyword, in table order, that occurs.
   */
  lemma KeywordCategoryFirst(description: string)
    ensures KeywordCategory(description).None? <==> forall j :: 0 <= j < |KEYWORDS| ==> !Contains(Lower(description), KEYWORDS[j].0)
    ensures KeywordCategory(description).Some? ==>
      exists j :: && 0 <= j < |KEYWORDS| && KeywordCategory(description).value == KEYWORDS[j].1
                  && Contains(Lower(description), KEYWORDS[j].0)
                  && forall k :: 0 <= k < j ==> !Contains(Lower(description), KEYWORDS[k].0)
  {
  }
}
