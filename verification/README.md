# statement-sort core, modelled in Dafny

statement-sort reads a UAE credit-card statement and reports how much was
spent in each expense category. The steps modelled here are:

1. Extraction (`extract_expenses_from_pdf`). Two transaction patterns have
   already matched the statement's text.
   - Their matches are merged, preferring the first pattern.
   - Each match goes through the filter chain: trimming, skip keywords,
     credits, the date shape, amount cleaning and `float`, whitespace
     collapse, minimum length.
   - Repeats are dropped through a seen-set.
   - When nothing survives, each line of the text is scanned for a date
     token followed by an amount token.
2. Normalisation (`clean_description`). The description is trimmed, one
   leading `"- "` is dropped, and one `NFC`/`IAP` payment-channel marker
   such as `NFC - (AP-PAY)-` is dropped.
3. Labelling.
   - Statements of at most 300 expenses: every expense goes to the
     classification service in numbered batches (`categorize_expenses_batch`).
   - Longer statements are cut to their first 300 expenses. Each of those
     is first looked up in an ordered keyword table. Only the unmatched
     ones go to the service.
   - A batch whose reply cannot be read falls back to one request per
     expense. Every label a reply gives is mapped onto the fixed category
     list.
4. Aggregation (`process_statement`).
   - Each labelled expense is added to its category's bucket. A bucket
     holds a running total and the list of its transactions, and buckets
     are kept in first-seen order.
   - The buckets are sorted by total, descending. The sort is stable.
   - The result carries the grand total and the transaction count.

Modules:

- `Text` holds the Python string operations the code relies on: `strip`,
  `lower`/`upper`, `in`, `split`/`join`, `str(int)`, and `float` on
  unsigned decimal text.
- `Categories`: the category list, the two fuzzy matchers, and the
  keyword table.
- `Normalize`: `clean_description`.
- `Extraction`, `AmountToken` and `LineScan`: the filter pass and the
  line scan.
- `Reply`: how JSON text is pulled out of a batch reply.
- `Batch`: the batching and the labels it produces.
- `Buckets`: the category table, its insertion-ordered accumulation and
  the stable sort.
- `Process`: the whole statement.

The classification service is a parameter. `Batch.Service` gives, for a
batch number and its cleaned descriptions, the reply text or `None` when
the request or its envelope fails. It gives the same for a single
description. It also supplies the JSON decoder's reading of a text: `None`
on a decode error or when the text is not an object. `Batch.RequestsOf`
turns such a service into the label-producing `Batch.Requests` that the
rest of the model uses. `Batch.RequestsAnswer` proves that every label it
produces is in the category list.

Behaviours of the code that the model keeps:

- The skip keywords are looked for in the trimmed description before its
  whitespace is collapsed. `"Total  Amount"`, with two spaces, passes the
  chain and is emitted as `"Total Amount"`
  (`ExtractionExamples.SkipCheckedBeforeCollapse`).
- `clean_description` is not idempotent. `"- - X"` cleans to `"- X"`,
  which cleans to `"X"` (`NormalizeExamples.CleanNotIdempotent`).
- The two fuzzy matchers differ. The single-item matcher also accepts a
  reply contained in a category name, so `"Food"` gives `Food & Dining`.
  An empty reply does too. The batch matcher does not, so `"Food"` gives
  `Other`.
- The brace-counting fallback at app.py:407-422 runs only when the object
  pattern found nothing. That happens only when no `}` follows any `{`,
  so the fallback never changes the text (`Reply.FallbackUnchanged`).
- The keyword table is scanned in insertion order, and `du` matches
  inside many words (`DUBAI PARKS` is a utility bill).
- The count `len(expenses)` is that of the truncated list.
- The individual fallback at app.py:549-557 cannot be reached. For a
  non-empty list the batch function always returns a label for every
  index, so `Process.ProcessExpenses` asserts that branch dead.
- Amounts are exact reals. Python's float rounding is not modelled.

## Model

| member | source | states |
|---|---|---|
| Text.Strip | app.py:160-162 | the result has no whitespace at either end; it is the input with a run of whitespace (possibly empty) cut off each end, and nothing else removed; trimmed text is unchanged |
| Text.StripUnique | app.py:160-162 | any piece with no whitespace at its ends that is left after cutting only whitespace off both ends is the stripped text: `strip` removes exactly the outer whitespace |
| Text.Lower | app.py:173 | same length; each ASCII capital becomes lower case; other characters are kept |
| Text.Upper | app.py:178 | same length; each ASCII lower-case letter becomes a capital; other characters are kept |
| Text.CollapseSpaces | app.py:198 | `' '.join(s.split())` has no leading or trailing whitespace and only single spaces between words |
| Text.WordsOfJoin | app.py:198 | splitting words joined by single spaces gives those words back |
| Text.CollapseIdempotent | app.py:198 | collapsing whitespace twice is the same as once |
| Text.SplitOn | app.py:220 | `split('\n')` yields at least one piece, and no piece contains the separator |
| Text.JoinSplit | app.py:220 | joining the pieces with the separator gives the text back |
| Text.NatToString | app.py:428 | `str(n)` is a non-empty digit string with value n and no leading zero |
| Text.ParseFloat | app.py:193 | `float` succeeds only on non-empty text; a positive value has no leading `-`; text without a leading `-` never reads as negative |
| Text.ParseNumeral | app.py:193 | `float(str(n))` is n |
| Text.ParseDecimal | app.py:193 | `float` of digits w, a `.` and digits f (not both empty) is the value of w plus f over ten to the length of f |
| Text.ParseNegated | app.py:193 | `float` of `-` followed by text without a leading `-` is the negation of `float` of that text, and fails exactly when it fails |
| Categories.FirstMatch | app.py:318-320 | the index found is the first category, in list order, that the rule accepts; none before it is accepted |
| Categories.Resolve | app.py:314-321 | the label is in the category list, and an exact category name is kept |
| Categories.ResolveFirst | app.py:318-321 | the resolved category is accepted by the rule, or is `Other`, and no earlier category is accepted |
| Categories.CategoriesDistinct | app.py:93-103 | the nine category names are distinct |
| Categories.ResolveSingle | app.py:313-321 | the single-item matcher always yields a listed category |
| Categories.ResolveBatch | app.py:430-441 | the batch matcher always yields a listed category |
| Categories.KeywordLabels | app.py:485-510 | every keyword's label is a listed category |
| Categories.FirstKeyword | app.py:516-521 | the entry found is the first in table order whose keyword occurs in the text; no earlier one occurs |
| Categories.KeywordCategory | app.py:512-525 | a label the keyword pass gives is a listed category |
| Categories.KeywordCategoryFirst | app.py:512-525 | None exactly when no keyword occurs in the lower-cased description; otherwise the label of a keyword that occurs and before which, in table order, none occurs |
| CategoryExamples.EmptyReplyIsFood | app.py:319 | an empty single-item reply resolves to `Food & Dining` |
| CategoryExamples.FoodSingle | app.py:319 | the single-item reply `Food` resolves to `Food & Dining` |
| CategoryExamples.FoodBatch | app.py:431-441 | the batch label `Food` resolves to `Other` |
| KeywordExamples.UberIsTransport | app.py:493 | `Uber` is labelled `Transportation` by the keyword pass |
| KeywordExamples.ParksFirstKey | app.py:507 | the first keyword occurring in `dubai parks` is `du` |
| KeywordExamples.CategoryOfFirstKey | app.py:512-525 | the keyword pass labels a description with the category of the first keyword in it |
| KeywordExamples.DubaiIsUtility | app.py:507 | a description that lower-cases to `dubai parks` is labelled `Bills & Utilities` by the keyword pass |
| Normalize.FindMarker | app.py:262 | a marker found has the pattern's shape, tag, dashes, parentheses and whitespace, and ends before a non-space |
| Normalize.CloseAndDash | app.py:262 | a `\([^)]+\)\s*-\s*` tail found has a non-empty `)`-free inside and greedy whitespace |
| Normalize.DashAfter | app.py:262 | a `\s*-\s*` found has only whitespace around its dash and greedy whitespace after it |
| Normalize.MarkerFound | app.py:262 | whenever the description starts with a marker, the matcher finds it, taking all the whitespace after it |
| Normalize.DropMarker | app.py:262 | the result is a piece of the input and is unchanged when there is no marker |
| Normalize.DropDash | app.py:258-260 | text starting with `"- "` becomes the trimmed text after those two characters; other text is kept as is; the result is a piece of the input and stays trimmed |
| Normalize.CleanDescription | app.py:255-263 | the cleaned description is trimmed, is a contiguous piece of the input and is no longer |
| Normalize.CleanUnmarked | app.py:255-263 | for any description, when the text after trimming and the dash step carries no marker, the cleaned description is that text: the trimmed input, or the trimmed rest after a leading `"- "` |
| Normalize.CleanFixpoint | app.py:255-263 | a trimmed description with neither a leading `"- "` nor a marker is returned as is |
| Normalize.CleanDropsMarker | app.py:255-263 | for any description, when the text after trimming and the dash step starts with a marker, the cleaned description is that text without the marker and the whitespace after it |
| NormalizeExamples.ChannelMarkerRemoved | app.py:262 | `NFC - (AP-PAY)-DUBAI MALL` cleans to `DUBAI MALL` |
| NormalizeExamples.DashThenMarker | app.py:258-262 | `- NFC - (X) - Y` loses the dash and then the marker, and cleans to `Y` |
| NormalizeExamples.CleanNotIdempotent | app.py:259-260 | `- - X` cleans to `- X`, and `- X` cleans to `X` |
| Extraction.DateShapeUnique | app.py:182 | the day of a date token cannot be both one and two digits long |
| Extraction.DateTokenLength | app.py:182 | a date token exists exactly when the text starts with `\d{1,2}-[A-Za-z]{3}-\d{2}`; its length is two digits' worth when possible |
| Extraction.KeepNumberChars | app.py:186 | exactly the digits, `.`, `,` and `-` of the input are kept |
| Extraction.KeepNumberCharsAppend | app.py:186 | the substitution over a concatenation is the substitution over each part, in turn: the kept characters stay in input order |
| Extraction.KeepNumberCharsOne | app.py:186 | one character is kept exactly when it is a digit, `.`, `,` or `-` |
| Extraction.KeepsNumberText | app.py:186 | text made only of number characters is unchanged |
| Extraction.CleanAmount | app.py:186-187 | the cleaned amount holds only digits, `.` and `-`; it is the kept number characters with the commas removed |
| Extraction.CleanAmountAppend | app.py:186-187 | cleaning a concatenation is cleaning each part, in turn: the surviving characters keep their order |
| Extraction.CleanAmountOne | app.py:186-187 | one character survives cleaning exactly when it is a digit, `.` or `-` |
| Extraction.CandidateChecks | app.py:160-214 | an accepted match has a date token, no skip keyword in its trimmed description, no credit marker, an amount that parses to a positive value, and a collapsed description of at least 3 characters |
| Extraction.CandidateAccepts | app.py:160-214 | a match that passes every check is accepted, with the trimmed date, the collapsed description and the parsed amount |
| Extraction.CandidateRejects | app.py:164-202 | a match that fails any one check is rejected |
| Extraction.AltOnly | app.py:152 | the second pattern's matches kept are exactly those not among the first pattern's |
| Extraction.AltOnlyAppend | app.py:152 | the comprehension over a concatenation is the comprehension over each part, in turn: the kept matches stay in the second pattern's order |
| Extraction.AltOnlyOne | app.py:152 | one match is kept exactly when the first pattern did not find it |
| Extraction.MergeMatches | app.py:152 | the first pattern's matches come first and in order; the result holds exactly the matches of either pattern; the tail holds none of the first |
| Extraction.AcceptedFrom | app.py:156-214 | a transaction is emitted exactly when some match yields it |
| Extraction.AcceptedAppend | app.py:156-214 | the chain over two lists is the chain over each, concatenated |
| Extraction.Dedup | app.py:204-208 | the seen-set keeps the first occurrences: no repeats, the same members, and no longer |
| Extraction.DedupSnoc | app.py:204-208 | a transaction is appended exactly when it has not been seen |
| Extraction.DedupDistinct | app.py:204-208 | a list without repeats passes the seen-set unchanged |
| Extraction.FilterBy | app.py:154-216 | the loop emits the first occurrence of every transaction the check accepts, in order |
| Extraction.FilterMatches | app.py:154-216 | the filter pass over the merged matches, as a loop |
| Extraction.FilterPassOutput | app.py:156-214 | every emitted transaction comes from a match, has a positive amount, a collapsed description of at least 3 characters, and a date token |
| ExtractionExamples.SkipCheckedBeforeCollapse | app.py:173-198 | the match (`01-Jan-24`, `Total  Amount`, `10.00`) is accepted, and its emitted description contains the skip keyword `total amount` |
| AmountToken.RunEnd | app.py:233 | the greedy `[\d,]+` run from a position, which stops at a character that is neither |
| AmountToken.LastDigitPair | app.py:233 | the end of the token found is a pair of digits, at least three characters in |
| AmountToken.AmountAt | app.py:233 | a token found at a position matches `[\d,]+\.?\d{2}` |
| AmountToken.AmountAtLongest | app.py:233 | whenever a token matches at a position, one is found there and it is at least as long (backtracking from the greedy run) |
| AmountToken.AmountSearch | app.py:233 | `re.search` finds a token at the leftmost position where one matches |
| AmountToken.AmountSearchLeftmost | app.py:233 | when any token occurs in the line, the search finds one that starts no later |
| AmountToken.AmountParses | app.py:233-239 | a token with its commas dropped always parses as a float |
| LineScan.ScanLineStages | app.py:223-236 | a line that yields a transaction has a date token and an amount token, and the entry is built from them |
| LineScan.LineEntryChecks | app.py:235-245 | an emitted line has the date token as its date, the trimmed text before the amount (more than 3 characters) as its description, a positive amount, and no `CR` anywhere in the line |
| LineScan.LineEntryKeeps | app.py:237-245 | a line with a long enough description and no `CR` is emitted exactly when its amount is positive |
| LineScan.DatePrefix | app.py:229-231 | the date kept is itself a whole date token |
| LineScan.ScanBy | app.py:223-247 | the line loop emits, in order, every line the check accepts |
| LineScan.ScanLines | app.py:219-247 | the line scan over the text split at newlines |
| LineScan.ScanKeepsRepeats | app.py:223-247 | unlike the filter pass, the line scan keeps a repeated line twice |
| LineScan.ExtractExpenses | app.py:148-247 | the filter pass's result when it is non-empty, otherwise the line scan's |
| LineScan.ExtractOutput | app.py:148-247 | every extracted transaction has a positive amount, a description of at least 3 characters and a date token |
| Reply.RemoveMarker | app.py:400-401 | removing the fence markers never lengthens the text |
| Reply.StripFences | app.py:400-401 | the fence-free reply is no longer than the reply |
| Reply.NoBacktickUnchanged | app.py:400-401 | a reply without a backtick is not changed by the fence removal |
| Reply.ShallowEnd | app.py:403 | the end of a match of `[^{}]*(?:\{[^{}]*\}[^{}]*)*\}` is a closing brace |
| Reply.ShallowAt | app.py:403 | a match found at a position starts with `{` and ends with `}` |
| Reply.BraceSearch | app.py:403 | the search returns a match of the object pattern |
| Reply.BraceSearchLeftmost | app.py:403 | no match starts before the one returned; when none is returned, none exists |
| Reply.PairMatches | app.py:403 | a `{` followed later by a `}` always yields a match at or after the `{` |
| Reply.SearchFailsNoClose | app.py:403-407 | when the object pattern finds nothing, no `}` follows any `{` |
| Reply.FirstBalance | app.py:411-420 | the stopping point of the depth scan brings the brace depth back to zero |
| Reply.FirstBalanceFirst | app.py:411-420 | the depth is non-zero at every point before the stopping point |
| Reply.BraceSpanShape | app.py:407-422 | when the depth returns to zero, the span runs from the first `{` to the `}` that closes it, with positive depth in between |
| Reply.FallbackUnchanged | app.py:403-422 | when the object pattern finds nothing, the depth scan leaves the text unchanged |
| Reply.ScanBraces | app.py:407-422 | the brace-counting loop computes the span |
| Reply.JsonTextCases | app.py:395-422 | the text passed to the decoder is the first object-pattern match (starts with `{`, ends with `}`), or else the fence-free reply |
| Reply.ExtractJsonText | app.py:395-422 | the cleanup, as statements |
| Batch.ClassifySingle | app.py:265-324 | the single-item label is a listed category; a failed request gives `Other`; a reply naming a category exactly gives that category |
| Batch.EffectiveBatchSize | app.py:331-334 | above 200 expenses the batch size is 50, otherwise the requested size |
| Batch.StartsCount | app.py:337-340 | there are ⌈n / b⌉ batches |
| Batch.StartsSteps | app.py:340 | batches start at 0 and step by b, all below n, and the last reaches n |
| Batch.StartsAt | app.py:340 | batch j starts at j times the batch size |
| Batch.StartsWithin | app.py:340 | every batch start is below n |
| Batch.BatchOf | app.py:340-343 | every index lies in some batch |
| Batch.StartsDisjoint | app.py:340-343 | no index lies in two batches |
| Batch.KeyLabel | app.py:428-441 | the label for key `str(i+1)` is listed; it is `Other` when the key is missing, and the batch matcher's reading of the value otherwise |
| Batch.ParsedReply | app.py:394-453 | a failed request gives the fallback; a decoded object is used unless a value the loop reaches is not a string (which raises and gives the fallback) |
| Batch.RequestsAnswer | app.py:313-324 | every label the service produces, batched or single, is a listed category |
| Batch.SinglesAt | app.py:446-453 | the fallback gives each index its own single-item label |
| Batch.SpreadAt | app.py:427-442 | a read reply gives each position its own key's label |
| Batch.BatchLabels | app.py:340-453 | one label per expense of the batch |
| Batch.BatchLabelsAt | app.py:427-453 | each position's label comes from the reply when it was read, from its own single request otherwise |
| Batch.BatchLabelsCategories | app.py:427-453 | every label of a batch is listed |
| Batch.LabelsFromStep | app.py:340-343 | the labels are the first batch's labels followed by the rest's |
| Batch.LabelsFromLength | app.py:340-343 | there is one label per remaining expense |
| Batch.LabelsFromAt | app.py:340-453 | the label of an index is the label its own batch gave it |
| Batch.LabelsFromCategories | app.py:340-453 | every label is listed |
| Batch.Labels | app.py:326-455 | one label per expense |
| Batch.LabelsCategories | app.py:326-455 | with a service whose labels are listed, every expense's label is listed |
| Batch.LabelInBatch | app.py:340-453 | the label of index i in batch j is the reply's label for position i - start, or its single-item label |
| Batch.LabelOfIndex | app.py:340-453 | the same, for the labels the batch loop produces |
| Batch.NextBatch | app.py:340-453 | one trip of the batch loop stores the next batch's labels after those of the batches before it, and the stored keys are exactly the indices labelled so far |
| Batch.Store | app.py:442-453 | writing a batch's labels sets exactly its indices and keeps all others |
| Batch.SendBatch | app.py:340-453 | one batch's labels, computed by the loops |
| Batch.LabelBatches | app.py:336-455 | the keys are exactly 0 to n-1, each holding its batch's label |
| Batch.CategorizeBatch | app.py:326-455 | an empty list gives `{}`; otherwise the keys are exactly 0 to n-1, each with its batch's label; with a service whose labels are listed, every label is listed |
| Buckets.Slot | app.py:518 | the row of a category when the table has one; otherwise no row has that name |
| Buckets.FoldSnoc | app.py:518-519 | adding one more expense adds it to the table built so far |
| Buckets.FoldAppend | app.py:518-547 | accumulating two lists is accumulating the first, then the second on top |
| Buckets.FoldRows | app.py:518-547 | the table has one row per category in first-seen order, holding that category's transactions in order and their sum |
| Buckets.AddRows | app.py:518-519 | one addition keeps that description of the table |
| Buckets.FirstSeenDistinct | app.py:480 | first-seen names do not repeat |
| Buckets.FirstSeenMembers | app.py:480 | a category is in the table exactly when some expense was labelled with it |
| Buckets.FoldDistinct | app.py:480 | the table's keys are distinct |
| Buckets.AddAccounts | app.py:518-519 | one addition raises the sum of totals by its amount and the count by one |
| Buckets.FoldAccounts | app.py:518-547 | the table's totals add up to the sum of the amounts added, and its rows hold every transaction added |
| Buckets.Insert | app.py:561 | inserting a row is a permutation of the row plus the table |
| Buckets.SortByTotal | app.py:561 | the sorted table is a permutation of the table |
| Buckets.SortDescending | app.py:561 | totals descend |
| Buckets.SortStable | app.py:561 | rows with equal totals keep their relative order |
| Buckets.SortMembers | app.py:561 | a row is in the sorted table exactly when it is in the table |
| Buckets.SortDistinct | app.py:561 | sorting keeps the keys distinct |
| Buckets.CountSort | app.py:561 | sorting keeps every transaction |
| Buckets.SortedOrder | app.py:559-561 | the result's categories descend by total, have distinct names, and ties keep first-seen order |
| Buckets.SortedContents | app.py:559-561 | every row holds exactly its category's transactions and their sum, and every category seen has a row |
| Process.Truncate | app.py:472-474 | the list is cut to its first 300 expenses |
| Process.ScanKeywords | app.py:516-521 | the loop over the keyword table finds the first keyword that occurs |
| Process.KeywordPass | app.py:480-525 | the loop builds the keyword table and the list of unmatched expenses |
| Process.AddBatch | app.py:532-535 | adding each expense under its label, `Other` when the map has none |
| Process.GotAll | app.py:533 | when every index has a label, `.get(i, 'Other')` reads exactly those labels |
| Process.ClassifierMap | app.py:531-546 | the labels read back from the batch map are the batch function's labels |
| Process.ProcessStatement | app.py:457-567 | the statement's summary, computed from the extraction inputs |
| Process.ProcessExpenses | app.py:464-567 | empty input gives the empty summary; otherwise the summary of the labelled, truncated expenses |
| Process.KeywordPartition | app.py:512-525 | a matched expense carries its keyword label, an unmatched one matches no keyword, and the two lists split the expenses' count and their sum |
| Process.KeywordSplit | app.py:512-525 | the matched and the unmatched expenses together are exactly the expenses, as a multiset |
| Process.KeywordPassAppend | app.py:512-525 | the pass over a concatenation is the pass over each part, in turn: both lists keep input order |
| Process.KeywordPassOne | app.py:512-525 | one expense goes to the table with its keyword label when a keyword occurs, and to the unmatched list otherwise |
| Process.EntriesAccount | app.py:472-557 | the labelled expenses are exactly the truncated ones, as a multiset, with the same count and sum; a short list keeps its order, a long one lists the keyword matches, then the unmatched, each in input order |
| Process.StatementTotals | app.py:559-564 | `total_expenses` is the sum of the truncated amounts; `total_transactions` is their count, at most 300, and equals the number of transactions in the categories |
| Process.StatementRows | app.py:480-561 | the categories descend by total, are distinct, keep first-seen order on ties, and each holds exactly its transactions and their sum |
| Process.StatementCategories | app.py:480-561 | with a service whose labels are listed, every category in the result is a listed category |
| Process.KeywordEntriesCategories | app.py:485-525 | every label the keyword pass gives is a listed category |
| Process.ClassifiedCategories | app.py:531-546 | with a service whose labels are listed, every label the classifier gives the unmatched expenses is listed |
| Process.ServiceCategories | app.py:480-561 | for any classification service, every category in the result is a listed category |
| Process.EntriesCategories | app.py:512-547 | with such a service, every label an expense receives is listed |

## Left out

- Reading the PDF (app.py:114-126) is not modelled: the text and the two patterns' `findall` matches are inputs of `Process.ProcessStatement`. The regular expressions of app.py:131-145 are not modelled either. The patterns used inside the filter chain, the line scan, `clean_description` and the reply cleanup are modelled.
- The `len(match) < 3` guard (app.py:157) is left out: a three-group `findall` always yields triples.
- HTTP requests, prompts, API keys, time-outs and `response.json()` are replaced by the `Batch.Service` oracle. `json.loads` is the oracle's `parse`, which returns only objects and string or other values.
- `print`, the Flask routes, the Excel export and passenger_wsgi.py are not part of this model.
- Python floats are modelled as exact reals. Rounding in `float()` and in the running totals is not modelled, so the accounting lemmas hold over the reals.
- `float()` is modelled on unsigned decimal text, optionally with a leading `-`. Exponents, `inf`, `nan` and underscores are not modelled. No amount that reaches `float` in this code can contain them.
- Case is modelled on ASCII letters only. `Text.Lower`, `Text.Upper` and the `re.IGNORECASE` test of `Normalize.TagAt` leave every other character alone, so Unicode case mapping and folding are not modelled: Python also matches `ı` against `I` and `ſ` against `S` under `re.IGNORECASE`, and lower-cases non-ASCII capitals before the keyword search.
- Whitespace for `strip`, `split` and `\s` follows Python's `str.isspace` set (`Text.IsSpace`), Unicode spaces included.
- Digits are ASCII only (`Text.IsDigit`). In Python, `\d` (app.py:182, 186, 233) and `float()` also accept the other Unicode decimal digits, such as Arabic-Indic digits. The model rejects such dates and drops such digits from amounts in `Extraction.KeepNumberChars`.
- Descriptions pass through `clean_description` once, when the batch list is built. The single-item fallback at app.py:447 cleans the raw description itself (app.py:267), so both paths send the service the same text. The service oracle also receives the index, so repeated requests for one description may get different replies.
- `uncategorized_indices` (app.py:482, 525) is built but never read, so it is not modelled.
- Extraction.FilterPassOutput: the absence of skip keywords is stated on the trimmed description before whitespace collapse (`Extraction.CandidateChecks`), not on the emitted description, because the code checks them there; `ExtractionExamples.SkipCheckedBeforeCollapse` shows an emitted description that contains one.
- Buckets.SortByTotal: the permutation is stated on rows (a multiset of rows). For the transactions themselves, the count is stated with the per-row contents (`Buckets.CountSort`, `Buckets.SortedContents`), not as a multiset of transactions.
- Batch.CategorizeBatch: requires a batch size of at least 1. The code is only called with 50, and `range(0, n, 0)` raises.
