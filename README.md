# kivi-backend: the order fulfilment and reconciliation engine, in Dafny

kivi-backend is the Flask back end of a fresh-produce business. Customers'
orders are collected as order lines (often parsed from free text), the
produce is bought from vendors, each purchase is reconciled against the
lines it serves, the customers are charged, and payments are applied to the
charges. This project models the engine behind that workflow over an
in-memory database and proves properties of the model:

- **Purchase reconciliation** (`purchases.dfy`, `purchase_rules.dfy`):
  `create_purchase` with its validation, its completeness guard, the
  surplus inventory lot, allocation to the named customers' lines, the
  auto-complete stage, the unit/kilogram ratio, and the projection of
  `charged_qty` onto the order lines and their charges.
- **Payments** (`payments.dfy`, `payment_split.dfy`): explicit payment
  applications, and the integer largest-remainder split of a rounded amount
  over the pending charges' dues, followed by marking charges paid.
- **Accounting** (`accounting.dfy`): the per-order and per-customer
  roll-ups. Billed, cost, profit and due amounts; the purchase verdict
  (incomplete, complete, over); bought and missing tags.
- **Order lifecycle** (`orders.dfy`, `pricing.dfy`, `charges.dfy`): the
  draft, adding items with skip reasons, confirming with one charge per
  line, immediate charges on emitted orders, deleting a line, the
  aggregation in the order detail, the price resolution (sale price, tier,
  catalog), and charge creation and excess reassignment.
- **Text helpers** (`text.dfy`, `parser.dfy`, `text_match.dfy`): the free-text
  order parser, the fuzzy matcher with its two-row Levenshtein DP, and
  product suggestion scoring in `products.dfy`.
- **Secondary handlers**: product creation and update (`products.dfy`),
  the KPI overview (`kpis.dfy`), merchant orders and their token
  (`merchant.dfy`), vendor prices (`vendors.dfy`), and the price reports
  (`prices.dfy`).

The database is one `Store` class (`store.dfy`). It holds a table per model,
and each table is a map from id to record together with the next id
(`Tables.Table`). Records are datatypes (`records.dfy`). Handlers that write
are methods on the store with field-granular `modifies` frames. Each is
proved equal to a pure function of the old tables, and the properties are
lemmas about those functions. Read-only handlers are pure functions.
Quantities and money are `real`; the payment splitter's shares are `int`.
A nullable number is an `Option<real>`. A nullable text is a `string`,
where "" stands for None; Python's `or` treats both alike. The clock,
today's date and the request timestamp are parameters.

Where the code and its documentation disagree, the model follows the code:

- a confirmed order gets the status `"emitido"`;
- explicit payment applications are recorded as given, not capped at the
  amount due;
- the accounting order roll-up bills the lines' `sale_unit_price`, not
  their charges.

Six places where the code as written goes wrong are listed under
"## Findings". For each, one member models the code as written and exhibits
the failure, and the handler runs the corrected version. Among them: a
vendor price in a unit other than `kg` and `unit` stores its cost in
neither column, and the KPI overview queries `Order.date`, a column the
order model does not have. `create_purchase` commits in stages and swallows
an exception in a stage; the model runs every stage to completion (see
"## Left out").

## Model

| member | source | states |
|---|---|---|
| Tables.Insert | app/api/orders.py:30-31 | an insert stores the record under the next id, which was free, and keeps a table's ids below its counter |
| Tables.Update | app/api/orders.py:32 | an update of an existing row keeps the same set of ids and keeps the table well formed |
| Tables.Remove | app/api/orders.py:496-501 | a delete removes exactly that id and keeps every other row as it was; the model's counter does not move back, so the id is not handed out again (SQLite reuses it, see Left out) |
| Tables.InsertAll | app/api/merchant_orders.py:96 | inserting records one after the other moves the counter by their number and keeps the table well formed |
| Tables.InsertAllRows | app/api/merchant_orders.py:96 | the inserted records sit at the ids the counter had, in order, and every earlier row is unchanged |
| Tables.SelectExact | app/api/accounting.py:48 | a filtered query returns exactly the stored ids whose record matches |
| Tables.SelectIncreasing | app/api/accounting.py:48 | the ids of a filtered query come in strictly increasing order, so none repeats |
| Tables.SelectFirst | app/api/orders.py:27 | the first id of a filtered query is the smallest matching one, and the query is empty exactly when no stored record matches |
| Tables.Where | app/api/accounting.py:48-51 | `filter(...).all()` returns one matching record per selected id, in id order |
| Tables.SumBelowFrame | app/api/purchases.py:59 | records stored at or above an id do not change a sum over the ids below it |
| Common.SortDesc | app/api/payments.py:85 | `sorted(..., reverse=True)` returns a permutation of its input ordered by descending key |
| Common.SortDescStable | app/api/payments.py:85 | the sort is stable: for every key value, the elements with that key come out in the order they went in |
| Common.KeysOfExact | app/api/orders.py:66-68 | the keys of a dictionary filled by walking a list occur once each, and are exactly the keys of the list's elements |
| Common.TallyExact | app/api/orders.py:66-68 | a dictionary filled with `d[k] = d.get(k, 0) + v` has an entry exactly for each key that occurs, holding the sum of that key's values |
| Common.TallyAddsUp | app/api/orders.py:66-68 | the dictionary's values, taken in its key order, add up to the sum over every element |
| Common.GroupSum | app/api/accounting.py:209-214 | grouping by key and adding the groups' sums gives the sum over everything |
| Common.SumOfPermutation | app/api/payments.py:85 | reordering the terms of a sum does not change it |
| Text.LStrip | app/services/order_parser.py:27 | the result is a suffix of the text that does not start with whitespace, and everything cut off is whitespace |
| Text.RStrip | app/services/order_parser.py:29 | the result is a prefix of the text that does not end with whitespace, and everything cut off is whitespace |
| Text.Strip | app/utils/text_match.py:7 | the result is stripped and no longer than the text, and a stripped text is kept as it is |
| Text.StripIdempotent | app/utils/text_match.py:7 | stripping twice is stripping once |
| Text.BlankIsAllSpace | app/api/purchases.py:83-85 | a text strips to nothing exactly when it is all whitespace |
| Text.Lower | app/utils/text_match.py:7 | lower-casing keeps the length and maps each character on its own |
| Text.WordLength | app/utils/text_match.py:10 | the first word holds no whitespace and ends at whitespace or the end of the text |
| Text.WordsAreWords | app/utils/text_match.py:10 | every word `split()` gives is non-empty and holds no whitespace |
| Text.JoinSingleSpaced | app/utils/text_match.py:10 | joining such words with single spaces gives a single-spaced text, non-empty when there is a word |
| Text.CollapseSpaces | app/utils/text_match.py:10 | `' '.join(s.split())` is single-spaced and stripped |
| Text.ContainsFrom | app/utils/text_match.py:41 | the search from `i` succeeds exactly when the needle occurs at some position from `i` on |
| Text.Substring | app/utils/text_match.py:41 | `in` on strings holds exactly when the needle occurs somewhere in the text |
| Text.SplitOn | app/api/purchases.py:142 | `split(",")` gives at least one part, no part holds the separator, and every character of a part comes from the text |
| Text.NatToString | app/api/orders.py:32 | an id renders as a non-empty run of decimal digits |
| Text.DigitsOnly | app/api/merchant_orders.py:30 | dropping the underscores `int()` accepts between digits leaves only digits |
| Text.DecimalOfNat | app/api/orders.py:32 | the rendered digits read back as the id |
| Text.PlainDigits | app/api/merchant_orders.py:30 | `int()` of a run of digits is its decimal value |
| Text.ParseGroupedBody | app/api/merchant_orders.py:30 | `int()` of a stripped, unsigned, underscore-grouped numeral is the value of its digits |
| Text.ParseIntOfNat | app/api/merchant_orders.py:30 | `int()` reads a rendered id back exactly |
| Text.RemoveAll | app/api/merchant_orders.py:30 | `replace(pat, "")` never makes a text longer |
| Text.RemoveAllLeading | app/api/merchant_orders.py:30 | a leading occurrence of the pattern is removed |
| Text.RemoveAllKeeps | app/api/merchant_orders.py:30 | a prefix that cannot start the pattern is kept as it is |
| TextMatch.DropMarks | app/utils/text_match.py:8-9 | removing the combining marks after decomposition never produces an upper-case letter from a lower-case text, and leaves a lower-case text plain |
| TextMatch.DropMarksPlain | app/utils/text_match.py:8-9 | a plain text keeps its characters through decomposition and mark removal |
| TextMatch.WordsFrom | app/utils/text_match.py:10 | every character of a word `split()` gives comes from the text |
| TextMatch.CollapseFrom | app/utils/text_match.py:10 | every character of the collapsed text is a space or comes from the text |
| TextMatch.WordsOfJoin | app/utils/text_match.py:10 | splitting words joined by single spaces gives the words back |
| TextMatch.CollapseIdempotent | app/utils/text_match.py:10 | collapsing whitespace twice is collapsing it once |
| TextMatch.NormalizeText | app/utils/text_match.py:4-10 | the empty text normalises to empty; a normalised text is stripped, single-spaced and plain: lower-case, without combining marks |
| TextMatch.NormalizeIdempotent | app/utils/text_match.py:4-10 | normalising a normalised text changes nothing |
| TextMatch.Min3 | app/utils/text_match.py:25-29 | the minimum is at most each argument and equal to one of them |
| TextMatch.LevZero | app/utils/text_match.py:13-31 | the edit distance is zero exactly for equal strings |
| TextMatch.DistSymmetric | app/utils/text_match.py:20-31 | the distance between prefixes is the same read either way |
| TextMatch.LevSymmetric | app/utils/text_match.py:13-31 | the edit distance is symmetric |
| TextMatch.DistAtMostLonger | app/utils/text_match.py:20-31 | the distance between prefixes is at most the longer prefix's length |
| TextMatch.DistAtLeastGap | app/utils/text_match.py:20-31 | the distance between prefixes is at least the difference of their lengths |
| TextMatch.LevBounds | app/utils/text_match.py:13-31 | the edit distance lies between the difference of the lengths and the longer length |
| TextMatch.DistStep | app/utils/text_match.py:24-29 | each cell is the least of insertion, deletion and substitution (free for equal characters) |
| TextMatch.Levenshtein | app/utils/text_match.py:13-31 | the row-by-row loop returns exactly the edit distance, including the shortcuts for equal and empty strings |
| TextMatch.NextRow | app/utils/text_match.py:22-30 | from the row of the previous prefix of `a`, the inner loop builds the row of the next one |
| TextMatch.Singularize | app/utils/text_match.py:44-54 | a token shorter than 3 or "hass" is kept; otherwise at most the final "es" (tokens over 4 characters) or "s" (over 3) is cut, never below 3 characters |
| TextMatch.Trunc | app/utils/text_match.py:71 | `int()` of a non-negative number is its integer part |
| TextMatch.TokenScore | app/utils/text_match.py:56-68 | the token stage scores 85, 75 or nothing |
| TextMatch.SimilarityScore | app/utils/text_match.py:34-72 | the score lies between 0 and 100, and is 100 exactly when both texts normalise to the same non-empty text |
| TextMatch.EditScoreBelow | app/utils/text_match.py:69-72 | for different texts the edit-distance score lies in 0..99 |
| TextMatch.ScoreEmpty | app/utils/text_match.py:37-38 | a text that normalises to nothing scores 0 |
| TextMatch.ScoreContained | app/utils/text_match.py:41-42 | a query contained in a different target scores 90, or 80 when shorter than 3 characters |
| Orders.LatestDraft | app/api/orders.py:27 | none exactly when no order is a draft; otherwise a stored draft with the largest id among the drafts |
| Orders.DraftFor | app/api/orders.py:26-34 | the latest draft and the orders unchanged when there is one; otherwise a new draft under the next id, titled with its id and today's date, which is then the latest draft |
| Orders.GetDraft | app/api/orders.py:26-34 | an existing draft, or a call without `create`, returns the latest draft (if any) and changes nothing; with none and `create`, the new draft is stored and returned |
| Orders.CustomerNamedExact | app/api/orders.py:253 | the customer found has that name and the smallest id among those who do; none exactly when nobody has the name |
| Orders.EnsureCustomer | app/api/orders.py:253-255 | either nothing changes or exactly one customer is added |
| Orders.EnsureCustomerExact | app/api/orders.py:253-255 | the customer returned is stored and has the name; nothing is added exactly when some customer already had the name |
| Orders.FindProductExact | app/api/orders.py:259 | with a non-zero id the product is that id when stored and none otherwise; without one a product is found exactly when some name matches once ASCII capitals are folded, as SQLite's `ilike` compares, and the one found matches |
| Orders.SameNameAsciiOnly | app/api/orders.py:259 | `ilike` on SQLite folds only ASCII capitals: `Tomate` matches `tomate`, `Ñame` does not match `ñame` |
| Text.AsciiLowerAgrees | app/api/orders.py:169 | SQLite's `lower()` leaves every non-ASCII character as it is and agrees with Python's `str.lower` on ASCII text |
| Orders.CreateProduct | app/api/orders.py:178-210 | called only with a name no stored product has (the unique `name` column refuses any other); the new product is stored and customers, lines and charges are untouched |
| Orders.CreateProductPriced | app/api/orders.py:178-210 | the product takes the next id with the given name and unit, has a catalog sale price, a `kivi` variant and a tier from one unit at the sale price for that variant |
| Orders.NewLine | app/api/orders.py:288 | the line belongs to the order it is added to |
| Orders.NewLineUnits | app/api/orders.py:280-288 | the line keeps customer, product, quantity, unit (else "kg") and fixed price; the charged unit is the requested one, else the product's default, else the line's unit; the charged quantity is the requested one only when the units differ, else none; a zero variant id is none |
| Orders.LineCharge | app/api/orders.py:465-479 | the charge is a fresh pending charge of the order pointing at the line |
| Orders.Resolve | app/api/orders.py:249-277 | resolving never touches lines or charges, and a resolved product is stored |
| Orders.ClashReason | app/api/orders.py:178-180 | a line that would create a product under a name already stored fails, because the flushed insert violates the unique `name` column; only a line giving a product id that is not stored gets there, and a line none of the failures apply to is resolved |
| Orders.ResolveKeepsNamesUnique | app/models/product.py:10 | resolving a line never stores a second product with a name already stored |
| Orders.AddItemsKeepsNamesUnique | app/models/product.py:10 | adding any lines keeps product names unique |
| Orders.ConflictNeedsStaleId | app/api/orders.py:266-273 | a request runs into a stored name only through a line whose product id is non-zero and not stored |
| Orders.ProductsOnlyGrow | app/api/orders.py:266-273 | adding lines never removes a product |
| Orders.SkipReasons | app/api/orders.py:249-277 | each skip reason holds exactly under its condition, checked in order: missing customer; unresolved product; missing sale price; empty product name |
| Orders.Append | app/api/orders.py:421-479 | appending keeps the outcome valid: one new line of the order, and one new charge for it only on an emitted order |
| Orders.EmittedChargePriced | app/api/orders.py:437-479 | on an emitted order the new charge carries the line's customer, product, quantity, charged quantity and charged unit, priced by the fixed price, else the tier ladder, else the catalog |
| Orders.AddItem | app/api/orders.py:247-289 | a submitted line is either stored or skipped with its line index (else its position) and the reason resolution gives |
| Orders.AddItems | app/api/orders.py:245-289 | every submitted line is counted once: inserted plus skipped is the number submitted |
| Orders.Counted | app/api/orders.py:251-289 | one more line adds exactly one to inserted plus skipped |
| Orders.AddItemsLines | app/api/orders.py:245-289 | adding lines appends exactly `inserted` new lines, all of this order, and leaves every existing line as it was |
| Orders.AddItemsCharges | app/api/orders.py:437-479 | on an order that is not emitted the charges are untouched; on an emitted one exactly one fresh charge is added per inserted line, pointing at it |
| Orders.RunItems | app/api/orders.py:245-289 | the counting loop computes exactly the tables, inserted count and skipped entries of the whole fold |
| Orders.InsertItems | app/api/orders.py:245-291 | the store afterwards holds the tables of the fold, with its counts returned; when a line ran into a stored product name the request fails and every table is as it was |
| Orders.AddItemsToCurrentDraft | app/api/orders.py:240-292 | lines go to the current draft (created and committed if needed) and are never charged; a name conflict fails the request and leaves every table but the draft's as it was; the 500 on an unreadable number is not modelled (see Left out) |
| Orders.AddItemsToOrder | app/api/orders.py:358-484 | an unknown order is not found and changes nothing; a name conflict fails the request and changes nothing; otherwise the lines are added, charged at once exactly when the order is emitted; the 500 on an unreadable number is not modelled (see Left out) |
| Orders.HasChargesExact | app/api/orders.py:300 | the check for existing charges holds exactly when some stored charge belongs to the order |
| Orders.ConfirmCharge | app/api/orders.py:305-340 | the confirm charge is a fresh pending charge of the order for the line, carrying its customer, product and quantity, in its charged unit, else its unit, else "kg" |
| Orders.ConfirmCharges | app/api/orders.py:303-340 | one charge per line |
| Orders.ConfirmChargesShape | app/api/orders.py:303-340 | the `i`-th charge is the fresh charge of the `i`-th line |
| Orders.LinesOf | app/api/orders.py:302 | exactly the stored lines of the order |
| Orders.ConfirmOnce | app/api/orders.py:300-301 | once an order with lines is confirmed it has charges, and confirming again generates nothing |
| Orders.ConfirmAddsOnePerLine | app/api/orders.py:300-341 | an order with charges keeps them as they are; otherwise one fresh charge per line is added in line order at the next ids |
| Orders.GenerateCharges | app/api/orders.py:303-341 | the loop inserts exactly the confirm charges of the lines, in line order |
| Orders.ConfirmDraft | app/api/orders.py:295-344 | the current draft (created if there is none) is marked "emitido" and its charges are generated only if it had none |
| Orders.WithoutLine | app/api/orders.py:496-498 | exactly the charges not pointing at the line remain, each unchanged |
| Orders.RemoveAll | app/api/orders.py:497-498 | exactly the given charges are gone and every other stays unchanged |
| Orders.DeleteOrderItem | app/api/orders.py:487-507 | succeeds exactly when the order exists and the line belongs to it; then the line and every charge of it are removed and nothing else; otherwise nothing changes |
| Orders.GroupAdd | app/api/orders.py:69 | a line's product gets a group and no other group appears |
| Orders.UnitTotalsProducts | app/api/orders.py:66-86 | exactly the products with a line have a group |
| Orders.UnitTotalsBuckets | app/api/orders.py:74-86 | every group has the "kg", "unit" and "g" buckets and a bucket for every unit its lines use |
| Orders.UnitTotalsQuantities | app/api/orders.py:83-86 | each bucket holds its product's ordered quantity in that unit, and a product and unit without a bucket have none |
| Orders.PurchasedByProductExact | app/api/orders.py:105-112 | one entry per purchased product, with its direct kilos and units and a gram bucket of zero; equivalent quantities are not counted |
| Orders.DetailTotalsAgree | app/api/orders.py:66-68 | the per-product totals and the per-customer totals each add up to the order's total ordered quantity |
| Orders.LineTotals | app/api/orders.py:66-88 | the loop over the lines builds exactly the per-product and per-customer tallies and the unit groups |
| Orders.PurchaseTotals | app/api/orders.py:105-112 | the loop over the purchases builds exactly the purchased totals |
| Orders.OrderDetail | app/api/orders.py:43-123 | not found exactly for an unknown order; otherwise the totals of its lines and purchases |
| OrderParser.DropZeroWidth | app/services/order_parser.py:25-26 | the result holds no zero-width character, and a text without any is kept as it is |
| OrderParser.DropBullets | app/services/order_parser.py:28 | the result is a suffix of the text that is empty or starts with neither a bullet nor whitespace |
| OrderParser.CleanLine | app/services/order_parser.py:22-29 | a cleaned line is stripped, holds no zero-width character and does not start with a bullet |
| OrderParser.CleanLineIdempotent | app/services/order_parser.py:22-29 | cleaning a cleaned line changes nothing |
| OrderParser.IndexFrom | app/services/order_parser.py:33 | the index found holds the character and no earlier index from the start does; none means the character does not occur |
| OrderParser.ExtractParenNotesNone | app/services/order_parser.py:33-35 | without a `(` that some `)` follows, the text comes back stripped with an empty note |
| OrderParser.ExtractParenNotesFirst | app/services/order_parser.py:33-38 | with the first `(` at `i` and the first `)` after it at `j`, the note is what lies between them, stripped, and the text is the rest with that span cut out, stripped |
| OrderParser.Synonym | app/services/order_parser.py:4-16 | every synonym stands for "kg", "unit" or "g" |
| OrderParser.RStripDots | app/services/order_parser.py:44 | the result is a prefix of the text not ending in a dot, and everything cut off is dots |
| OrderParser.NormUnitExact | app/services/order_parser.py:41-45 | a synonym in any letter case, with any trailing dots, normalises to the unit it stands for |
| OrderParser.DigitRun | app/services/order_parser.py:67 | the run found is all digits and is followed by a non-digit or the end |
| OrderParser.NumeralValue | app/services/order_parser.py:48-67 | a captured quantity always parses as a float once the comma becomes a point, so the 1.0 fallback never applies, and its value is never negative |
| OrderParser.UnitTextUnit | app/services/order_parser.py:41-67 | a captured unit word normalises to "kg", "unit" or "g" |
| OrderParser.SearchWitness | app/services/order_parser.py:67-90 | a match the backtracking search finds comes from one of the choices it tries |
| OrderParser.SearchAny | app/services/order_parser.py:67-90 | if some choice leads to a match, the search finds one |
| OrderParser.NextValid | app/services/order_parser.py:67-90 | every choice the engine offers keeps captured quantities numerals and captured units unit words |
| OrderParser.ExploreSound | app/services/order_parser.py:67-90 | every match found after valid choices is complete, valid and satisfies the pattern's `\b`, `$` and non-empty rest |
| OrderParser.MatchSound | app/services/order_parser.py:67-94 | whatever pattern matches, its line has a non-negative quantity and one of the three units |
| OrderParser.LeadingBareShadowed | app/services/order_parser.py:67-90 | whenever pattern 3 (a bare leading quantity) matches, pattern 1 matches too, so pattern 3 never decides a line |
| OrderParser.ShapeSound | app/services/order_parser.py:61-100 | every line shape, including the keyword and fallback cases, has a non-negative quantity and one of the three units |
| OrderParser.ParseLine | app/services/order_parser.py:55-59 | nothing exactly for a line that is empty once cleaned |
| OrderParser.ParseLineSound | app/services/order_parser.py:55-100 | a parsed line never has a negative quantity and is in kg, units or grams |
| OrderParser.LineLength | app/services/order_parser.py:107 | the first line holds no line boundary and ends at one or at the end of the text |
| OrderParser.SplitLines | app/services/order_parser.py:107 | no line holds a line boundary |
| OrderParser.ParseCleanLine | app/services/order_parser.py:116-118 | a cleaned line that is not empty always parses, so the `if not parsed` branch never drops a line |
| OrderParser.ClassifyBlank | app/services/order_parser.py:108-110 | a line is skipped as blank exactly when cleaning leaves nothing |
| OrderParser.ClassifyEntry | app/services/order_parser.py:108-121 | a line yields an item exactly when it is not blank once cleaned and is not a `pedido` header |
| OrderParser.OneMoreLine | app/services/order_parser.py:111-121 | one more line changes the current customer only when it is a header, and adds its item, if any, under the current customer with its line index |
| OrderParser.ReadLine | app/services/order_parser.py:108-118 | one line is read as its classification: blank, header or item |
| OrderParser.ParseOrdersText | app/services/order_parser.py:103-123 | the loop returns exactly the items of the classified lines of the text, in order |
| OrderParser.ItemsOfOrdered | app/services/order_parser.py:107-121 | each item comes from the line its index names, and the indexes strictly increase |
| OrderParser.ItemsOfComplete | app/services/order_parser.py:107-121 | every line that yields an item has its item in the result |
| Products.Overlap | app/api/products.py:41-45 | the word-overlap score lies in 0..60 and is 60 exactly for equal non-empty word sets |
| Products.OverlapCounts | app/api/products.py:43-44 | the shared words never outnumber all the words, and they are as many exactly when the sets are equal and non-empty |
| Products.Sixtieths | app/api/products.py:45 | `int(60 * inter / union)` lies in 0..60 and is 60 exactly when the counts are equal |
| Products.Score | app/api/products.py:35-45 | a product's score lies in 0..100 |
| Products.ScoreThreshold | app/api/products.py:35-48 | the score is 100 exactly when the query is the lower-cased name, and reaches the 60 cut-off exactly when the query occurs in the name or both have the same non-empty word set |
| Products.Scored | app/api/products.py:46-47 | every entry is a stored product with its name and its score, and every product has an entry |
| Products.Qualifying | app/api/products.py:48 | exactly the entries scoring at least 60 are kept |
| Products.QualifyingSorted | app/api/products.py:47-48 | filtering keeps the descending order |
| Products.Ranking | app/api/products.py:47-48 | the ranking is sorted by descending score and holds exactly the genuine entries scoring at least 60 |
| Products.RankedFromScored | app/api/products.py:47 | sorting neither adds nor drops an entry |
| Products.Take | app/api/products.py:48 | `[:n]` keeps the first `n` entries, or all when there are fewer |
| Products.TakeOutranks | app/api/products.py:48 | an entry left out of a full cut is outranked by every entry kept |
| Products.Suggest | app/api/products.py:30-48 | an empty query gets nothing; otherwise at most five genuine suggestions scoring at least 60, in descending score |
| Products.SuggestTakes | app/api/products.py:47-48 | the suggestions are the first five of the ranking |
| Products.SuggestComplete | app/api/products.py:47-48 | a product scoring at least 60 is left out only when five suggestions scoring at least as much are returned |
| Products.CreateAsWrittenNeverCreates | app/api/products.py:67-75 | as written no request creates a product or changes the tables; a valid one fails |
| Products.CreatePapa | app/api/products.py:51-106 | the request `{"name": "papa", "sale_price": 10}` fails as written and creates the product once the undefined columns are dropped |
| Orders.NameTakenExact | app/models/product.py:10 | a name counts as taken exactly when some stored product has it |
| Products.CreateExact | app/api/products.py:51-106 | a blank name and then a missing or non-positive price are rejected in that order and change nothing; a product is created exactly for a valid request with an unused name, under the next id, with its stripped name and unit, today's catalog price, and a `kivi` variant whose tier starts at one unit at that price |
| Products.CreateKeepsNamesUnique | app/api/products.py:67-77 | creating a product keeps product names unique |
| Products.TodayRow | app/api/products.py:133-136 | the row found is the first of the product's rows dated today; none exactly when there is none |
| Products.SetTodayPriceExact | app/api/products.py:133-150 | afterwards today's row (the existing one, else a new one under the next id) holds the price and unit, and every other row is unchanged |
| Products.SetTodayPriceIdempotent | app/api/products.py:133-150 | setting the same price for today twice is setting it once |
| Products.EditExact | app/api/products.py:109-155 | an unknown product is not found and nothing changes; otherwise only the product changes, its default unit replaced by a non-empty one; without a positive price the catalog is untouched, with one today's row carries it in the product's new unit and at most one row is added |
| Products.CreateProduct | app/api/products.py:51-106 | the tables afterwards and the answer are those of the corrected creation |
| Products.UpdateProduct | app/api/products.py:109-155 | the tables afterwards and the answer are those of the edit |
| Prices.PeriodOf | app/api/prices.py:129 | a missing period reads as "actual"; a given one is lower-cased, keeping its length |
| Prices.PeriodCutoff | app/api/prices.py:14-26 | a cutoff lies between a year and a week before today, and "actual" and "historica" have none |
| Prices.PeriodSpellings | app/api/prices.py:16-21 | the three spellings of a month cut off 30 days back, the three of a year 365 days, and "7d" 7 days |
| Prices.Mean | app/api/prices.py:146-163 | an average exists exactly when there are values |
| Prices.MeanBounds | app/api/prices.py:146 | the average of values within bounds lies within the same bounds |
| Prices.Present | app/api/prices.py:145 | exactly the present prices are kept |
| Prices.CompetitorValues | app/api/prices.py:140-145 | every value kept is the price of a competitor row of the product within the period |
| Prices.CompetitorAvgBounds | app/api/prices.py:140-146 | the competitor average lies within any bounds its rows in the period respect |
| Prices.CostsOf | app/api/prices.py:185 | one cost per row, in row order |
| Prices.AvgCostActual | app/api/prices.py:180-188 | for "actual" the cost is missing exactly when the product has no costed record, and otherwise is the cost of its last costed record |
| Prices.AvgCostBounds | app/api/prices.py:180-188 | for any other period the average cost lies within any bounds its costed rows in the period respect |
| Prices.Profit | app/api/prices.py:213-217 | a profit exists exactly when both the sale price and the cost do, and it is their difference |
| Prices.ScopeOf | app/api/prices.py:148 | a missing product or "all" selects every product |
| Prices.ScopeOfId | app/api/prices.py:166 | a rendered id selects that one product |
| Prices.CollectEmpty | app/api/prices.py:153-159 | nothing is collected exactly when no product has a value |
| Prices.CollectAll | app/api/prices.py:153-159 | when every product has a value, one value per product is collected |
| Prices.CatalogProductPriced | app/api/prices.py:149-157 | every product listed from the catalog has a latest sale price, so each one's price is collected |
| Prices.ProfitsEmpty | app/api/prices.py:202-209 | no profit is collected exactly when each product lacks a sale price or a cost |
| Prices.SaleVsCompetitor | app/api/prices.py:126-171 | the report fails exactly for a product argument that is neither "all" nor an integer |
| Prices.SaleAvgPresent | app/api/prices.py:148-163 | over all products the sale average is missing exactly when the catalog is empty |
| Prices.ProfitSummary | app/api/prices.py:174-218 | the report fails exactly for a product argument that is neither "all" nor an integer |
| Prices.CompareAllProducts | app/api/prices.py:149-159 | the loop collects exactly the products' latest sale prices and their competitor averages, where present |
| Prices.ProductProfit | app/api/prices.py:203-206 | one product has a profit exactly when it has a latest sale price and a cost for the period, and the profit plus the cost is the sale price |
| Prices.ProfitAllProducts | app/api/prices.py:199-206 | the loop collects exactly the profits of the products that have both |
| Pricing.Due | app/api/payments.py:62 | what a charge asks to be paid is `total - discount` floored at zero |
| Pricing.TierCandidates | app/api/orders.py:307-311 | the tiers offered are exactly the stored ones of the product and charged unit (and of the line's variant or of none), largest `min_qty` first |
| Pricing.CandidatesKept | app/api/orders.py:308-311 | ordering the tier query keeps exactly the applicable tiers |
| Pricing.FirstTierPrice | app/api/orders.py:312-315 | no price exactly when the quantity reaches no tier; otherwise the sale price of the first tier it reaches |
| Pricing.FirstTierIsHighestReached | app/api/orders.py:311-315 | on tiers ordered by `min_qty` descending, the first tier reached is the one with the highest `min_qty` the quantity reaches |
| Pricing.Latest | app/api/orders.py:318-320 | the catalog row chosen is one of the product's rows and no other row is dated later |
| Pricing.LatestSalePrice | app/api/orders.py:317-322 | no catalog price exactly when the product has no catalog row; otherwise the sale price of a latest-dated row |
| Pricing.LatestRowFound | app/api/orders.py:317-322 | the latest row among the product's listed rows is a latest row of the whole catalog for that product |
| Pricing.LinePrice | app/api/orders.py:305-322 | a positive fixed line price wins, else a positive tier price, else the latest catalog price, else 0 |
| Charges.LineOf | app/api/charges.py:49-56 | the order line is used exactly when the request names a stored line and brings no `charged_qty` of its own |
| Charges.NewCharge | app/api/charges.py:34-78 | the stored charge's total is its charged quantity (else its quantity) times the unit price with the discount kept apart; status defaults to `pending` and unit to `kg`; a named line supplies its charged quantity and its charged unit, else its unit |
| Charges.CreateCharge | app/api/charges.py:30-81 | the new charge is stored under the next id and no other table changes |
| Charges.MissingField | app/api/charges.py:94-97 | no field is reported exactly when order, product and customer ids, quantity, unit and unit price are all truthy; otherwise the first falsy one in the order checked |
| Charges.ExcessLine | app/api/charges.py:108-116 | the new line is charged in the quantity and unit it was requested in |
| Charges.ExcessCharge | app/api/charges.py:122-133 | the new charge is pending, points at the new line, has no discount and asks `qty * unit_price` |
| Charges.ReassignExcess | app/api/charges.py:86-142 | a falsy required field gives its 400 and changes nothing; otherwise the line and then its charge are stored under the next ids |
| Payments.ExplicitAppsExact | app/api/payments.py:43-51 | the explicit applications are exactly the entries whose charge exists and whose amount is positive, each for the amount asked, even above the charge's due |
| Payments.ExplicitStep | app/api/payments.py:44-53 | one more entry adds its application when it is recorded, and settles its charge exactly when it covers `max(0, total - discount)` |
| Payments.ExplicitMarkedDue | app/api/payments.py:52-53 | marking a charge paid leaves what it asks to be paid unchanged |
| Payments.ExplicitMarkedStep | app/api/payments.py:52-53 | one more entry marks its charge paid when it settles it and changes no other row |
| Payments.ApplyExplicit | app/api/payments.py:43-53 | the explicit loop inserts exactly the recorded entries, in order, and marks paid exactly the charges some recorded entry settles |
| Payments.CandidatesOfExact | app/api/payments.py:59-69 | one candidate per pending charge, in order, owing its due less what was applied to it before |
| Payments.Dues | app/api/payments.py:59-69 | the due loop yields each charge's remaining due and their total |
| Payments.Persist | app/api/payments.py:100-106 | the persisting loop inserts one application per share that gives something, for the lesser of share and due |
| Payments.AutoMarkedStep | app/api/payments.py:108-114 | one more charge is marked paid exactly when what is applied to it reaches a positive due, and nothing else changes |
| Payments.MarkPaidUp | app/api/payments.py:108-114 | after the status loop the listed charges that are paid up are marked paid and every other row is as it was |
| Payments.AutoAppsBounded | app/api/payments.py:56-106 | every automatic application is for a pending charge of the customer and order, is positive and is at most what that charge still owed |
| Payments.AutoAppsOnePerCharge | app/api/payments.py:75-106 | no charge gets two automatic applications |
| Payments.AutoAppsTotal | app/api/payments.py:70-106 | the automatic mode applies at most the rounded amount, and exactly that amount when the dues are whole and cover it |
| Payments.CreatePayment | app/api/payments.py:24-116 | a missing order id gives 400 and changes nothing; otherwise the payment is stored under the next id, with the explicit applications and paid marks when entries are given, else the split's applications and the paid-up marks |
| PaymentSplit.RoundHalfEven | app/api/payments.py:70 | `round` gives an integer within one half of the amount, and the even one on a tie |
| PaymentSplit.RoundWhole | app/api/payments.py:70 | a whole amount is rounded to itself |
| PaymentSplit.UnitsSum | app/api/payments.py:83 | the integer `distributed` equals the sum of the whole parts |
| PaymentSplit.FloorShares | app/api/payments.py:73-83 | the first loop yields one floor share per charge with something due, in charge order, and `distributed` is the sum of their whole parts |
| PaymentSplit.FloorShareOk | app/api/payments.py:79-81 | a charge's whole part is a non-negative integer at most its exact part `remaining * (due / total_due)`, and its fraction lies in [0, 1) |
| PaymentSplit.FirstSharesOk | app/api/payments.py:75-83 | every share of the first loop is well formed in that sense |
| PaymentSplit.FirstSharesFrom | app/api/payments.py:75-82 | every share of the first loop belongs to a candidate and carries its due |
| PaymentSplit.FirstSharesDue | app/api/payments.py:60-69 | the dues of the first shares add up to `total_due` |
| PaymentSplit.PartSumIs | app/api/payments.py:79 | the exact parts add up to `remaining * (sum of dues / total_due)` |
| PaymentSplit.FirstSharesRaw | app/api/payments.py:79-81 | each share's whole part plus fraction is exactly its proportional part |
| PaymentSplit.UnitsBelowRaw | app/api/payments.py:80 | whole parts never exceed the exact parts, summed |
| PaymentSplit.FloorsWithinAmount | app/api/payments.py:84 | the whole parts never exceed the amount, so the leftover before clamping is not negative |
| PaymentSplit.DistanceShrinks | app/api/payments.py:91-95 | passing a share without room brings the index one step nearer a share with room, which is what makes the corrected loop end |
| PaymentSplit.PassConserves | app/api/payments.py:88-95 | one pass keeps the shares in place, only grows a whole part within its due, and takes each unit handed out off the leftover |
| PaymentSplit.DistributeDone | app/api/payments.py:87-98 | the corrected leftover loop stops with everything conserved, and with the leftover spent or no share able to take another unit |
| PaymentSplit.DistributeLeftover | app/api/payments.py:86-98 | the round-robin loop computes the corrected leftover loop's result and stops in a conserved state for one of those two reasons |
| PaymentSplit.HalfDuesShares | app/api/payments.py:75-83 | two dues of 0.5 with an amount of 1 give floors of 0 and fractions of 0.5 |
| PaymentSplit.HalfSharesSorted | app/api/payments.py:85 | sorting equal fractions keeps their order, with no whole unit handed out |
| PaymentSplit.HalfSharesStuck | app/api/payments.py:90-97 | in that state no share has a whole unit of room and no due is covered, and two passes lead back to it |
| PaymentSplit.HalfDuesNeverExitAsWritten | app/api/payments.py:87-98 | with dues 0.5 and 0.5 and an amount of 1, the loop as written comes back to its starting state with a unit still left and its exit test false: it never ends |
| PaymentSplit.RoomOfWhole | app/api/payments.py:90 | with a whole due, a share has room exactly when it is below its due |
| PaymentSplit.NoRoomIffCovered | app/api/payments.py:97 | with whole dues, the exit test as written (every due covered) and the corrected one (no share has room) agree |
| PaymentSplit.ExactWithWholeDues | app/api/payments.py:87-98 | with whole dues, first shares within their dues and the amount within the total due, the leftover loop hands everything out and no share exceeds its due |
| PaymentSplit.FirstSharesDistinct | app/api/payments.py:75-82 | distinct charges give first shares of distinct charges |
| PaymentSplit.Split | app/api/payments.py:71-98 | the split the handler runs is the floors, sorted by fraction, then the corrected leftover loop; nothing when nothing is due or the amount is not positive |
| PaymentSplit.SplitFirst | app/api/payments.py:84-98 | clamping, sorting and the leftover loop, given the floors and their sum |
| PaymentSplit.SplitStages | app/api/payments.py:84-98 | the leftover loop starts from the sorted floors and exactly the units they leave |
| PaymentSplit.SplitNothing | app/api/payments.py:71 | nothing is split exactly when nothing is due, the amount is not positive or no charge owes anything |
| PaymentSplit.SplitFromCandidates | app/api/payments.py:75-98 | every final share belongs to a candidate and carries its due, one per charge when the charges are distinct |
| PaymentSplit.SplitWithinAmount | app/api/payments.py:70-98 | at most the rounded amount is handed out |
| PaymentSplit.SplitExact | app/api/payments.py:70-98 | with whole dues and an amount within the total due, exactly the amount is handed out and no charge gets more than its due |
| PaymentSplit.SplitSharesDistinct | app/api/payments.py:85-98 | sorting and the leftover loop keep the charges distinct |
| PaymentSplit.SplitWholeDues | app/api/payments.py:75-85 | with whole dues, the sorted floors are within their dues and their dues add up to the total due |
| PaymentSplit.AppliedBounded | app/api/payments.py:100-106 | each persisted application is positive, for `min(due, share)` of some share of its charge |
| PaymentSplit.AppliedDistinct | app/api/payments.py:100-106 | shares of distinct charges give at most one application per charge |
| PaymentSplit.AppliedSum | app/api/payments.py:100-106 | when every share is within its due, the applications add up to the shares |
| PaymentSplit.AppliedWithin | app/api/payments.py:100-106 | the applications add up to at most the shares |
| PurchaseRules.Validate | app/api/purchases.py:26-40 | a request passes the field checks exactly when the product id is truthy, the cost is a positive number and the charged unit is given; a missing product is the first complaint |
| PurchaseRules.NonBlankStrippedExact | app/api/purchases.py:140-142 | no kept name is blank, and nothing is kept exactly when every name is blank |
| PurchaseRules.CustomerListImpliesCustomers | app/api/purchases.py:80-87 | a non-empty customer list always satisfies the guard's reading of `customers` |
| PurchaseRules.SeparatorOnlyNamesNobody | app/api/purchases.py:85 | the text "," satisfies the guard yet names nobody for allocation |
| PurchaseRules.CompletesMonotone | app/api/purchases.py:78 | buying more never turns a complete purchase into an incomplete one |
| PurchaseRules.Surplus | app/api/purchases.py:120-123 | the surplus is never negative, is zero while the buys stay within the need, and is the excess of all buys over the need once it is reached |
| PurchaseRules.SurplusTelescopes | app/api/purchases.py:114-123 | over any sequence of buys for one order and product, the surplus lots add up to exactly the total bought beyond the need: nothing is counted twice |
| PurchaseRules.NoneIfZero | app/api/purchases.py:125 | `x or None` is None exactly for zero |
| PurchaseRules.SurplusLot | app/api/purchases.py:108-131 | an order purchase files an unassigned lot exactly when it has a surplus in kg or units, holding exactly those surpluses (a zero stored as None); an off-order purchase files its whole quantities exactly when one of them is non-zero |
| PurchaseRules.Ratio | app/api/purchases.py:216-230 | a ratio exists exactly when the purchase has positive quantities in both units for its charged unit; it is positive and the observed units per kg |
| PurchaseRules.ChargedQty | app/api/purchases.py:238-255 | the quantity is kept when the units agree or no conversion applies; otherwise units convert to kg by dividing by the ratio and kg to units by multiplying by it; a non-negative quantity stays non-negative |
| PurchaseRules.Projected | app/api/purchases.py:234-255 | a projected line changes only its charged unit and charged quantity, the latter in the purchase's charged unit |
| PurchaseRules.ProjectionIdempotent | app/api/purchases.py:234-255 | projecting twice with the same purchase is projecting once |
| PurchaseRules.Repriced | app/api/purchases.py:265-267 | a repriced charge changes only its charged quantity and its total, which is the charged quantity (else the quantity) times the unit price |
| PurchaseRules.FillInOrderSpec | app/api/purchases.py:158-170 | the corrected customer-list pass gives each line between nothing and its need, gives out exactly the smaller of the purchase and the total need, and leaves every later line empty once a line is left short |
| PurchaseRules.FillBounds | app/api/purchases.py:163-170 | no line is given more than it still needs |
| PurchaseRules.FillSum | app/api/purchases.py:158-170 | the pass gives out exactly the smaller of what was bought and the total need |
| PurchaseRules.FillGreedy | app/api/purchases.py:163-170 | once a line is left short, every later line gets nothing |
| PurchaseRules.Residual | app/api/purchases.py:169 | what each line still needs after a pass is its need less its take |
| PurchaseRules.SecondPassGivesNothing | app/api/purchases.py:159-170 | a further walk over the lines (one per listed name) gives nothing: the purchase is spent or every line is served |
| PurchaseRules.AllServedWhenShortfallNone | app/api/purchases.py:163-170 | if some line is left short, the takes add up to less than the needs |
| PurchaseRules.ZeroPass | app/api/purchases.py:160-167 | with nothing left to give or no line in need, the pass gives nothing |
| PurchaseRules.FillByCustomer | app/api/purchases.py:148-170 | the pass as written, with pending need kept per customer, gives one take per line |
| PurchaseRules.CustomerKeyedPassOverfillsLine | app/api/purchases.py:155-170 | two lines of one customer needing 2 each and a purchase of 4: as written the first line is given 4, twice its need |
| PurchaseRules.AutoFill | app/api/purchases.py:193-204 | the auto-complete stage gives one take per line |
| PurchaseRules.AutoFillWithinAvailable | app/api/purchases.py:193-204 | the auto-complete stage never gives out more than it is measured against |
| PurchaseRules.StagesOverAllocate | app/api/purchases.py:158-204 | two lines needing 4 each and a purchase of 4: as written the two stages allocate 8 |
| PurchaseRules.StagesWithinPurchase | app/api/purchases.py:158-204 | over one list of needs, the first stage followed by an auto-complete measured against what it left never gives out more than was bought |
| PurchaseRules.AutoFillNonNegative | app/api/purchases.py:193-201 | the auto-complete stage takes nothing negative |
| PurchaseRules.FirstStageWithin | app/api/purchases.py:158-170 | the first stage takes the whole purchase or the whole need, whichever is less |
| PurchaseRules.SecondStageWithin | app/api/purchases.py:192-204 | a second stage within what the first left keeps both within the purchase |
| Purchases.OrderLinesExact | app/api/purchases.py:71 | the lines selected for an order and product are exactly the stored lines of that order and product |
| Purchases.GuardCountsRequestTwice | app/api/purchases.py:59-77 | with the new purchase already flushed into the queried purchases, the guard's totals are the earlier purchases plus twice the request's quantities |
| Purchases.HalfPurchasePassesGuard | app/api/purchases.py:67-90 | a first purchase of half of a kg-only demand, naming nobody, is not turned away |
| Purchases.LineNeeds | app/api/purchases.py:183-191 | one non-negative pending need per line, each the line's quantity less what is already allocated to it (never below zero) |
| Purchases.AllocRecords | app/api/purchases.py:165-168 | at most one allocation per line |
| Purchases.AllocRecordsPositive | app/api/purchases.py:165-168 | every recorded allocation belongs to this purchase, carries its charged unit and has a positive quantity: a zero take records nothing |
| Purchases.FillPass | app/api/purchases.py:159-170 | the loop over the lines leaves each line its need less its take, keeps what is left of the purchase, and records exactly the allocations of the in-order fill |
| Purchases.AllocateToNamedCustomers | app/api/purchases.py:135-173 | the customer-list stage records exactly the allocations of the in-order fill over the listed-customer lines in the charged unit, and nothing without an order, a non-empty list or a quantity in the charged unit |
| Purchases.LaterPassIsEmpty | app/api/purchases.py:159-170 | a further walk over the same lines with what the first left records nothing, gives out nothing and leaves the needs as they were |
| Purchases.AutoComplete | app/api/purchases.py:175-207 | the auto-complete stage records exactly a full allocation of each charged-unit line that still needs something when what is left of the purchase covers the total need, and nothing otherwise |
| Purchases.TotalPending | app/api/purchases.py:192 | the total is the sum of the pending needs |
| Purchases.AllocateNeeds | app/api/purchases.py:194-204 | the loop records one allocation of its full need per line in need, and nothing for the others |
| Purchases.ProjectLines | app/api/purchases.py:233-255 | every line of the order and product is projected onto the charged unit and every other line is left as it was |
| Purchases.ProjectionKeepsChargesPriced | app/api/purchases.py:233-267 | after projection every line of the order and product carries the charged unit and a charged quantity, and every charge of such a line carries that quantity and a total that follows it |
| Purchases.ProjectionIdempotentOnItems | app/api/purchases.py:233-255 | projecting the lines twice with the same purchase is projecting them once |
| Purchases.RepricingIdempotent | app/api/purchases.py:261-267 | repricing the charges twice is repricing them once |
| Purchases.ProjectionIdempotentOnStore | app/api/purchases.py:233-267 | projecting and repricing a second time with the same purchase changes nothing |
| Purchases.LineChargesExact | app/api/purchases.py:264 | the charges selected for a line are exactly the stored charges of that line |
| Purchases.RepriceLine | app/api/purchases.py:264-267 | every charge of the line takes the line's charged quantity and the matching total, and no other charge changes |
| Purchases.RepriceCharges | app/api/purchases.py:261-267 | every charge of a line of the order and product is repriced from its line, and no other charge changes |
| Purchases.AllocatePurchase | app/api/purchases.py:135-207 | the two stages run in turn: the auto-complete stage reads the allocations the customer-list stage left |
| Purchases.PurchaseWithinBought | app/api/purchases.py:135-207 | the allocation table the endpoint leaves holds, for a purchase with nothing allocated before, between zero and what was bought in its charged unit, across both stages and whatever lines each stage walks |
| Purchases.NamedStageWithin | app/api/purchases.py:155-170 | the customer-list stage allocates from a fresh purchase between zero and what was bought |
| Purchases.AutoStageWithin | app/api/purchases.py:185-204 | the auto-complete stage adds between zero and what the purchase has left to its allocated total |
| Purchases.StageRaisesAllocated | app/api/purchases.py:168 | storing a stage's takes raises the purchase's allocated total by exactly their sum |
| Purchases.AllocatedFromInsertAll | app/api/purchases.py:168 | storing allocations of a purchase raises its allocated total by their quantities |
| Purchases.RecordsQty | app/api/purchases.py:165-168 | the stored allocations carry exactly the total of the non-negative takes |
| Purchases.NothingAllocatedYet | app/api/purchases.py:61 | a purchase no allocation names, such as the one just flushed, has nothing allocated |
| Tables.SumWhereInsert | app/api/purchases.py:168 | an insert adds its record's term to a filtered sum exactly when the record is selected |
| Tables.SumBelowNone | app/api/purchases.py:61 | a filtered sum over rows none of which is selected is zero |
| Purchases.ProjectOrder | app/api/purchases.py:209-270 | without an order nothing changes; with one, the lines are projected and their charges repriced |
| Purchases.FiledLots | app/api/purchases.py:124-131 | no lot leaves the lots as they were; a lot is added under the next id |
| Purchases.RecordPurchase | app/api/purchases.py:41-133 | the purchase row and its price observation are added, and the surplus lot is filed against the purchases before it |
| Purchases.AllocateAndProject | app/api/purchases.py:135-270 | the allocations of both stages are added and, for a purchase of an order, the lines are projected and their charges repriced |
| Purchases.CreatePurchase | app/api/purchases.py:23-274 | a request that fails a field check is rejected with that reason and the store is unchanged; one the completeness guard turns away is rejected with "customers required" and the store is unchanged; otherwise the purchase gets the next id and the purchase row, price observation, surplus lot, both allocation stages and the projection are all written |
| Kpis.IntOr | app/api/admin_kpis.py:118 | a parameter fails to read exactly when it is given but is not an integer; a missing one takes the default |
| Kpis.WindowOrders | app/api/admin_kpis.py:48-55 | exactly the stored orders whose day lies within the given bounds |
| Kpis.OrdersWhere | app/api/admin_kpis.py:124 | exactly the stored orders whose day satisfies the filter |
| Kpis.BilledQty | app/api/admin_kpis.py:66 | `charged_qty or qty`: the charged quantity unless it is missing or zero, then the ordered quantity |
| Kpis.PurchaseCost | app/api/admin_kpis.py:76-83 | a non-zero price total is the cost; otherwise the unit price times the kilos for "kg" (or no unit) and times the units for any other unit |
| Kpis.DistinctCustomers | app/api/admin_kpis.py:151-164 | exactly the customers of the charges that pass the filter |
| Kpis.Repeaters | app/api/admin_kpis.py:137 | the repeat customers are among the customers counted |
| Kpis.RepeaterIff | app/api/admin_kpis.py:121-137 | a customer repeats exactly when their live charges lie on two different orders of the window |
| Kpis.OverviewOf | app/api/admin_kpis.py:40-210 | the corrected overview fails exactly when `recompra_days` or `activo_days` is not an integer |
| Kpis.OrderColumnNamed | app/api/admin_kpis.py:50 | a name refers to a column exactly when the order model declares it; "date" is not one |
| Kpis.OverviewAsWritten | app/api/admin_kpis.py:50-180 | as written every call fails |
| Kpis.OrderDateMissing | app/api/admin_kpis.py:154 | one draft order with one 6.00 charge: the handler as written fails, and the corrected one reports a total of 6.00 |
| Kpis.TotalCosts | app/api/admin_kpis.py:75-83 | the loop sums exactly the purchase costs |
| Kpis.UniqueCustomers | app/api/admin_kpis.py:89-92 | the loop collects exactly the non-zero customers of the charges |
| Kpis.ComputeTicket | app/api/admin_kpis.py:57-115 | the ticket figures computed are those of the window's orders |
| Kpis.ComputeOverview | app/api/admin_kpis.py:40-210 | the method returns the corrected overview |
| Kpis.PercentBounds | app/api/admin_kpis.py:143 | a share of a part in a whole lies in 0..100 and is 100 exactly when the part is the whole and not empty |
| Kpis.RatesBounded | app/api/admin_kpis.py:136-193 | repeat customers never outnumber customers and active never outnumber historic, so both rates lie in 0..100 |
| Kpis.TicketFigures | app/api/admin_kpis.py:57-115 | no orders give all zeros; the order count is the window's orders; profit is total less costs; the averages times their counts give the total; the margin is 0 without billing and 100 without costs |
| Kpis.NewAreHistoric | app/api/admin_kpis.py:160-186 | new customers this month are among the historic customers |
| Kpis.CustomerCountsAgree | app/api/admin_kpis.py:89-136 | when every charge has a customer, the ticket's customer count equals the repurchase stage's customer count |
| Kpis.OverviewTicket | app/api/admin_kpis.py:57-115 | with readable parameters the overview is a report whose ticket is the window's ticket |
| Kpis.OneChargeBilled | app/api/admin_kpis.py:65-68 | one draft order with one charge of 2 kg at 3.00 bills 6.00 |
| Vendors.FinalPriceOrder | app/api/admin_vendors.py:92 | the final price exceeds a positive cost by `cost * markup / 100`: above the cost exactly for a positive markup, equal exactly for none |
| Vendors.Existing | app/api/admin_vendors.py:95-99 | a price is found exactly when some stored row has this vendor, product and variant |
| Vendors.Check | app/api/admin_vendors.py:82-102 | a refusal never reports a created price |
| Vendors.CheckExact | app/api/admin_vendors.py:82-102 | `float` fails exactly on an unreadable cost or markup; the price is accepted exactly when the cost is positive, the product is given and no row has the same vendor, product and variant; the markup is the one given, else 20 |
| Vendors.CreateExact | app/api/admin_vendors.py:78-120 | a refused request stores nothing; an accepted one stores one available `manual` row under the next id, leaves the other rows alone, prices it at cost raised by the markup and keeps the cost (in `price_per_kg` for `kg`, else in `price_per_unit`) |
| Vendors.CreateDefaultMarkup | app/api/admin_vendors.py:86-92 | a price created without a markup stores markup 20 and a final price of 1.2 times the cost |
| Vendors.CreateKeepsKeysUnique | app/api/admin_vendors.py:94-102 | when no two rows share vendor, product and variant before a create, none do after it |
| Vendors.GramPriceLosesCost | app/api/admin_vendors.py:108-110 | as written, a `g` price stores no cost, so a later markup-only edit of it fails; with the cost kept in `price_per_unit` the same edit reprices it (13 from a cost of 10 and a markup of 30) |
| Vendors.EditExact | app/api/admin_vendors.py:125-157 | a missing id is not found; a failed edit stores nothing; a success replaces only that row, keeps its vendor, product, variant and unit, stamps time and `manual`; a new cost reprices with the given markup (else the stored one) and is kept in the field of the row's unit; a markup-only edit reprices the stored cost; an edit with neither cost nor markup keeps markup, final price, `price_per_kg` and `price_per_unit` as they were; the edit fails exactly on an unreadable number or a markup-only edit of a row with no stored cost |
| Vendors.ToggleTwice | app/api/admin_vendors.py:172-178 | toggling twice gives back the row as it was, but for the time of the second toggle |
| Vendors.CreateVendorPrice | app/api/admin_vendors.py:78-120 | the handler's new table and answer are those of the create function whose properties are proved above |
| Vendors.UpdateVendorPrice | app/api/admin_vendors.py:125-157 | setting the fields one after another gives the table and answer of the edit function whose properties `EditExact` states |
| Vendors.ToggleAvailability | app/api/admin_vendors.py:172-178 | the handler's new table and answer are those of the toggle function |
| Accounting.SumBilledBounds | app/api/accounting.py:18-19 | the billed sum of charges is never negative and never below the plain sum of `total - discount` |
| Accounting.Outstanding | app/api/accounting.py:163 | what is due is at least 0 and at least billed minus paid, is one of the two, and is 0 exactly when the payments reach what was billed |
| Accounting.BilledByCustomerAddsUp | app/api/accounting.py:55-71 | `billed_by_customer` has an entry exactly for each customer with a line in the order, each entry is that customer's lines' amounts added up, and the entries add up to `billed_total` |
| Accounting.BilledNonNegative | app/api/accounting.py:58-67 | lines with non-negative quantities to bill and non-negative prices bill a non-negative total |
| Accounting.CostBounds | app/api/accounting.py:74-82 | purchases with no negative money or quantity cost at least 0, and when every purchase records a price total the cost is exactly those totals added up |
| Accounting.WalkExact | app/api/accounting.py:119-136 | the verdict loop finds every product covered exactly when each listed product's demand is met in both units, and finds an excess exactly when some listed product was bought beyond a non-zero demand |
| Accounting.StatusExact | app/api/accounting.py:114-148 | `purchase_status` is "incomplete" exactly when some ordered product falls short, and "over" exactly when none does and some product was over-bought; otherwise "complete" |
| Accounting.GotStep | app/api/accounting.py:95-111 | one more purchase adds its kilograms and pieces (with their equivalents) to its own product's supply and leaves every other product's supply unchanged |
| Accounting.StatusMonotone | app/api/accounting.py:95-148 | recording a purchase with no negative quantity never moves the verdict backwards in the order incomplete, complete, over |
| Accounting.StatusIgnoresOtherProducts | app/api/accounting.py:95-148 | a purchase of a product the order does not contain leaves the verdict unchanged |
| Accounting.BoughtTagsExact | app/api/accounting.py:139-140 | a bought tag exists exactly for each listed product for which something was bought, and carries the kilograms and pieces bought |
| Accounting.MissingTagsExact | app/api/accounting.py:142-145 | a missing tag exists exactly for each listed product that falls short, carries the shortfall of that product, and its amounts are non-negative with at least one positive |
| Accounting.GotNonNegative | app/api/accounting.py:95-111 | purchases with no negative quantity supply no negative amount of any product |
| Accounting.MissingIffIncomplete | app/api/accounting.py:114-148 | when no purchase records a negative quantity, the missing tags are non-empty exactly when the verdict is "incomplete" |
| Accounting.Profit | app/api/accounting.py:156 | the profit is at least 0 and at least billed minus cost, and is one of the two |
| Accounting.ProfitPct | app/api/accounting.py:157 | the profit percentage is 0 when nothing was billed, never negative, and at most 100 when the cost is not negative |
| Accounting.PctBelow | app/api/accounting.py:157 | a non-negative profit over a positive billed amount is a percentage of at least 0, and at most 100 when the profit does not exceed what was billed |
| Accounting.Summarize | app/api/accounting.py:150-173 | an order's summary owes nothing exactly when the payments reach what was billed, never reports a negative due or profit, its profit is at least billed minus cost, and its percentage is 0 when nothing was billed |
| Accounting.OrderLines | app/api/accounting.py:208-222 | the `orders` breakdown has one line per distinct order key of the charges |
| Accounting.Summary | app/api/accounting.py:189-222 | a customer's billed and due amounts are never negative, and the breakdown is present exactly when it was asked for |
| Accounting.SumOfNonNegative | app/api/accounting.py:193-196 | amounts that are each non-negative add up to a non-negative total |
| Accounting.IdsOfExact | app/api/accounting.py:198 | `charge_ids` lists the charges' ids, one per charge, in order |
| Accounting.PaidAcrossStep | app/api/accounting.py:216-221 | one more payment application adds its amount once to the per-charge payments, exactly when it is applied to one of the listed charges |
| Accounting.PaidAcrossZero | app/api/accounting.py:216-221 | with no payment applications, nothing is paid on any charge |
| Accounting.PaidAcrossAll | app/api/accounting.py:216-221 | when no charge is listed twice, the payments counted charge by charge add up to the payments on any of the charges |
| Accounting.PaidOnEntries | app/api/accounting.py:217-221 | summing `paid_by_charge.get(id, 0)` over the charges equals the charge-by-charge payments over the whole payment table |
| Accounting.OrderIds | app/api/accounting.py:222 | the breakdown's order ids, one per line, in order |
| Accounting.OrderLinesKeys | app/api/accounting.py:209-222 | the breakdown lists every order that has one of the customer's charges, each once, and no other order |
| Accounting.OrderLinesBilled | app/api/accounting.py:194-214 | the breakdown's billed amounts add up to the customer's billed |
| Accounting.OrderLinesPaid | app/api/accounting.py:198-221 | when no charge is listed twice, the breakdown's paid amounts add up to the customer's paid |
| Accounting.CustomerOrdersAddUp | app/api/accounting.py:186-225 | for a stored customer, the breakdown asked for is present and its billed and paid amounts add up to the customer's billed and paid |
| Merchant.TokenOf | app/api/merchant_orders.py:24 | the token is empty exactly when both headers are missing or empty |
| Merchant.Authorize | app/api/merchant_orders.py:24-39 | a request is accepted only when its token starts with `merchant_`, what is left once every `merchant_` is removed reads as an integer, and that integer is an existing, active user, who is the one returned |
| Merchant.AuthorizeIssued | app/api/merchant_orders.py:24-37 | the token `merchant_<id>` is accepted exactly when that user exists and is active, then acts for that user, and it is the same whether it comes in `X-API-Token` or `X-Merchant-Token` |
| Merchant.DigitsKept | app/api/merchant_orders.py:30 | removing `merchant_` from a string of digits leaves it unchanged |
| Merchant.RepeatedPrefix | app/api/merchant_orders.py:30 | `replace` removes every `merchant_`, so `merchant_<a>merchant_<b>` is authorized as the user `<a><b>` |
| Merchant.ReadItem | app/api/merchant_orders.py:71-80 | an item is a valid line exactly when it names a product and its quantity and price both read as positive numbers |
| Merchant.FirstFailureNone | app/api/merchant_orders.py:70-80 | the item loop finds no failure exactly when every item is a valid line |
| Merchant.FirstFailureAt | app/api/merchant_orders.py:70-80 | after a run of valid items, the first invalid one decides the refusal |
| Merchant.Rows | app/api/merchant_orders.py:82-96 | the stored items are one per input item, in order, each the row the handler builds for it |
| Merchant.Place | app/api/merchant_orders.py:44-114 | an order is refused as empty exactly when it has no items, and any refusal or failure stores nothing |
| Merchant.PlaceAccepted | app/api/merchant_orders.py:56-105 | an accepted order stores the order row under the next id, pending, numbered `M<user>-<stamp>`, with the items' subtotal, the fee and their sum as total, and stores its item rows after it |
| Merchant.SumOfPositive | app/api/merchant_orders.py:97 | positive item subtotals add up to a positive subtotal for a non-empty order, and never to a negative one |
| Merchant.PlacedIff | app/api/merchant_orders.py:44-114 | an order is placed exactly when it has items, its delivery date and number are fine, every item is valid and the fee reads |
| Merchant.RowsValid | app/api/merchant_orders.py:78-94 | every stored item of an accepted order passed the checks and has a positive subtotal |
| Merchant.RowValid | app/api/merchant_orders.py:78-94 | the row stored for one valid item passed the checks and has a positive subtotal |
| Merchant.PositiveProduct | app/api/merchant_orders.py:82 | a positive quantity times a positive price is a positive subtotal |
| Merchant.PlacedOrder | app/api/merchant_orders.py:56-105 | an accepted order is stored under the next id with exactly its item rows appended, all valid and of that order; the order is pending, numbered `M<user>-<stamp>`, its total is subtotal plus fee and its subtotal is positive |
| Merchant.InvalidItemRefused | app/api/merchant_orders.py:78-80 | an invalid item after valid ones refuses the order with the 400, and the rollback leaves nothing stored |
| Merchant.RowsSnoc | app/api/merchant_orders.py:70-97 | one more valid item adds its row to the stored items |
| Merchant.PlaceFeeUnreadable | app/api/merchant_orders.py:100-114 | an order whose items are all valid but whose fee does not read as a number fails and stores nothing |
| Merchant.AddItems | app/api/merchant_orders.py:69-97 | the item loop stops at the first invalid item; when there is none, the session holds exactly the rows of the items in order and the subtotal is their subtotals added up |
| Merchant.PlaceMerchantOrder | app/api/merchant_orders.py:44-114 | the endpoint's result and the stored orders and items are those of the request model: the flushed order row and its items on success, nothing on a refusal or failure |

## Left out

- Text.Lower: `Text.LowerChar` lower-cases ASCII and Latin-1 letters only; Python's `str.lower` covers all of Unicode.
- OrderParser.ParseLine: the `\w` of the line patterns is `IsWordChar`. Up to U+00FF it accepts what Python's `\w` accepts: ASCII letters and digits, `_`, and the Latin-1 letters, digits and fractions. From U+0100 on it accepts every character except whitespace, the blocks U+2000 to U+2BFF and U+3000 to U+303F, and U+FEFF. So it counts the combining marks U+0300 to U+036F as word characters, which Python does not. It also refuses the letters and digits inside the excluded blocks, such as `ℓ` (U+2113), `⁰` (U+2070) and `々` (U+3005), which Python accepts.
- OrderParser.ParseLine and OrderParser.ClassifyEntry: the patterns at app/services/order_parser.py:67, 75, 97 and 111 carry `re.IGNORECASE`, which on a str pattern also matches the Kelvin sign (U+212A) to `k`, `ſ` (U+017F) to `s`, and `ı` (U+0131) and `İ` (U+0130) to `i`. The model's `LiteralAt` and `Header` fold only ASCII and Latin-1 capitals. So a unit word such as `Kg` written with the Kelvin sign or `kiloſ`, and a header such as `pedıdo juan`, are read as the source reads them only when they use the ordinary letters.
- TextMatch.NormalizeText and TextMatch.DropMarks: the NFD decomposition and combining-mark removal are written out for Latin-1 letters and the marks U+0300 to U+036F, not the whole of Unicode's `unicodedata.normalize`.
- TextMatch.SimilarityScore: its edit-distance score `EditScore` computes `int(100 * (1 - d / m))` on exact reals, so a float truncation one below the exact value is not modelled.
- Kpis.ComputeOverview: `TicketOf` and the other KPI figures are exact; `round(x, 2)` is not applied.
- Prices.ProfitSummary and Prices.AvgCostActual: `AvgCost` reads the price history in id order, so the "last row" of period `actual` is the one with the highest id; the query at app/api/prices.py:181-187 has no ORDER BY, and the database may return another order.
- Orders.FindProduct: `ilike(name)` is modelled as equality once ASCII capitals are folded, which is what SQLite's `lower(name) LIKE lower(x)` does; a `%` or `_` in the name, which `ilike` reads as a wildcard (app/api/orders.py:169, 224, 259, 389), is compared literally.
- Orders.AddItemsToCurrentDraft and Orders.AddItemsToOrder: `ItemRequest` carries `qty`, `variant_id` and `sale_unit_price` as numbers. The source converts them without a guard: `float(it.get("qty") or 0)`, `int(variant_id)` and `float(sale_unit_price)` at app/api/orders.py:288 and 425-431, and `float(sale_unit_price)` again at 438. A value that does not read as a number raises there and fails the request with a 500, and none of its lines is committed. In the draft handler the draft that `_get_draft(create=True)` created and committed stays. The model does not have this failure.
- Charges.CreateCharge: the ids arrive as integers, so the error `int(None)` raises for a missing `customer_id` or `product_id` (app/api/charges.py:34, 38) is not modelled; the same holds for Charges.ReassignExcess on a non-integer id (app/api/charges.py:99-101).
- Payments.CreatePayment: a missing `customer_id` (app/api/payments.py:34) or a non-integer `charge_id` (app/api/payments.py:45) raises in the source; the model receives integers. The refusal of a missing or unreadable `order_id` (app/api/payments.py:28-32) is modelled.
- Merchant.ReadItem: an explicit `"unit": null` reads as `kg`; the source stores None and the NOT NULL column fails the request with a 500.
- Vendors.CreateVendorPrice: an explicit `"unit": null` reads as `kg`; the source stores None and the NOT NULL column fails the request with a 500.
- Accounting.OrderSummaryOf and Accounting.CustomerSummaryOf model the summary of one order and one customer; the list handlers' ordering (newest order first, customers by name) and `limit(200)` are not modelled.
- Purchases.CreatePurchase: the source swallows an exception in a stage and moves on (app/api/purchases.py:88-90, 132-133, 172-173, 206-207, 270-273). One such exception comes from the request itself: a purchase charged in `kg` without `qty_kg` passes validation, and `float(None)` then raises at app/api/purchases.py:158 and 192, so both allocation stages are skipped while the purchase stays stored. The model does the same: `BoughtInChargedUnit` is None for that request, and both allocation stages record nothing. The other stage exceptions come only from database errors, which the in-memory tables do not have; they are not modelled. A deployment that has dropped the allocation and lot tables makes those stages do nothing; this is not modelled.
- `create_order` and `_add_items` (app/api/orders.py:213-237, 347-355), and the `parse_orders` and `validate_orders` endpoints (app/api/orders.py:138-175): they are outside the modelled handlers. The text parser and the product lookup they use are modelled.
- Text.ParseInt: only the ASCII digits `0` to `9` count as digits. Python's `int()` also reads every other Unicode decimal digit, so Merchant.Authorize refuses a token such as `merchant_１` (a full-width one) that the source accepts for user 1 (app/api/merchant_orders.py:30).
- Columns copied from the request with no rule attached are not stored: the purchase's `vendor`, `notes` and `billed_expected` (app/api/purchases.py:49-58), an order line's `notes` (app/api/orders.py:288, 429) and the `has_note` flags of the order detail built from them (app/api/orders.py:59, 88), a product's `notes`, `quality_notes` and `quality_photo_url` (app/api/products.py:72-74, 122-125), and the merchant order's delivery address, date and notes with its items' `preferred_vendor_id` and `notes` (app/api/merchant_orders.py:60-62, 82-93).
- The list, read and delete endpoints of every blueprint, `update_quality` (app/api/products.py:158-166), `get_top_products` in app/api/admin_kpis.py, the price list and create endpoints (app/api/prices.py:29-123), and `delete_vendor_price`: they are plain queries or row deletions with no rule to prove.
- app/models/competitor_price.py is not part of this model; competitor prices are records with a product, a price and a day.
- Floating point: quantities and money are exact reals. Float rounding, NaN and infinities are not modelled; the payment amount is rounded half to even before the split, as Python's `round` does.
- Timestamps, today's date and the merchant order's clock stamp are parameters; `created_at` ordering is the id order.
- Tables.Remove: the model never hands a deleted id out again. The tables come from `db.create_all()` (app/__init__.py:40) on SQLite (app/config.py:11) with plain integer keys, so SQLite gives a new row the largest id plus one and reuses the id of a deleted last row. After Orders.DeleteOrderItem (app/api/orders.py:496-501) deletes the newest line and its charge, the next line and charge get those ids again in the source, and the payment applications and purchase allocations left behind on them attach to the new rows; in the model the new rows get fresh ids and owe in full.
- Foreign keys are not checked (SQLite does not enforce them by default), so a row may name a missing order, product or customer; lookups treat such an id as absent.
- Ties: Python's stable sort keeps equal keys in input order, and the model's sort does the same (Common.SortDescStable); the input order is the id order of the query.
- Authentication (`require_token`), JSON rendering, HTTP status codes other than the modelled answers, sessions and transactions are not modelled; a rollback is the tables left as they were.

## Findings

| source | as written | input that shows it | evidently intended | confidence | as-written member | corrected member |
|---|---|---|---|---|---|---|
| app/api/purchases.py:155-170 | `pending` is keyed by customer, so the first line of a customer with several lines of the product can take the need of all of them | customer 7 has two lines needing 2 kg each, and a 4 kg purchase names customer 7: line 1 is allocated 4 kg and line 2 nothing | each line takes at most its own pending need | not executed | PurchaseRules.CustomerKeyedPassOverfillsLine | PurchaseRules.FillBounds |
| app/api/purchases.py:192-193 | the auto-complete stage compares the pending need with the whole `purchased_now`, after the customer-list stage has already allocated from it | two customers each have one line needing 4 kg, and a 4 kg purchase names both: stage 1 gives line 1 4 kg, then stage 2 gives line 2 another 4 kg, so 8 kg is allocated from 4 kg | both stages together allocate at most what was bought | not executed | PurchaseRules.StagesOverAllocate | Purchases.PurchaseWithinBought |
| app/api/payments.py:87-98 | the leftover loop exits only when every share covers its due, but it adds only whole units below the due | dues 0.5 and 0.5 with amount 1: each floor share is 0, no share has a whole unit of room, and the loop never ends | the loop stops when no share can take another unit, which is the same exit when dues are whole | not executed | PaymentSplit.HalfDuesNeverExitAsWritten | PaymentSplit.DistributeLeftover |
| app/api/products.py:67-75 | `Product(...)` is given `category=` and `purchase_type=`, which app/models/product.py does not declare, so the constructor raises | `{"name": "papa", "sale_price": 10}`: the request fails with a 500 and nothing is created | create the product, its catalog price and its tier | not executed | Products.CreateAsWrittenNeverCreates | Products.CreateProduct |
| app/api/admin_kpis.py:154 | the overview filters and groups on `Order.date`, a column app/models/order.py does not have, so every call raises | one draft order with one 6.00 charge: the call fails instead of reporting a total of 6.00 | filter and group orders by their creation day | not executed | Kpis.OrderDateMissing | Kpis.ComputeOverview |
| app/api/admin_vendors.py:109-110 | a price in a unit other than `kg` and `unit` stores its cost in neither column, so a later markup-only edit multiplies None | create a `g` price with cost 10, then edit only its markup to 30: the edit fails | keep the cost in `price_per_unit` for every unit but `kg`, as an edit does | not executed | Vendors.GramPriceLosesCost | Vendors.CreateVendorPrice |
