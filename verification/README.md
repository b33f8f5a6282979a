# Inventory PWA core, modelled in Dafny

This project models the logic core of an inventory progressive web app for
a phone shop. The app records entries: orders with a party name, a date,
and products that carry IMEI or serial codes. It lists them in three views
(entries, one row per product, one row per code), searches, filters and
sorts those views, exports them to a spreadsheet or a PDF, and edits entries
in a form with a barcode scanner. It also keeps an offline sync queue,
handles `web+marvans://` deep links and shared text, and holds a small
global UI store.

Each core source file is one Dafny module. Code that computes values
(comparators, search predicates, the export field mapper, the link
dispatcher, the IMEI extractor, the badge buckets) is modelled as
datatypes, functions and lemmas. Code that changes state step by step is
modelled imperatively:

- loops that build rows or filter lists are methods with loop invariants;
- in-place `sort`/`reverse` calls are methods on arrays;
- the stateful pieces are classes whose methods update their fields:
  - the barcode scanner dialog;
  - the entry form and its products section;
  - the date-range picker;
  - the UI store;
  - the sync queue over browser storage.

Methods that compute a value are proved against a specification function.
The class methods state their whole new state in terms of the old one. The
scanner dialog, the products section and the date-range picker also keep a
class invariant (`Valid`). The lemmas next to the specification functions
state what the app promises: searches ignore case and
whitespace; sorts are permutations, ordered and stable; errors are keyed
exactly; link and IMEI parsing round-trip.

Shared modules:

- `Base`: the JavaScript string and array built-ins the app calls. This is
  ASCII lower-casing, `includes`, `trim`, the whitespace regular
  expressions, `split`, `join`, `replace` and `filter`.
- `Sorting`: `Array.prototype.sort` as the stable sort the language
  requires, and `reverse`.
- `Json`: JavaScript values, truthiness, `String(v)`, `Number(v)` and
  property access.
- `External`: moment.js and `localeCompare`. They are passed in as
  function values, so every property holds whatever those libraries
  compute.
- `Documents`: the entry and product records as the REST API returns
  them.
- `Navigation`: the routes and notifications the handlers produce.

## Model

| member | source | states |
|---|---|---|
| SortSearch.GetValue | src/components/common/sort/index.js:10-40 | the loop returns `ValueAt(obj, path)`, the recursive reading whose cases the lemmas below state; a falsy object or an empty path gives `undefined` |
| SortSearch.SpreadValues | src/components/common/sort/index.js:29-33 | the loop over the elements after a mid-path `[]` returns `Spread`, each element's reading of the rest of the path, one level flattened |
| SortSearch.Flat1 | src/components/common/sort/index.js:33 | one level of `flat()` followed by the null filter: exactly the non-null elements of an array result, or the non-null result itself |
| SortSearch.LookupStopsAtNullish | src/components/common/sort/index.js:19 | once a prefix of the keys reaches `null`/`undefined`, the whole reading is `undefined` |
| SortSearch.WalkPlain | src/components/common/sort/index.js:16-37 | from any segment on, a path without `[]` is read as optional chaining |
| SortSearch.GetValuePlainPath | src/components/common/sort/index.js:11-39 | without a wildcard, `getValue` is optional chaining over the dot-separated keys |
| SortSearch.WalkWildcard | src/components/common/sort/index.js:21-34 | the loop reaching the first `[]` hands over the optional-chaining value of the prefix to the wildcard rule |
| SortSearch.GetValueWildcard | src/components/common/sort/index.js:21-33 | for `prefix.[].rest`: a non-array gives `undefined`, a trailing `[]` gives the array itself, a mid-path `[]` gives the rest read on every element, flattened one level without null/undefined |
| SortSearch.SpreadIsFlatMap | src/components/common/sort/index.js:31-33 | `map` then `flat` then the null filter is the flat map of the per-element reading |
| SortSearch.SpreadMembers | src/components/common/sort/index.js:28-33 | a value is in the mid-wildcard result exactly when some element's reading (flattened, non-null) holds it |
| SortSearch.StrictMatchIsLoose | src/components/common/sort/index.js:74-96 | whatever the item (array, null, date or text), a strict match is also a substring match |
| SortSearch.MatchIgnoresCriteriaCase | src/components/common/sort/index.js:71 | `checkMatch` gives the same answer for the criteria and its lower-cased form |
| SortSearch.Normalize | src/components/common/sort/index.js:45-60 | `normalizeValue`: undefined and null stay themselves, numbers stay numbers, booleans become "true"/"false" and non-date non-numeric strings are lower-cased |
| SortSearch.CompareKeysTotal | src/components/common/sort/index.js:220-226 | between keys of the same kind the comparator decides one of the two orders |
| SortSearch.CompareKeysTransitive | src/components/common/sort/index.js:220-226 | between keys of the same kind the comparator's order is transitive |
| SortSearch.SearchStage | src/components/common/sort/index.js:126-148 | an empty search keeps every row; otherwise a row is kept iff some search key's value matches (as a formatted ISO date or through `checkMatch`) |
| SortSearch.ApplyFiltersKeeps | src/components/common/sort/index.js:154-202 | the filter loop keeps exactly the rows that pass every filter entry that is not skipped (`""`, null, undefined, `"all"`, `false`), in their original order |
| SortSearch.PassesFirstAndRest | src/components/common/sort/index.js:154-202 | passing all filter entries is passing the first one and then the others |
| SortSearch.TrueFilterIsStrict | src/components/common/sort/index.js:179-201 | a `true` filter on a text or boolean field is a strict (case-insensitive equality) match with "true", not a substring match |
| SortSearch.SortStage | src/components/common/sort/index.js:205-228 | the sort stage is a permutation of its input, and without `sortBy` it keeps the filtered order |
| SortSearch.SortAndSearch | src/components/common/sort/index.js:110-231 | a missing array gives `[]`; otherwise the result is the search, then the filters, then the sort, applied to a copy (the method modifies nothing) |
| SortSearch.RowOrderConsistent | src/components/common/sort/index.js:208-227 | when the sort keys are of one kind the comparator is a total preorder, as `sort` requires |
| SortSearch.UndefinedKey | src/components/common/sort/index.js:210-218 | an `undefined` row's sort key is `undefined` |
| SortSearch.SortedPrefix | src/components/common/sort/index.js:205-228 | the sort stage is the comparator-sorted defined rows followed by the `undefined` ones |
| SortSearch.SortedNullsLast | src/components/common/sort/index.js:220-222 | in a sorted sequence every null-keyed row is followed only by null-keyed rows |
| SortSearch.NullsLast | src/components/common/sort/index.js:220-222 | after the sort stage, rows whose key normalises to null/undefined come after all others, in both directions |
| SortSearch.SortedDirection | src/components/common/sort/index.js:224-225 | in a sorted sequence, non-null keys ascend when `isAsc` and descend otherwise |
| SortSearch.SortDirection | src/components/common/sort/index.js:206-227 | after the sort stage, non-null keys are ascending iff `asc` is "yes", `true` or "asc", and descending otherwise |
| SortSearch.FlatMapMembers | src/components/common/sort/index.js:31-33 | a value is in the flat map exactly when it is in the image of some element |
| Documents.DateCompareOrder | src/components/project/entries/model_entries/utils.js:34 | with valid dates the date comparator `new Date(a) - new Date(b)` is total and transitive |
| Documents.LocaleCompareOrder | src/components/project/entries/model_entries/utils.js:35 | comparing the two strings, with a missing one read as "", is total and transitive when the collation is a total preorder |
| ModelEntries.FlattenModelData | src/components/project/entries/model_entries/utils.js:4-30 | the nested loop pushes exactly `ModelRows` of the data (an empty list when there is none); the lemmas below state the rows' count, order and fields |
| ModelEntries.ModelRowCount | src/components/project/entries/model_entries/utils.js:8-26 | exactly one row per product: the row count is the number of products over all entries |
| ModelEntries.ModelRowsAppend | src/components/project/entries/model_entries/utils.js:8-27 | flattening two lists of entries one after the other gives their rows one after the other |
| ModelEntries.ModelRowAt | src/components/project/entries/model_entries/utils.js:8-26 | product `j` of entry `i` gives the row at position (products of the earlier entries) + `j`, carrying the product's `name` as `productName`, its `details`, `codes`, `price`, `_id`, `category`, and the entry's `date`, `name` as `orderName` and `_id` as `parentId` |
| ModelEntries.ModelRowsSplit | src/components/project/entries/model_entries/utils.js:8-27 | the rows of entry `i` sit between the rows of the entries before it and after it |
| ModelEntries.ModelRowsSnoc | src/components/project/entries/model_entries/utils.js:8-27 | appending one entry appends its rows |
| ModelEntries.NoProductsNoRows | src/components/project/entries/model_entries/utils.js:6-11 | null data, or entries without products, give no row |
| ModelEntries.ProductCountZero | src/components/project/entries/model_entries/utils.js:10-11 | entries without products hold no product |
| ModelEntries.ModelFieldOf | src/components/project/entries/model_entries/utils.js:130-131 | a sort field other than name, price, orderName or category falls back to the date comparator |
| ModelEntries.ModelOrderConsistent | src/components/project/entries/model_entries/utils.js:33-39 | each of the five comparators is a total preorder on the rows (given a collation and, for dates, valid dates) |
| ModelEntries.CodeTexts | src/components/project/entries/model_entries/utils.js:102-104 | every non-empty code contributes its lower-cased text, and no empty text is collected |
| ModelEntries.FilterModelsBySearch | src/components/project/entries/model_entries/utils.js:81-119 | no query, or a query with no terms, returns the rows as they are; otherwise a row is kept iff every term matches its combined searchable text |
| ModelEntries.FilterModelsAppend | src/components/project/entries/model_entries/utils.js:87-118 | the filter decides row by row: it keeps the relative order and distributes over concatenation |
| ModelEntries.ModelWordMatches | src/components/project/entries/model_entries/utils.js:89-116 | a whitespace-free term found in any one searchable text of a row matches the row |
| ModelEntries.ModelVariantMatches | src/components/project/entries/model_entries/utils.js:95-114 | a digits+"gb" term matches a row whose details contain it once whitespace is removed ("512gb" finds "512 GB") |
| ModelEntries.ProcessModelEntries | src/components/project/entries/model_entries/utils.js:122-140 | the view is flatten, filter, sort a copy, reverse for "desc"; it is a permutation of the filtered rows |
| ModelEntries.ModelViewSorted | src/components/project/entries/model_entries/utils.js:130-137 | the view is ordered by the chosen comparator, and in the opposite order for "desc" |
| SearchQuery.SkipSpaces | src/components/project/entries/model_entries/utils.js:50-51 | a greedy `\s*`: the run ends at the first non-whitespace character |
| SearchQuery.SkipDigits | src/components/project/entries/model_entries/utils.js:50-51 | a greedy `\d*`: the run ends at the first non-digit |
| SearchQuery.DateTail | src/components/project/entries/model_entries/utils.js:50 | a match of the month part of the date pattern ends after where it starts |
| SearchQuery.DateAt | src/components/project/entries/model_entries/utils.js:50 | a date-pattern match starts with a digit and is non-empty |
| SearchQuery.DateMatches | src/components/project/entries/model_entries/utils.js:56 | every date phrase found is non-empty and starts with a digit |
| SearchQuery.VariantAt | src/components/project/entries/model_entries/utils.js:51 | a capacity-pattern match is non-empty |
| SearchQuery.Terms | src/components/project/entries/model_entries/utils.js:58-70 | one term per phrase |
| SearchQuery.TermsAt | src/components/project/entries/model_entries/utils.js:58-70 | term `k` is the converted phrase `k` |
| SearchQuery.CutPhrases | src/components/project/entries/model_entries/utils.js:57-71 | each `forEach` pushes the phrases' terms in order and replaces each phrase's first occurrence by a space |
| SearchQuery.ParseSearchQuery | src/components/project/entries/model_entries/utils.js:42-78 | the method returns `SearchTerms(query)`: date terms, then capacity terms, then the remaining words |
| SearchQuery.BlankQueryHasNoTerms | src/components/project/entries/model_entries/utils.js:43-44 | an empty or whitespace-only query yields no terms |
| SearchQuery.NoDateWithoutDigit | src/components/project/entries/model_entries/utils.js:49-51 | a text without digits holds no date or capacity phrase |
| SearchQuery.QueryWithoutDigits | src/components/project/entries/model_entries/utils.js:42-78 | without a digit the terms are the whitespace-separated words of the lower-cased, trimmed query |
| SearchQuery.ScanWithoutDigits | src/components/project/entries/model_entries/utils.js:53-75 | without a digit nothing is cut out and only words remain |
| SearchQuery.NoDigitsTrimmed | src/components/project/entries/model_entries/utils.js:43 | lower-casing and trimming add no digit |
| SearchQuery.CollapsedNonEmpty | src/components/project/entries/model_entries/utils.js:59 | collapsing whitespace keeps a leading non-space character |
| SearchQuery.GbPhraseTerm | src/components/project/entries/model_entries/utils.js:68 | digits, whitespace, then "gb" in any case become a digits+"gb" term once lower-cased and stripped |
| SearchQuery.StripDigitsSpaces | src/components/project/entries/model_entries/utils.js:68 | stripping "digits, blanks, gb" leaves the digits and "gb" |
| SearchQuery.StripAroundBlank | src/components/project/entries/model_entries/utils.js:68 | stripping whitespace from space-free text around a blank run joins the two texts |
| SearchQuery.VariantTermShape | src/components/project/entries/model_entries/utils.js:51-68 | a capacity phrase becomes a digits+"gb" term |
| SearchQuery.VariantMatchesAreGb | src/components/project/entries/model_entries/utils.js:65-68 | every capacity phrase found becomes a digits+"gb" term |
| SearchQuery.DateTermsShape | src/components/project/entries/model_entries/utils.js:58-59 | date terms start with a digit and their whitespace runs are single spaces |
| SearchQuery.VariantTermsShape | src/components/project/entries/model_entries/utils.js:66-69 | every capacity term is digits+"gb" |
| SearchQuery.SearchTermsShape | src/components/project/entries/model_entries/utils.js:42-78 | date terms are single-spaced and start with a digit, capacity terms are digits+"gb", the other terms are non-empty words without whitespace |
| SearchQuery.TermsConcat | src/components/project/entries/model_entries/utils.js:58-75 | the term list reads as its three segments in order |
| SearchQuery.GbTermMatchesStripped | src/components/project/entries/model_entries/utils.js:109-116 | a digits+"gb" term matches exactly when it occurs in the combined text with all whitespace removed |
| SearchQuery.FieldWordMatches | src/components/project/entries/model_entries/utils.js:106-116 | a whitespace-free term found in one searchable text matches their space-joined combination |
| SearchQuery.FieldVariantMatches | src/components/project/entries/model_entries/utils.js:106-114 | a digits+"gb" term found in one searchable text with its whitespace removed matches the combination |
| ImeiEntries.FlattenImeiData | src/components/project/entries/imei_entries/utils.js:4-31 | missing data throws (the unguarded `data.length`); otherwise the three loops push exactly `ImeiRows`, whose count and contents the lemmas below state |
| ImeiEntries.PushProductRows | src/components/project/entries/imei_entries/utils.js:13-27 | the middle loop appends the rows of each product of the entry, in product order |
| ImeiEntries.PushCodeRows | src/components/project/entries/imei_entries/utils.js:15-26 | the inner loop appends one row per code of the product, in code order |
| ImeiEntries.ProductRowCount | src/components/project/entries/imei_entries/utils.js:13-26 | the products of one entry give as many rows as they have codes |
| ImeiEntries.ImeiRowCount | src/components/project/entries/imei_entries/utils.js:8-28 | exactly one row per code: the row count is the total number of codes |
| ImeiEntries.CodelessProductsVanish | src/components/project/entries/imei_entries/utils.js:15-18 | a product with missing or empty codes contributes no row, wherever it stands |
| ImeiEntries.ImeiRowSource | src/components/project/entries/imei_entries/utils.js:19-25 | every row is `{...product, codes: code, date, orderName, orderId}` for some product of some entry and one of that product's codes |
| ImeiEntries.ProductRowSource | src/components/project/entries/imei_entries/utils.js:13-26 | every row of one entry's products comes from one of those products and one of its codes |
| ImeiEntries.ImeiRowPresent | src/components/project/entries/imei_entries/utils.js:8-28 | conversely, every code of every product of every entry has its row |
| ImeiEntries.ProductRowPresent | src/components/project/entries/imei_entries/utils.js:13-26 | every code of every product of one entry has its row among that entry's rows |
| ImeiEntries.ImeiRowsContain | src/components/project/entries/imei_entries/utils.js:8-28 | the rows of any one entry are among all the rows |
| ImeiEntries.ImeiFieldOf | src/components/project/entries/imei_entries/utils.js:126-127 | a sort field other than name, imei or orderName falls back to the date comparator |
| ImeiEntries.ImeiOrderConsistent | src/components/project/entries/imei_entries/utils.js:34-39 | each comparator, the `imei` one comparing codes with missing codes as "", is a total preorder on the rows |
| ImeiEntries.FilterImeisBySearch | src/components/project/entries/imei_entries/utils.js:81-115 | no query, or no terms, returns the rows as they are; otherwise a row is kept iff every term matches the text of its code, name, order name, details (plus a stripped copy) and date, the category not included |
| ImeiEntries.FilterImeisAppend | src/components/project/entries/imei_entries/utils.js:87-114 | the filter decides row by row: it keeps the relative order and distributes over concatenation |
| ImeiEntries.ImeiWordMatches | src/components/project/entries/imei_entries/utils.js:89-112 | a whitespace-free term found in any one searchable text of a row matches the row |
| ImeiEntries.ImeiVariantMatches | src/components/project/entries/imei_entries/utils.js:94-110 | a digits+"gb" term matches a row whose details contain it once whitespace is removed |
| ImeiEntries.ProcessImeiEntries | src/components/project/entries/imei_entries/utils.js:118-136 | the view throws exactly for missing data; otherwise it is flatten, filter, sort a copy, reverse for "desc", a permutation of the filtered rows |
| ImeiEntries.ImeiViewSorted | src/components/project/entries/imei_entries/utils.js:126-133 | the view is ordered by the chosen comparator, and in the opposite order for "desc" |
| Entries.EntryFieldOf | src/components/project/entries/utils.js:58 | a sort field other than name or total_scans falls back to the date comparator |
| Entries.CodeTotalAppend | src/components/project/entries/utils.js:8-12 | the scan count adds up over the products, each counting its codes and a missing list none |
| Entries.NoCodesNoScans | src/components/project/entries/utils.js:8-12 | an entry whose products are all codeless, or that has none, has a scan count of 0 |
| Entries.EntryOrderConsistent | src/components/project/entries/utils.js:4-15 | each comparator (date, name, total_scans) is a total preorder on the entries |
| Entries.FilterBySearch | src/components/project/entries/utils.js:18-48 | an empty query keeps every entry; otherwise an entry is kept iff the lower-cased query, as one substring, is in its name, its formatted date, a product name or a code |
| Entries.FilterIgnoresQueryCase | src/components/project/entries/utils.js:21 | lower-casing the query first changes nothing |
| Entries.CodeMatchKeepsEntry | src/components/project/entries/utils.js:35-40 | a code holding the whole query keeps its entry, whatever the name and date |
| Entries.ProcessEntries | src/components/project/entries/utils.js:51-67 | the view is trim, filter, sort a copy, reverse for "desc"; it is a permutation of the filtered entries |
| Entries.BlankSearchKeepsAll | src/components/project/entries/utils.js:52-55 | a blank search keeps every entry: the view is a reordering of the input |
| Entries.EntryViewSorted | src/components/project/entries/utils.js:58-64 | the view is ordered by the chosen comparator, and in the opposite order for "desc" |
| Customers.SearchCustomers | src/components/project/customers/index.jsx:33-41 | a search blank after trimming keeps everyone; otherwise a customer is kept iff `fullName` or `city` contains the lower-cased, untrimmed search |
| Customers.CustomerOrderConsistent | src/components/project/customers/index.jsx:44-49 | in either direction the comparator on the lower-cased field (missing as "") is a total preorder |
| Customers.ProcessCustomers | src/components/project/customers/index.jsx:30-52 | the result is the filtered copy sorted in place, a permutation of the filtered customers; the input is not modified |
| Customers.CustomerViewSorted | src/components/project/customers/index.jsx:44-49 | the list comes out sorted by the comparator on the chosen field, which keeps the collation order for "asc" and reverses it for any other direction |
| Exports.ComparisonOf | src/components/common/exports/exports.js:5-19 | exactly the six codes eq, ne, lt, lte, gt, gte name a comparison |
| Exports.CheckCondition | src/components/common/exports/exports.js:4-21 | `checkCondition` throws exactly when the condition is not one of the six codes |
| Exports.DecideMirror | src/components/common/exports/exports.js:10-17 | swapping the operands of a relational test turns `<` into `>` and `<=` into `>=` |
| Exports.CodesNamed | src/components/common/exports/exports.js:6-17 | each switch case names its own comparison |
| Exports.LtMirrorsGt | src/components/common/exports/exports.js:10-15 | `a < b` under "lt" equals `b > a` under "gt", for every pair of values (NaN included) |
| Exports.LteMirrorsGte | src/components/common/exports/exports.js:12-17 | `a <= b` under "lte" equals `b >= a` under "gte", for every pair of values |
| Exports.NeNegatesEq | src/components/common/exports/exports.js:6-9 | "ne" never throws and is always the negation of "eq" (`!==` against `===`) |
| Exports.CodeNames | src/components/common/exports/exports.js:4-17 | a known code yields its comparison's decision on `===` and the two relational tests |
| Exports.StringConditions | src/components/common/exports/exports.js:10-17 | between two strings "lt" and "gte" always disagree, and "lte" is "lt" or equality |
| Exports.NestedRead | src/components/common/exports/exports.js:37-39 | `doc[field][field2]` throws exactly when `doc[field]` is null or undefined |
| Exports.EvalRules | src/components/common/exports/exports.js:27-51 | the `for … of` loop over a rule array returns what the first holding rule gives, or the last rule's default |
| Exports.FirstHoldingWins | src/components/common/exports/exports.js:28-48 | after rules that do not hold, the first rule that holds decides the value |
| Exports.NoneHolding | src/components/common/exports/exports.js:50 | when no rule holds the value is the last rule's `default` |
| Exports.FirstRuleWins | src/components/common/exports/exports.js:36-47 | on a document, the first rule whose condition holds decides the column |
| Exports.NoRuleHolds | src/components/common/exports/exports.js:50-51 | on a document where no condition holds, the column is the last rule's `default` |
| Exports.PluckAll | src/components/common/exports/exports.js:71 | the `map` keeps one entry per element, and without `field2` it keeps the elements themselves |
| Exports.ConditionalValue | src/components/common/exports/exports.js:54-66 | a single rule object gives `doc[valueField]` when its condition holds and its default otherwise |
| Exports.MarkerAfterName | src/components/common/exports/exports.js:76-92 | in `f_F` or `f_L` for a plain field name the marker is found right after the name, and the other marker is absent |
| Exports.LengthSpec | src/components/common/exports/exports.js:88-92 | `f_L` gives the array length of `doc[f]`, and 0 for anything that is not an array |
| Exports.DateSpec | src/components/common/exports/exports.js:76-80 | `f_F` gives `doc[f]` formatted "DD/MM/YYYY", and "" when it is falsy |
| Exports.JoinSpecValue | src/components/common/exports/exports.js:68-74 | a pipe specification `f`, pipe, `g` gives "" for a falsy `doc[f]`, throws for a truthy non-array, and joins the elements with ", " |
| Exports.NestedReadings | src/components/common/exports/exports.js:82-86 | the unguarded `f.g` of the spreadsheet and the guarded one of the PDF differ only when `doc[f]` is falsy |
| Exports.MapObjectKeys | src/components/common/exports/exports.js:23-97 | the `reduce` over the column names builds the object the specification function describes |
| Exports.Reducer | src/components/common/exports/exports.js:24-96 | one reducer call extends the object by one key, and a throw ends the whole reduction |
| Exports.SpecValue | src/components/common/exports/exports.js:25-94 | the branch chain over a specification (rule array, rule object, pipe, `_F`, `.`, `_L`, plain) gives its unguarded value |
| Exports.ReduceStep | src/components/common/exports/exports.js:24-96 | after a successful prefix, the next key is written with its specification's value, or its throw ends the reduction |
| Exports.ReduceFailureSticks | src/components/common/exports/exports.js:24-96 | once a key throws, the whole reduction throws with that error |
| Exports.ReduceKeys | src/components/common/exports/exports.js:24-96 | the object's keys are exactly the column names |
| Exports.ReduceValue | src/components/common/exports/exports.js:24-96 | each column holds the value of the specification at its index, the last one when a name repeats |
| Exports.ReduceSucceeds | src/components/common/exports/exports.js:24-96 | with a specification for every column and none that throws, the object is built |
| Exports.MapKeysFailureSticks | src/components/common/exports/exports.js:23-97 | `mapObjectKeys`: once a key throws the result is that throw |
| Exports.MapKeysKeys | src/components/common/exports/exports.js:23-97 | `mapObjectKeys`: the row object's keys are exactly the column names |
| Exports.MapKeysValue | src/components/common/exports/exports.js:23-97 | `mapObjectKeys`: each column holds its specification's unguarded value |
| Exports.MapKeysSucceeds | src/components/common/exports/exports.js:23-97 | `mapObjectKeys` builds the row when no specification throws |
| Exports.CollectAll | src/components/common/exports/exports.js:100-160 | a collected list has one value per specification |
| Exports.CollectAllAt | src/components/common/exports/exports.js:100-160 | a collected list holds, at each position, the value of the specification there |
| Exports.GetValuesFromDoc | src/components/common/exports/exports.js:99-161 | `getValuesFromDoc` gives one value per column specification |
| Exports.GetValuesAt | src/components/common/exports/exports.js:99-161 | position `i` of the PDF row is the guarded value of specification `i` |
| Exports.RowsAgree | src/components/common/exports/exports.js:23-161 | apart from `f.g` specifications, the PDF row's value `i` equals the spreadsheet row's column `i` |
| ExportSort.FieldTypeOf | src/components/common/exports/hooks/useExports.js:11-23 | exactly "string", "number" and "date" are supported field types |
| ExportSort.SortedRows | src/components/common/exports/hooks/useExports.js:6-25 | `sortByField` throws exactly when two or more rows meet an unsupported field type; otherwise the result is a permutation of the rows, unchanged below two rows |
| ExportSort.SortByField | src/components/common/exports/hooks/useExports.js:6-25 | sorting in place returns the same array holding the sorted rows; a throw leaves the array as it was |
| ExportSort.TextOrderConsistent | src/components/common/exports/hooks/useExports.js:11-16 | the lower-cased string comparator is a consistent total preorder on any rows |
| ExportSort.NumberOrderConsistent | src/components/common/exports/hooks/useExports.js:17-18 | `Number(a) - Number(b)` is a consistent comparator when every field converts to a number |
| ExportSort.DateOrderConsistent | src/components/common/exports/hooks/useExports.js:19-20 | the date difference is a consistent comparator when every field is a valid date |
| ExportSort.SortedRowsOrdered | src/components/common/exports/hooks/useExports.js:6-25 | the sorted rows are in the field's order: always for text, for numbers and dates when they all convert |
| ExportSort.MapAll | src/components/common/exports/hooks/useExports.js:37-39 | `list.map(fields)` has one row per document, each the document's `mapObjectKeys` row |
| ExportSort.MapAllFailureSticks | src/components/common/exports/hooks/useExports.js:37-39 | a document that throws ends the mapping whatever follows it |
| ExportSort.ExportExcel | src/components/common/exports/hooks/useExports.js:36-47 | the spreadsheet's rows are the mapped documents, then sorted by the row objects' field |
| ExportSort.ExcelRowsShape | src/components/common/exports/hooks/useExports.js:36-43 | the spreadsheet rows are a permutation of the mapped rows, each keyed by exactly the column names |
| ExportSort.ValuesAll | src/components/common/exports/hooks/useExports.js:62-64 | `data.map(fieldsPdf)` has one value array per document, each the document's `getValuesFromDoc` row |
| ExportSort.ValuesAllFailureSticks | src/components/common/exports/hooks/useExports.js:62-64 | a document that throws ends the mapping whatever follows it |
| ExportSort.ExportPdf | src/components/common/exports/hooks/useExports.js:49-69 | the PDF body is the copied list sorted by the documents' field, then turned into value arrays; the caller's list is not reordered |
| ExportSort.CollectValues | src/components/common/exports/hooks/useExports.js:62-64 | the loop over the sorted documents yields the value arrays, stopping at the first throw |
| ExportSort.PdfRowsShape | src/components/common/exports/hooks/useExports.js:58-67 | the PDF has one row per document, each with one value per column |
| ExportSort.MapAllSucceeds | src/components/common/exports/hooks/useExports.js:37-39 | when every document maps, the whole mapping succeeds |
| ExportSort.MapAllOfRows | src/components/common/exports/hooks/useExports.js:37-39 | when every document maps, the mapping is the row function applied element by element |
| ExportSort.FieldCompareByField | src/components/common/exports/hooks/useExports.js:7-20 | the comparator depends only on the two rows' values of the sort field |
| ExportSort.RowKeepsField | src/components/common/exports/exports.js:94 | a column named `field` with the plain specification `field` copies the document's field into the row |
| ExportSort.SortedDocsMap | src/components/common/exports/hooks/useExports.js:60-64 | every document of a reordering of the list maps when the list's documents do |
| ExportSort.SameOrderWhenColumnIsField | src/components/common/exports/hooks/useExports.js:41-64 | when the sort field is also a plain column of itself, the spreadsheet lists the rows in the PDF's document order |
| EntryForm.FieldNameInjective | src/components/project/create_edit_entry/index.jsx:35-52 | the six checked fields have six distinct error keys |
| EntryForm.ValidateProduct | src/components/project/create_edit_entry/index.jsx:32-55 | `validateProduct` gives null exactly for a complete product, and otherwise an error under the key of exactly each failing field, with that field's message |
| EntryForm.ProductKeyInjective | src/components/project/create_edit_entry/index.jsx:80-88 | within one product the error keys `products.i.field` are distinct |
| EntryForm.UnionUpToKeys | src/components/project/create_edit_entry/index.jsx:80-88 | a key of the merged per-product errors is a key of one product's errors, and every such key is one |
| EntryForm.UnionUpToEmpty | src/components/project/create_edit_entry/index.jsx:80-88 | the merged errors are empty exactly when every product's are |
| EntryForm.ItemErrorsHas | src/components/project/create_edit_entry/index.jsx:80-88 | a field that fails the rules has its key among the product's errors |
| EntryForm.ItemErrorsEmpty | src/components/project/create_edit_entry/index.jsx:80-88 | the rules give a product no error exactly when `validateProduct` accepts it |
| EntryForm.UnionEmpty | src/components/project/create_edit_entry/index.jsx:80-88 | two merged error maps are empty exactly when both are |
| EntryForm.ProductsErrorsEmpty | src/components/project/create_edit_entry/index.jsx:80-88 | the products have no rule error exactly when every product is complete |
| EntryForm.FormErrorsEmpty | src/components/project/create_edit_entry/index.jsx:77-90 | `form.validate()` reports no error exactly for a named, dated form with complete products |
| EntryForm.IncompleteCount | src/components/project/create_edit_entry/index.jsx:224-226 | the count of rejected products is 0 exactly when every product is complete |
| EntryForm.EntryFormState.constructor | src/components/project/create_edit_entry/index.jsx:64-76 | the form starts with no name, today's date, no products, no errors, no scanner target and no code |
| EntryForm.EntryFormState.OpenScanner | src/components/project/create_edit_entry/index.jsx:93-99 | scanned codes now go to the chosen product, and nothing else changes |
| EntryForm.EntryFormState.CloseScanner | src/components/project/create_edit_entry/index.jsx:102-105 | no product receives scanned codes any more, and nothing else changes |
| EntryForm.EntryFormState.HandleScannedCode | src/components/project/create_edit_entry/index.jsx:108-133 | with a product selected, a new code is appended to its codes and the error stored under `products.<i>.codes` is cleared; a known code, or no product selected, changes nothing; codes stay distinct |
| EntryForm.EntryFormState.ValidateForm | src/components/project/create_edit_entry/index.jsx:220-254 | the rules' errors are stored; the notice is the verdict on the form, and the form is accepted exactly when that verdict is acceptance |
| EntryForm.EntryFormState.HandleSubmit | src/components/project/create_edit_entry/index.jsx:256-268 | a form the verdict rejects is refused with that verdict as its notice and the code dialog untouched; an accepted new entry becomes a create request carrying the form values; an accepted edit opens the code dialog with an empty code and no error; a submit never sends an edit on its own |
| EntryForm.EntryFormState.SetOtpValue | src/components/project/create_edit_entry/index.jsx:68 | typing into the code dialog sets the code only |
| EntryForm.EntryFormState.HandleOtpConfirm | src/components/project/create_edit_entry/index.jsx:270-282 | the edit, with the form values and the entry id, is sent exactly when the code is "788983"; a wrong code sets the error flag and sends nothing |
| EntryForm.VerdictSpec | src/components/project/create_edit_entry/index.jsx:220-254 | the form is accepted exactly when every rule passes and it has a product; a rejection always carries a notice: the incomplete-product count first, then the party fields, then the empty list |
| EntryForm.EntryFormState.OpenCodeDialog | src/components/project/create_edit_entry/index.jsx:261-263 | the code dialog opens with an empty code and no error, nothing else on the form changing |
| ProductsSection.RemoveAt | src/components/project/create_edit_entry/Section2Products.jsx:52 | removing an index in range shortens the list by one and shifts the later items down; another index changes nothing |
| ProductsSection.ProductsSectionState.constructor | src/components/project/create_edit_entry/Section2Products.jsx:13 | no card is expanded at first |
| ProductsSection.ProductsSectionState.Toggle | src/components/project/create_edit_entry/Section2Products.jsx:23-25 | a card is expanded exactly when it was not, and no other card is |
| ProductsSection.ProductsSectionState.AddProduct | src/components/project/create_edit_entry/Section2Products.jsx:28-39 | a blank product is appended and its card, the last one, is expanded; nothing else in the form changes |
| ProductsSection.ProductsSectionState.UpdateProduct | src/components/project/create_edit_entry/Section2Products.jsx:42-47 | a card's edit replaces its product and clears the error stored under the item's own key `products.<i>`; nothing else changes |
| ProductsSection.ProductsSectionState.RemoveProduct | src/components/project/create_edit_entry/Section2Products.jsx:50-61 | the product is removed and the list errors are re-indexed with it; its expanded card is cleared, and any other expanded card still shows the same product |
| ProductsSection.PrefixDetermines | src/components/project/create_edit_entry/Section2Products.jsx:92 | no key starts with the prefixes of two different products: the trailing dot keeps "products.1." apart from "products.10." |
| ProductsSection.StripInjective | src/components/project/create_edit_entry/Section2Products.jsx:93 | two keys with the same prefix and the same rest are the same key |
| ProductsSection.CardErrors | src/components/project/create_edit_entry/Section2Products.jsx:89-96 | card `index` shows exactly the errors keyed with its prefix, each under the rest of its key |
| ProductsSection.ReplacePrefix | src/components/project/create_edit_entry/Section2Products.jsx:93 | `key.replace(prefix, "")` on a key that starts with the prefix drops exactly the prefix |
| ProductsSection.ExtractCardErrors | src/components/project/create_edit_entry/Section2Products.jsx:89-96 | the `forEach` over the error keys fills exactly the card's errors |
| ProductsSection.ProductsErrorsKey | src/components/project/create_edit_entry/index.jsx:80-88 | every product rule error is keyed `products.j.field` for a product j and a field it fails |
| ProductsSection.ProductsErrorsHas | src/components/project/create_edit_entry/index.jsx:80-88 | a failing field of product i has its key among the rule errors |
| ProductsSection.PartyKeys | src/components/project/create_edit_entry/index.jsx:78-79 | the party fields' error keys are "name" and "date" |
| ProductsSection.FieldNamed | src/components/project/create_edit_entry/index.jsx:81-87 | every product field key names one of the checked fields |
| ProductsSection.CardKey | src/components/project/create_edit_entry/Section2Products.jsx:89-96 | a form error under card i's prefix is the key of a field product i fails |
| ProductsSection.CardFieldShown | src/components/project/create_edit_entry/Section2Products.jsx:87-105 | card i shows a field exactly when product i fails it |
| ProductsSection.CardShowsFieldsOnly | src/components/project/create_edit_entry/Section2Products.jsx:87-105 | a card shows only product field names |
| ProductsSection.CardShowsProductErrors | src/components/project/create_edit_entry/Section2Products.jsx:87-105 | a card shows exactly its product's failing fields, and nothing exactly when `validateProduct` accepts the product |
| ProductsSection.ParseProductKey | src/components/project/create_edit_entry/Section2Products.jsx:91-95 | a key written for item `j` and field `f` reads back as item `j` and field `f` |
| ProductsSection.ParsedKey | src/components/project/create_edit_entry/Section2Products.jsx:91-95 | a key that reads as an item and a field is exactly the key written for them |
| ProductsSection.MovedKeyBack | src/components/project/create_edit_entry/Section2Products.jsx:50-61 | a key kept by a removal can be traced back to the key it came from |
| ProductsSection.MovedKeyInjective | src/components/project/create_edit_entry/Section2Products.jsx:50-61 | a removal never sends two error keys to the same key |
| ProductsSection.RemoveItemErrorsHas | src/components/project/create_edit_entry/Section2Products.jsx:50-61 | every error key the removal keeps appears, moved, with its message |
| ProductsSection.RemoveItemErrorsFrom | src/components/project/create_edit_entry/Section2Products.jsx:50-61 | every error key after the removal came from a kept key, with its message |
| ProductsSection.RemovedCardField | src/components/project/create_edit_entry/Section2Products.jsx:87-96 | after a removal, field `f` of card `j` shows what field `f` of its source card showed before |
| ProductsSection.RemoveItemErrorsCards | src/components/project/create_edit_entry/Section2Products.jsx:87-96 | after a removal, earlier cards show their own errors and later cards show the errors of the card after them |
| ProductsSection.RemoveItemErrorsOthers | src/components/project/create_edit_entry/Section2Products.jsx:50-61 | errors that name no item, such as the party's, are kept as they are |
| ProductsSection.RemovalKeepsCardErrors | src/components/project/create_edit_entry/Section2Products.jsx:87-96 | after removing a validated product, every card still shows exactly the failing fields of the product it now holds |
| ProductsSection.CodesKeyOnCard | src/components/project/create_edit_entry/Section2Products.jsx:91-95 | the key of a field on card `j` is the codes key of item `i` exactly for the codes field of that same item |
| ProductsSection.ClearCodesErrorCards | src/components/project/create_edit_entry/index.jsx:121-124 | clearing the codes error of item `i` takes `codes` off card `i` and leaves every other field of every card, with its message, as it was |
| ProductsSection.AddCodeFieldOk | src/components/project/create_edit_entry/index.jsx:121-124 | adding a code makes the codes field acceptable and leaves every other field's verdict as it was |
| ProductsSection.ClearedCardShows | src/components/project/create_edit_entry/index.jsx:121-124 | a card showing exactly its product's failing fields keeps doing so when the product takes a code and its codes error is cleared |
| ProductsSection.ScannedCodeKeepsCardErrors | src/components/project/create_edit_entry/index.jsx:121-124 | after a validated form takes a new code into a product, every card still shows exactly the failing fields of its product |
| ProductsSection.ItemKeyOnNoCard | src/components/project/create_edit_entry/Section2Products.jsx:91-95 | no card field's key is the key of a whole item, so a card never reads that key |
| ProductsSection.UpdateKeepsCards | src/components/project/create_edit_entry/Section2Products.jsx:42-47 | clearing the key of a whole item leaves every card's errors, with their messages, as they were |
| BarcodeScanner.CleanCode | src/components/project/create_edit_entry/BarcodeScanner.jsx:28 | the cleaned code has no whitespace and is never longer than the input; a missing input gives "" |
| BarcodeScanner.CleanCodeTrimmed | src/components/project/create_edit_entry/BarcodeScanner.jsx:28 | the final `trim()` finds nothing left to trim |
| BarcodeScanner.CleanCodeOfClean | src/components/project/create_edit_entry/BarcodeScanner.jsx:28 | a code without whitespace is kept as it is |
| BarcodeScanner.CleanCodeIdempotent | src/components/project/create_edit_entry/BarcodeScanner.jsx:28 | cleaning a cleaned code changes nothing |
| BarcodeScanner.CleanCodeIgnoresSpace | src/components/project/create_edit_entry/BarcodeScanner.jsx:28 | a whitespace character typed anywhere inside a code does not change the cleaned code |
| BarcodeScanner.FindFirst | src/components/project/create_edit_entry/BarcodeScanner.jsx:83-87 | `find` yields an index inside the list or nothing |
| BarcodeScanner.FindFirstSpec | src/components/project/create_edit_entry/BarcodeScanner.jsx:83-87 | `find` yields the first element satisfying the predicate, and nothing exactly when none does |
| BarcodeScanner.BackCameras | src/components/project/create_edit_entry/BarcodeScanner.jsx:70-77 | the back-camera filter keeps only listed cameras |
| BarcodeScanner.BackCamerasSpec | src/components/project/create_edit_entry/BarcodeScanner.jsx:70-77 | a camera is kept exactly when it is listed and its lower-cased label mentions back, rear or environment |
| BarcodeScanner.Candidates | src/components/project/create_edit_entry/BarcodeScanner.jsx:79-80 | the candidates are listed cameras, and there is one whenever any camera is listed |
| BarcodeScanner.CandidatesAreBack | src/components/project/create_edit_entry/BarcodeScanner.jsx:79-80 | the candidates are all back cameras when the list has one, and the whole list otherwise |
| BarcodeScanner.DefaultCamera | src/components/project/create_edit_entry/BarcodeScanner.jsx:89-91 | a default camera exists exactly when the list is non-empty, and it is one of the listed cameras |
| BarcodeScanner.DefaultPrefersBack | src/components/project/create_edit_entry/BarcodeScanner.jsx:69-91 | a back camera is chosen whenever the list has one |
| BarcodeScanner.DefaultPrefersMain | src/components/project/create_edit_entry/BarcodeScanner.jsx:82-90 | the first non-ultrawide candidate is chosen when there is one; otherwise the first candidate |
| BarcodeScanner.ReplaceFirstIgnoreCase | src/components/project/create_edit_entry/BarcodeScanner.jsx:258-260 | a case-insensitive `replace` with a literal pattern changes nothing without a match, else replaces one matching occurrence |
| BarcodeScanner.DigitRunEnd | src/components/project/create_edit_entry/BarcodeScanner.jsx:261 | the greedy digit run ends at the first non-digit |
| BarcodeScanner.SpaceRunEnd | src/components/project/create_edit_entry/BarcodeScanner.jsx:261-262 | the greedy whitespace run ends at the first non-whitespace character |
| BarcodeScanner.DigitPairAt | src/components/project/create_edit_entry/BarcodeScanner.jsx:261 | a digit-pair match is non-empty and contains the comma |
| BarcodeScanner.RemoveDigitPairs | src/components/project/create_edit_entry/BarcodeScanner.jsx:261 | the global replace never lengthens the label and changes nothing without a comma |
| BarcodeScanner.EmptyParensAt | src/components/project/create_edit_entry/BarcodeScanner.jsx:262 | an empty-parentheses match starts with "(" and is non-empty |
| BarcodeScanner.RemoveEmptyParens | src/components/project/create_edit_entry/BarcodeScanner.jsx:262 | the global replace never lengthens the label and changes nothing without "(" |
| BarcodeScanner.FallbackLabel | src/components/project/create_edit_entry/BarcodeScanner.jsx:255 | the fallback label is "Camera " followed by the position |
| BarcodeScanner.OptionLabel | src/components/project/create_edit_entry/BarcodeScanner.jsx:255-266 | an option label is never empty: the shortened label, or the fallback when shortening leaves nothing |
| BarcodeScanner.CameraOptions | src/components/project/create_edit_entry/BarcodeScanner.jsx:254-268 | one option per camera, in order, with the camera's id and a non-empty label |
| BarcodeScanner.NotContainsByFirstChar | src/components/project/create_edit_entry/BarcodeScanner.jsx:258-260 | a pattern whose first character does not occur past the start, and is not a prefix, is absent |
| BarcodeScanner.ShortenUnchanged | src/components/project/create_edit_entry/BarcodeScanner.jsx:257-263 | a label with nothing to replace, remove or trim is kept as it is |
| BarcodeScanner.FallbackLowerShape | src/components/project/create_edit_entry/BarcodeScanner.jsx:255 | the lower-cased fallback has no "f", "," or "(", and "c" only at its start |
| BarcodeScanner.UnlabelledCameraOption | src/components/project/create_edit_entry/BarcodeScanner.jsx:255-266 | a camera without a label shows "Camera n", counted from 1 |
| BarcodeScanner.ScannerState.constructor | src/components/project/create_edit_entry/BarcodeScanner.jsx:46-56 | the dialog opens paused, with no code or warning, the torch off, not starting, no camera error, loading the cameras, its live code list being the product's codes |
| BarcodeScanner.ScannerState.CamerasLoaded | src/components/project/create_edit_entry/BarcodeScanner.jsx:62-100 | a non-empty camera list is stored, the default camera is selected and scanning starts; an empty one changes only the loading flag |
| BarcodeScanner.ScannerState.CamerasFailed | src/components/project/create_edit_entry/BarcodeScanner.jsx:95-99 | a failed camera listing sets the camera error and ends loading, and nothing else changes |
| BarcodeScanner.ScannerState.OnDecoded | src/components/project/create_edit_entry/BarcodeScanner.jsx:131-145 | a cleaned code of five characters or more becomes the pending code and stops scanning, with the duplicate warning exactly when the product's current codes, including those added in this session, already hold it; shorter ones are ignored |
| BarcodeScanner.ScannerState.HandleManualChange | src/components/project/create_edit_entry/BarcodeScanner.jsx:230-241 | a typed value is cleaned into the pending code, with the duplicate warning exactly when the product's current codes already hold it |
| BarcodeScanner.ScannerState.ResetScanner | src/components/project/create_edit_entry/BarcodeScanner.jsx:217-221 | no pending code, no warning, scanning again |
| BarcodeScanner.ScannerState.HandleConfirm | src/components/project/create_edit_entry/BarcodeScanner.jsx:223-228 | a pending code without a warning is handed to `onScan`, added to the product's codes and the scanner reset; it was acceptable against the codes of the moment, so no code is ever handed back twice in one session |
| BarcodeScanner.ScannerState.HandleCameraChange | src/components/project/create_edit_entry/BarcodeScanner.jsx:177-196 | an empty or unchanged id does nothing; another id is selected and the scanner restarts when it was scanning |
| BarcodeScanner.ScannerState.ToggleScanning | src/components/project/create_edit_entry/BarcodeScanner.jsx:199-215 | scanning flips, and stopping also turns the torch off |
| BarcodeScanner.FreshRunSnoc | src/components/project/create_edit_entry/BarcodeScanner.jsx:223-228 | handing back a code that is acceptable against the product's current codes keeps the session's run of codes fresh |
| BarcodeScanner.FreshRunDistinct | src/components/project/create_edit_entry/BarcodeScanner.jsx:131-145 | the codes a session hands back are pairwise distinct, none was already on the product, each is non-empty and has no blank |
| ProductSelector.FilteredProducts | src/components/project/create_edit_entry/ProductSelector.jsx:36-41 | a missing or empty list gives [], an empty search the whole list, and otherwise exactly the products whose lower-cased name contains the lower-cased search |
| ProductSelector.FilterIgnoresCase | src/components/project/create_edit_entry/ProductSelector.jsx:39-40 | searching "ABC" and "abc" lists the same products |
| ProductSelector.FilterIdempotentSearch | src/components/project/create_edit_entry/ProductSelector.jsx:36-41 | searching the listed products again for the same text lists them all |
| ProductSelector.NarrowingSearch | src/components/project/create_edit_entry/ProductSelector.jsx:39-40 | typing more text never lists a product the shorter text did not |
| ProductSelector.SelectorFor | src/components/project/create_edit_entry/ProductSelector.jsx:64-127 | "Other" gets a free-text input and every other category the picker, disabled exactly when the caller disables it or no category is chosen, with one option per filtered product |
| ProductSelector.OtherIgnoresCatalogue | src/components/project/create_edit_entry/ProductSelector.jsx:64-94 | for "Other" the catalogue and the search play no part |
| ProductSelector.PickerListsFiltered | src/components/project/create_edit_entry/ProductSelector.jsx:44-50 | the picker lists the filtered products' names, in order |
| ProtocolHandler.ImeiLoadedNotice | src/components/pwa/ProtocolHandler.jsx:63-67 | the scan notification is titled "IMEI Loaded" and is green |
| ProtocolHandler.FirstMatch | src/components/pwa/ProtocolHandler.jsx:26 | a found match position is at or after the start and the pattern matches there |
| ProtocolHandler.FirstMatchSpec | src/components/pwa/ProtocolHandler.jsx:26 | the search finds the leftmost match, and finds none only when there is none |
| ProtocolHandler.LineEnd | src/components/pwa/ProtocolHandler.jsx:26 | the greedy `.+` stops at the first line terminator, or at the end |
| ProtocolHandler.LinkPath | src/components/pwa/ProtocolHandler.jsx:26-38 | there is a capture exactly when the pattern matches, and it is non-empty and free of line terminators |
| ProtocolHandler.Dispatch | src/components/pwa/ProtocolHandler.jsx:39-83 | entry with an id opens that entry; create, models and imei open their pages; scan with an IMEI opens the form with it pre-filled and a notice; anything else goes home |
| ProtocolHandler.HandleLink | src/components/pwa/ProtocolHandler.jsx:19-93 | a decoding error goes home with the error notice, text without a link goes home with "Invalid Link", and nothing else shows that notice |
| ProtocolHandler.InvalidLinkGoesHome | src/components/pwa/ProtocolHandler.jsx:28-36 | text where the pattern matches nowhere goes home with "Invalid Link" |
| ProtocolHandler.JoinAvoids | src/components/pwa/ProtocolHandler.jsx:39 | a character absent from the parts and the separator is absent from their join |
| ProtocolHandler.LinkRoundTrip | src/components/pwa/ProtocolHandler.jsx:25-83 | a link built from plain segments joined with "/" is dispatched on exactly those segments |
| ProtocolHandler.JoinedPathPlain | src/components/pwa/ProtocolHandler.jsx:38-39 | plain segments join to a non-empty one-line path |
| ProtocolHandler.PrefixedLinkPath | src/components/pwa/ProtocolHandler.jsx:26-38 | the capture of the prefix followed by a one-line path is that path |
| ProtocolHandler.LineEndNone | src/components/pwa/ProtocolHandler.jsx:26 | with no line terminator the greedy run reaches the end |
| ProtocolHandler.EntryLink | src/components/pwa/ProtocolHandler.jsx:42-45 | `web+marvans://entry/<id>` opens that entry |
| ProtocolHandler.ScanLink | src/components/pwa/ProtocolHandler.jsx:56-67 | `web+marvans://scan/<imei>` opens the create form with the IMEI pre-filled and the "IMEI Loaded" notice |
| SyncQueue.Load | src/services/syncQueue.js:10-17 | `getSyncQueue` gives the saved queue, and [] when nothing is stored or the text does not parse |
| SyncQueue.RemoveId | src/services/syncQueue.js:46 | the filter keeps exactly the items whose id differs |
| SyncQueue.FirstWithId | src/services/syncQueue.js:58 | `find` yields the first item with the id, and nothing exactly when no item has it |
| SyncQueue.BumpRetry | src/services/syncQueue.js:56-65 | the first item with the id gets one more retry stamped with the time, nothing else about it or any other item changes, and an unknown id changes nothing |
| SyncQueue.RemoveAdded | src/services/syncQueue.js:25-53 | removing an item appended under a fresh id gives back the queue it was appended to |
| SyncQueue.RemoveOnly | src/services/syncQueue.js:44-53 | removing an id only one item has drops exactly that item, keeping the rest in order |
| SyncQueue.KeepsOthers | src/services/syncQueue.js:46 | a queue without the id passes the filter whole |
| SyncQueue.BumpOnly | src/services/syncQueue.js:56-65 | retrying an id only one item has retries exactly that item, in place |
| SyncQueue.ProcessPrefix | src/services/syncQueue.js:89-105 | after n turns the successes and failures together are at most n |
| SyncQueue.SyncOutcome | src/services/syncQueue.js:84-113 | an empty queue short-cuts with success and nothing processed; otherwise success holds exactly when no handler threw |
| SyncQueue.Survivors | src/services/syncQueue.js:92-105 | the items that stay have ids of the items handled so far |
| SyncQueue.DistinctSplit | src/services/syncQueue.js:92-105 | with distinct ids an item's id is absent before and after it |
| SyncQueue.ProcessPrefixShape | src/services/syncQueue.js:92-105 | with distinct ids, after n turns storage holds the survivors of the first n items followed by the untouched rest |
| SyncQueue.StepShape | src/services/syncQueue.js:93-104 | one turn replaces the handled item by its fate: removed, kept with one more retry, or kept as it is |
| SyncQueue.ProcessPrefixCounts | src/services/syncQueue.js:89-104 | `processed` counts the successful handlers and `errors` lists the failures' ids in order |
| SyncQueue.DrainResult | src/services/syncQueue.js:84-113 | with distinct ids, draining removes the synced items, retries the failed ones, keeps those without a handler, and reports counts, failures and what is left |
| SyncQueue.SyncQueueStore.constructor | src/services/syncQueue.js:7 | the store starts from what storage holds |
| SyncQueue.SyncQueueStore.Add | src/services/syncQueue.js:25-41 | the new item has no retries, is appended and saved, and removing its fresh id gives back the old queue |
| SyncQueue.SyncQueueStore.Remove | src/services/syncQueue.js:44-53 | the remaining queue is saved and returned, and no item with the id is left |
| SyncQueue.SyncQueueStore.IncrementRetry | src/services/syncQueue.js:56-65 | the retried queue is returned, and saved only when an item has the id |
| SyncQueue.SyncQueueStore.PendingCount | src/services/syncQueue.js:68-70 | the count is the loaded queue's length, 0 when nothing valid is stored |
| SyncQueue.SyncQueueStore.Clear | src/services/syncQueue.js:116-119 | the stored queue is removed and nothing is pending |
| SyncQueue.SyncQueueStore.Process | src/services/syncQueue.js:84-113 | the result is the drain's outcome, and storage ends as the loop leaves it (unchanged for an empty queue) |
| UiStore.Step | src/store/uiStore.js:3-13 | search actions touch only the search flag and drawer actions only the drawer fields; open, close and toggle set what their names say, and closing the drawer clears its configuration |
| UiStore.ToggleTwice | src/store/uiStore.js:7 | toggling the search twice restores the state |
| UiStore.SearchActions | src/store/uiStore.js:5-7 | the search actions of a run, in order |
| UiStore.DrawerActions | src/store/uiStore.js:11-12 | the drawer actions of a run, in order |
| UiStore.HalvesIndependent | src/store/uiStore.js:3-13 | after any run the search flag depends only on the search actions, and the drawer fields only on the drawer actions |
| UiStore.DrawerUnaffected | src/store/uiStore.js:11-12 | drawer actions see only the drawer fields of the state they start from |
| UiStore.SearchUnaffected | src/store/uiStore.js:5-7 | search actions see only the search flag of the state they start from |
| UiStore.ReachableClosedDrawerEmpty | src/store/uiStore.js:9-12 | a closed drawer holds no configuration in every state reachable from one where that holds, the initial state included |
| UiStore.Store.constructor | src/store/uiStore.js:4-10 | the store starts with the search and the drawer closed and no configuration |
| UiStore.Store.OpenSearch | src/store/uiStore.js:5 | `openSearch` is one step of the action semantics |
| UiStore.Store.CloseSearch | src/store/uiStore.js:6 | `closeSearch` is one step of the action semantics |
| UiStore.Store.ToggleSearch | src/store/uiStore.js:7 | `toggleSearch` is one step of the action semantics |
| UiStore.Store.OpenDrawer | src/store/uiStore.js:11 | `openDrawer(config)` is one step of the action semantics |
| UiStore.Store.CloseDrawer | src/store/uiStore.js:12 | `closeDrawer` is one step of the action semantics |
| ShareHandler.OrEmpty | src/components/pwa/ShareHandler.jsx:19-21 | a missing query parameter reads as "", a present one as itself |
| ShareHandler.ScanImeis | src/components/pwa/ShareHandler.jsx:31-32 | every text the global scan finds is fifteen digits |
| ShareHandler.NoMatchInside | src/components/pwa/ShareHandler.jsx:31 | no match of the word-bounded fifteen-digit pattern starts inside another match |
| ShareHandler.SkipInside | src/components/pwa/ShareHandler.jsx:31-32 | positions inside a match contribute nothing to the matches |
| ShareHandler.RunsNearEnd | src/components/pwa/ShareHandler.jsx:31 | fewer than fifteen characters from the end, nothing matches |
| ShareHandler.ScanFindsAllRuns | src/components/pwa/ShareHandler.jsx:31-32 | the global scan, which resumes after each match, finds exactly the matching positions in order |
| ShareHandler.RunsSpec | src/components/pwa/ShareHandler.jsx:31-32 | a text is listed exactly when it is the text of a matching position |
| ShareHandler.FoundImeis | src/components/pwa/ShareHandler.jsx:32 | `match(...)`, or [] when nothing matches, yields only fifteen-digit texts |
| ShareHandler.FoundExactly | src/components/pwa/ShareHandler.jsx:28-32 | a text is found exactly when some position of the combined text matches with it |
| ShareHandler.FifteenDigits | src/components/pwa/ShareHandler.jsx:31-32 | fifteen digits on their own are one IMEI |
| ShareHandler.SixteenDigits | src/components/pwa/ShareHandler.jsx:31-32 | sixteen digits hold no IMEI, since the word boundaries fail inside a longer run |
| ShareHandler.GluedToWord | src/components/pwa/ShareHandler.jsx:31-32 | fifteen digits next to a letter or underscore hold no IMEI |
| ShareHandler.DetectedNotice | src/components/pwa/ShareHandler.jsx:42-46 | the notification is titled "IMEI Detected" and is green |
| ShareHandler.ProcessShare | src/components/pwa/ShareHandler.jsx:17-56 | the stored data is the three parameters with the IMEIs found in their trimmed, space-joined text, and the notification is shown exactly when one was found |
| ShareHandler.CreateEntry | src/components/pwa/ShareHandler.jsx:58-63 | `handleCreateEntry` opens the create form with the found IMEIs, or [] before anything was processed |
| ShareHandler.SharedImeiReachesForm | src/components/pwa/ShareHandler.jsx:19-63 | an IMEI shared alone in the text reaches the create form as the only pre-filled IMEI |
| ShareHandler.TrimPadded | src/components/pwa/ShareHandler.jsx:28 | the single spaces around text without whitespace are trimmed away |
| DateRange.PairMembers | src/components/shell/header/date_range.jsx:16-22 | `range[0]` and `range[1]` of a two-element range are its two ends |
| DateRange.FormatDateRange | src/components/shell/header/date_range.jsx:15-24 | "Select dates" without a range or a start; the start alone without an end; else "start - end", each in "D MMM" |
| DateRange.LabelOfPair | src/components/shell/header/date_range.jsx:15-24 | the label of a [start, end] pair in each of the three cases |
| DateRange.ClearedLabel | src/components/shell/header/date_range.jsx:16 | the cleared range [null, null] is labelled "Select dates" |
| DateRange.Mirror | src/components/shell/header/date_range.jsx:28 | the working range is the value, or [null, null] when the value is falsy; it is never nullish and keeps a truthy value |
| DateRange.Picker.constructor | src/components/shell/header/date_range.jsx:27-28 | the picker starts closed, with the temp range mirroring the value |
| DateRange.Picker.SetValue | src/components/shell/header/date_range.jsx:30-35 | a new value is copied into the temp range only while the popover is closed |
| DateRange.Picker.Toggle | src/components/shell/header/date_range.jsx:74 | the trigger flips the popover; closing it re-syncs the temp range and so discards the edits |
| DateRange.Picker.Close | src/components/shell/header/date_range.jsx:49 | Cancel or the popover's close shuts it and discards the edits |
| DateRange.Picker.Pick | src/components/shell/header/date_range.jsx:89-94 | the calendar sets the temp range, and Apply is enabled exactly when the start is truthy |
| DateRange.Picker.Clear | src/components/shell/header/date_range.jsx:42-44 | Clear sets [null, null], disables Apply and does not call `onChange` |
| DateRange.Picker.ClickApply | src/components/shell/header/date_range.jsx:37-40 | a disabled Apply does nothing; otherwise the temp range goes to `onChange` (when given) and the popover closes; every range passed on has a start |
| ScanBadge.PaletteColorsInjective | src/components/common/ScanBadge.jsx:5-40 | the five colour sets are pairwise different |
| ScanBadge.BucketOf | src/components/common/ScanBadge.jsx:5-40 | exactly 0 is gray; any other count up to 5 is blue; up to 15 green; up to 30 amber; everything else pink, comparisons as JavaScript's `===` and `<=` |
| ScanBadge.BadgeColors | src/components/common/ScanBadge.jsx:42-43 | a missing count is 0 and so gray; otherwise the count's bucket |
| ScanBadge.BucketMonotone | src/components/common/ScanBadge.jsx:13-39 | for positive counts the palette never gets less intense as the count grows |
| ScanBadge.NumericBuckets | src/components/common/ScanBadge.jsx:5-40 | on numbers the buckets are {0}, up to 5 without 0, (5, 15], (15, 30] and above 30 |
| ScanBadge.BoundariesInclusive | src/components/common/ScanBadge.jsx:13-33 | 5, 15 and 30 belong to the lower bucket and the next count to the upper one; negative counts are blue |
| ScanBadge.SizeConfigFor | src/components/common/ScanBadge.jsx:42-51 | "sm" and "lg" have their own sizes; a missing or any other size falls back to "md" |
| Json.ToStr | src/components/common/sort/index.js:59 | `String(v)` keeps a string as it is and writes a non-negative number in decimal digits |
| Json.DigitValue | src/components/common/sort/index.js:54-55 | a decimal digit is worth less than ten |
| Json.DigitRoundTrip | src/components/common/sort/index.js:54-55 | reading back a written digit gives the digit |
| Json.NatStringValue | src/components/common/sort/index.js:54-55 | reading back the decimal writing of a natural number gives the number |
| Json.LiteralOfDigits | src/components/common/exports/hooks/useExports.js:18 | `Number` of a string of digits is its decimal value |
| Json.LiteralOfMinus | src/components/common/exports/hooks/useExports.js:18 | `Number` of a minus sign then digits is the negated value |
| Json.NumberOfString | src/components/common/sort/index.js:54-59 | `Number(String(n))` is `n` for every integer |
| Json.IntStringNoSpace | src/components/common/sort/index.js:59 | the decimal writing of an integer holds no whitespace |
| Json.ToNumber | src/components/common/exports/hooks/useExports.js:18 | `Number(v)` keeps a number and converts a string as a decimal literal |
| Json.IndexKey | src/components/shell/header/date_range.jsx:16-20 | a property name denotes an array index exactly when it is that index's canonical decimal writing |
| Json.Member | src/components/shell/header/date_range.jsx:16-20 | `v[key]` reads an object's property (undefined when absent), an array's `length`, and nothing on a boolean or number |
| Json.Field | src/components/common/exports/exports.js:94 | `doc[key]` on an object is its property, and undefined on anything else |
| Sorting.Insert | src/components/project/entries/utils.js:59 | inserting one element adds exactly that element |
| Sorting.InsertElements | src/components/project/entries/utils.js:59 | an inserted sequence holds only the new element and the old ones |
| Sorting.StableSort | src/components/project/entries/utils.js:59 | `sort` keeps the elements: same length and same multiset; order and stability are the lemmas below |
| Sorting.ConsistentSub | src/components/project/entries/utils.js:59 | a comparator that is a total preorder on a list is one on every part of it |
| Sorting.InsertSorted | src/components/project/entries/utils.js:59 | inserting into an ordered sequence with a consistent comparator keeps it ordered |
| Sorting.StableSortSorted | src/components/project/entries/utils.js:59 | with a consistent comparator the sorted result is ordered |
| Sorting.StableSortOfSorted | src/components/project/entries/utils.js:59 | sorting what is already ordered leaves it as it is |
| Sorting.StableSortIdempotent | src/components/project/entries/utils.js:59 | sorting twice is sorting once |
| Sorting.Reverse | src/components/project/entries/utils.js:63 | `reverse()` keeps the length |
| Sorting.ReverseAt | src/components/project/entries/utils.js:63 | position k of the reversed list holds the element k places from the end |
| Sorting.ReverseMultiset | src/components/project/entries/utils.js:63 | reversing keeps the elements |
| Sorting.ReverseSorted | src/components/project/entries/utils.js:63 | reversing an ascending order compares every pair the other way round |
| Sorting.MapSeq | src/components/common/exports/hooks/useExports.js:37-39 | `map` keeps the length |
| Sorting.InsertMap | src/components/common/exports/hooks/useExports.js:37-41 | inserting by an order that a map preserves commutes with the map |
| Sorting.StableSortMap | src/components/common/exports/hooks/useExports.js:37-64 | sorting the images of a list by an order that the map preserves gives the images of the sorted list |
| Sorting.SortInPlace | src/components/common/exports/hooks/useExports.js:7 | `a.sort(cmp)` leaves the array holding the stable sort of what it held |
| Sorting.ReverseInPlace | src/components/project/entries/model_entries/utils.js:136 | `a.reverse()` leaves the array holding its old contents backwards |
| Sorting.Ordered | src/components/project/entries/model_entries/utils.js:132-137 | the sorted, possibly reversed, view holds the same rows |
| Sorting.OrderedDescending | src/components/project/entries/model_entries/utils.js:132-137 | the descending view lists the ascending one backwards |
| Sorting.OrderedSorted | src/components/project/entries/model_entries/utils.js:132-137 | with a consistent comparator the ascending view is ordered and the descending view is ordered the other way |
| Sorting.SortCopy | src/components/project/entries/model_entries/utils.js:132-137 | sorting a copy yields the ordered view and leaves the given rows alone |
| Sorting.FilterCons | src/components/project/entries/utils.js:59 | filtering a list with a head keeps the head exactly when the test does, then filters the rest |
| Sorting.InsertFilter | src/components/project/entries/utils.js:59 | inserting an element that goes before every kept element leaves the kept elements in input order, with it first |
| Sorting.StableSortStable | src/components/project/entries/utils.js:59 | `sort` is stable: the elements the comparator ranks level come out in the order they went in |
| Base.LowerChar | src/components/project/entries/model_entries/utils.js:43 | a lower-cased character is no capital and keeps being whitespace or a digit exactly when it was |
| Base.Lower | src/components/project/entries/model_entries/utils.js:43 | `toLowerCase()` keeps the length and lower-cases each character |
| Base.LowerIdempotent | src/components/project/entries/model_entries/utils.js:43 | lower-casing twice is lower-casing once |
| Base.LowerAppend | src/components/project/entries/model_entries/utils.js:43 | lower-casing distributes over concatenation |
| Base.IndexFrom | src/components/common/exports/exports.js:68-92 | the search finds the first occurrence at or after the start, and none only when there is none |
| Base.IndexOf | src/components/common/exports/exports.js:68-92 | `indexOf` finds an occurrence exactly when `includes` holds, and it is the first |
| Base.ReplaceFirst | src/components/project/create_edit_entry/Section2Products.jsx:93 | `replace` with a string changes nothing without an occurrence, and otherwise swaps one occurrence for the replacement |
| Base.DropSpaces | src/components/project/create_edit_entry/BarcodeScanner.jsx:28 | the leading whitespace run is dropped and nothing else |
| Base.DropTrailingSpaces | src/components/project/create_edit_entry/BarcodeScanner.jsx:28 | the trailing whitespace run is dropped and nothing else |
| Base.Trim | src/components/project/create_edit_entry/BarcodeScanner.jsx:28 | `trim()` leaves no whitespace at either end |
| Base.TrimChars | src/components/project/create_edit_entry/BarcodeScanner.jsx:28 | trimming only removes characters |
| Base.TrimEmptyIffBlank | src/components/project/create_edit_entry/index.jsx:38 | `!s.trim()` holds exactly for a string of whitespace only |
| Base.TrimNoSpace | src/components/project/create_edit_entry/BarcodeScanner.jsx:28 | a string without whitespace is its own trim |
| Base.StripSpaces | src/components/project/create_edit_entry/BarcodeScanner.jsx:28 | removing all whitespace leaves no whitespace and never lengthens the string |
| Base.StripSpacesOfNoSpace | src/components/project/create_edit_entry/BarcodeScanner.jsx:28 | a string without whitespace is left as it is |
| Base.StripBlank | src/components/project/create_edit_entry/BarcodeScanner.jsx:28 | a blank string loses everything |
| Base.ContainsStripped | src/components/project/entries/model_entries/utils.js:68 | a whitespace-free needle survives removing the whitespace |
| Base.StripSpacesAppend | src/components/project/entries/model_entries/utils.js:68 | removing whitespace distributes over concatenation |
| Base.CollapseSpaces | src/components/project/entries/model_entries/utils.js:59 | collapsing whitespace runs never lengthens the string |
| Base.CollapseSpacesSingleSpaced | src/components/project/entries/model_entries/utils.js:59 | after collapsing, every whitespace is a single space |
| Base.CollapsePrefix | src/components/project/entries/model_entries/utils.js:59 | a leading whitespace-free part passes through the collapsing unchanged |
| Base.CollapseKeepsLeadingWord | src/components/project/entries/model_entries/utils.js:59 | a leading whitespace-free word survives the collapsing |
| Base.CollapseKeepsWord | src/components/project/entries/model_entries/utils.js:59 | a whitespace-free substring survives the collapsing |
| Base.StripCollapse | src/components/project/entries/model_entries/utils.js:59-68 | removing all whitespace gives the same text before and after collapsing |
| Base.StripDropSpaces | src/components/project/entries/model_entries/utils.js:43-68 | dropping the leading whitespace does not change the whitespace-free text |
| Base.TakeWord | src/components/project/entries/model_entries/utils.js:74 | the first word is the maximal leading whitespace-free run |
| Base.Words | src/components/project/entries/model_entries/utils.js:74 | `split(/\\s+/).filter(Boolean)` gives non-empty whitespace-free words |
| Base.WordsOfBlank | src/components/project/entries/model_entries/utils.js:74 | a blank string has no words |
| Base.Split | src/components/common/exports/exports.js:69 | `split` gives at least one part, none holding the separator |
| Base.JoinContains | src/components/project/entries/model_entries/utils.js:106-116 | a substring of one part survives in the space-joined text |
| Base.StripJoinFirst | src/components/project/entries/model_entries/utils.js:106-116 | without whitespace, a space-joined list is its first part run together with the rest |
| Base.StripJoinContains | src/components/project/entries/model_entries/utils.js:106-116 | a needle in a part's whitespace-free text is in the whitespace-free joined text |
| Base.SplitJoin | src/components/pwa/ProtocolHandler.jsx:39 | splitting a joined list gives back its parts when none holds the separator |
| Base.JoinSplit | src/components/pwa/ProtocolHandler.jsx:39 | joining a split gives back the string |
| Base.SplitAtSeparator | src/components/common/exports/exports.js:69 | a string holding the separator splits into at least two parts |
| Base.NatToString | src/components/pwa/ShareHandler.jsx:44 | the decimal writing of a natural number is non-empty digits, one digit exactly below ten |
| Base.NatToStringInjective | src/components/project/create_edit_entry/Section2Products.jsx:92 | different numbers have different decimal writings |
| Base.IntToString | src/components/common/sort/index.js:59 | the writing of an integer is non-empty |
| Base.StrLessIrreflexive | src/components/common/exports/hooks/useExports.js:14 | no string is below itself |
| Base.StrLessTrichotomy | src/components/common/exports/hooks/useExports.js:14-16 | of two different strings exactly one is below the other |
| Base.StrLessTransitive | src/components/common/exports/hooks/useExports.js:14-16 | string order is transitive |
| Base.Filter | src/components/project/entries/model_entries/utils.js:74 | `filter` keeps exactly the elements satisfying the predicate and never grows |
| Base.FilterAppend | src/components/project/entries/utils.js:18-48 | filtering distributes over concatenation, so kept elements stay in order |
| Base.FilterKeepsAll | src/components/project/entries/utils.js:52-55 | a filter every element passes keeps the list whole |
| Base.FilterIdempotent | src/components/project/create_edit_entry/ProductSelector.jsx:40 | filtering twice by the same predicate is filtering once |
| Base.FilterMultiset | src/components/project/entries/utils.js:18-48 | filtering only drops elements |
| Base.FilterCompose | src/components/common/sort/index.js:154-202 | filtering by one predicate and then another keeps what satisfies both, in order |
| Base.FilterExt | src/components/common/sort/index.js:154-202 | predicates that agree on the elements filter alike |
| Base.FilterPartition | src/components/common/sort/index.js:154-202 | the kept and the dropped elements together are the original multiset |


## Left out

- Camera and video I/O in the barcode scanner are not modelled. This covers device enumeration, stream start and stop, the torch constraint, `toggleTorch`, and the 100 ms start-up timer. The scanner dialog's state is modelled with the camera list and decoder results as inputs.
- Spreadsheet and PDF file generation is reduced to the table it is built from: sheet rows, header and body. The xlsx, jsPDF and autoTable calls, page layout and file writing are not modelled, nor are the download file names built from the current date.
- The browser's app-badge API (`setAppBadge`/`clearAppBadge`) is not modelled. Only the count the badge is given is.
- Clocks and random ids become parameters: `Date.now()` and the `Math.random()` id suffix in the sync queue are given by the caller. Whether a sync handler succeeds is a parameter too. Error messages are dropped, so the model records only which items failed.
- `localStorage` is modelled as a single stored string field. Its quota errors and other tabs writing to it are not modelled.
- `decodeURIComponent` is a function parameter in the link handler. Malformed percent-escapes are modelled as its `None` result.
- moment.js parsing and formatting, and `String.prototype.localeCompare`, are uninterpreted function parameters. Properties that need them are stated for whatever those functions compute, under the orderings' own requirements (a total preorder for the collator).
- Base.Lower: lower-cases ASCII letters only. JavaScript's Unicode case mapping is not modelled.
- Numbers are integers. Fractions, `NaN` and infinities are not modelled, so `NaN`'s falsiness and `Number("abc")` giving `NaN` become a missing number (`None`). Decimal literals with a point ("1.5"), exponents ("1e3") and radix prefixes ("0x10", "0b101", "0o17") are not read as numbers either.
- Json.ToNumber: returns `None` for strings written with a decimal point, an exponent or a `0x`/`0b`/`0o` prefix, where JavaScript's `Number` reads a number. Only optionally signed decimal digit strings convert.
- Property lookup on plain objects does not see prototype members such as `constructor`. The size lookup in the model entries view treats such keys as absent.
- ModelEntries.ModelFieldOf: a sort field named after an `Object.prototype` member (`constructor`, `toString`, …) falls back to the date order here. In the source the lookup finds that inherited function and sorts with it.
- ImeiEntries.ImeiFieldOf: the same as ModelEntries.ModelFieldOf. Inherited `Object.prototype` names fall back to the date order.
- Entries.EntryFieldOf: the same as ModelEntries.ModelFieldOf. Inherited `Object.prototype` names fall back to the date order.
- ProductsSection.RemoveItemErrors: follows the form library's re-indexing of `products.<i>.<field>` error keys when a list item is removed. Only keys with a canonical decimal index are moved; other spellings such as leading zeros are kept as they are. The library's code is not part of this model.
- ProductsSection.ProductsSectionState.UpdateProduct: clears only the error stored under the exact key `products.<i>`, as the form library's default `clearInputErrorOnChange` does for the path it sets; the library's code is not part of this model.
- Object key order follows the order the model's maps and field lists give. Insertion order of `Object.keys` is not modelled beyond that.
- SortSearch.SortStage: the ordering and stability lemmas require every key being sorted to normalise to the same kind (all numbers, all dates or all strings). Comparisons across kinds do not form an order in JavaScript and are modelled only as a permutation.
- SyncQueue.DrainResult: requires the queued items to have distinct ids. The source's own ids make that so, but a storage string edited by hand could break it.
- EntryForm.EntryFormState.HandleScannedCode: for a selected index past the end of the product list, reports the code as added and changes no product. The scanner is only ever opened from a product card, so that index always exists in the source. Clearing the error stored under the changed field's key follows the form library's default `clearInputErrorOnChange`; the library's code is not part of this model.
- The create and edit network requests are modelled as the requests the form produces (`SubmitAction.Create` and `sentEdits`). Their responses, the success and error notifications, and the navigation afterwards are not modelled.
- Loading an entry for editing (`GetEntry` and the effect that fills the form) is a network read and is not modelled. The form state's constructor takes the initial values instead.
- Notifications and vibration are modelled as the notice values the handlers return (`Navigation.Route`, `FormNotice`, `ScanResult`). Their display is not modelled.
- The date picker's maximum date is a display constraint of the calendar widget and is not modelled.
- Rendering, styling, virtualised lists, skeleton images, print layouts, React Query caching and the PWA context provider are not part of this model.
- The REST API clients are not part of this model. Their responses appear only as the documents the views receive.
