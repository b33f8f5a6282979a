/**
 * The model view: one row per product, searched with the phrase-aware
 * tokenizer and sorted by a field from a comparator table
 * (`flattenModelData`, `modelSortComparators`, `filterModelsBySearch`,
 * `processModelEntries`).
 */
module ModelEntries {
  import opened Base
  import opened Json
  import opened External
  import opened Documents
  import opened SearchQuery
  import Sorting

  datatype ModelRow = ModelRow(
    productName: Option<string>,
    details: Option<string>,
    codes: Option<seq<string>>,
    price: Option<int>,
    date: Value,
    id: Option<string>,
    category: Option<string>,
    orderName: Option<string>,
    parentId: Option<string>)

  /** The row pushed for product `p` of entry `e`: the product's fields, plus the entry's date, name (as `orderName`) and id (as `parentId`). */
  function ModelRowOf(e: Entry, p: Product): ModelRow
  {
    ModelRow(p.name, p.details, p.codes, p.price, e.date, p.id, p.category, e.name, e.id)
  }

  /** The rows of one entry, in product order. */
  function EntryRows(e: Entry): seq<ModelRow>
  {
    seq(|Products(e)|, j requires 0 <= j < |Products(e)| => ModelRowOf(e, Products(e)[j]))
  }

  /** The rows of a list of entries, entry after entry. */
  function ModelRows(entries: seq<Entry>): seq<ModelRow>
  {
    if entries == [] then [] else ModelRows(entries[..|entries| - 1]) + EntryRows(entries[|entries| - 1])
  }

  /** `data || []`, flattened. */
  function FlattenModel(data: Option<seq<Entry>>): seq<ModelRow>
  {
    ModelRows(if data.Some? then data.value else [])
  }

  /** `flattenModelData`: a loop over the entries, and within each over its products, pushing one row each. */
  method FlattenModelData(data: Option<seq<Entry>>) returns (flattened: seq<ModelRow>)
    ensures flattened == FlattenModel(data)
  {
    var entries := if data.Some? then data.value else [];
    flattened := [];
    var i := 0;
    while i < |entries|
      invariant i <= |entries|
      invariant flattened == ModelRows(entries[..i])
    {
      var doc := entries[i];
      var products := Products(doc);
      var j := 0;
      while j < |products|
        invariant j <= |products|
        invariant flattened == ModelRows(entries[..i]) + EntryRows(doc)[..j]
      {
        assert EntryRows(doc)[..j + 1] == EntryRows(doc)[..j] + [ModelRowOf(doc, products[j])];
        flattened := flattened + [ModelRowOf(doc, products[j])];
        j := j + 1;
      }
      assert entries[..i + 1][..i] == entries[..i];
      assert EntryRows(doc)[..j] == EntryRows(doc);
      i := i + 1;
    }
    assert entries[..|entries|] == entries;
  }

  // ---------------------------------------------------------------- flattening properties

  /** The number of products over all entries, a missing product list counting as none. */
  function ProductCount(entries: seq<Entry>): nat
  {
    if entries == [] then 0 else ProductCount(entries[..|entries| - 1]) + |Products(entries[|entries| - 1])|
  }

  /** Exactly one row per product. */
  lemma {:induction false} ModelRowCount(entries: seq<Entry>)
    ensures |ModelRows(entries)| == ProductCount(entries)
  {
    if entries != [] {
      ModelRowCount(entries[..|entries| - 1]);
    }
  }

  /** Flattening two lists of entries one after the other gives their rows one after the other. */
  lemma {:induction false} ModelRowsAppend(a: seq<Entry>, b: seq<Entry>)
    ensures ModelRows(a + b) == ModelRows(a) + ModelRows(b)
  {
    if b != [] {
      var b' := b[..|b| - 1];
      assert (a + b)[..|a + b| - 1] == a + b';
      ModelRowsAppend(a, b');
    } else {
      assert a + b == a;
    }
  }

  /**
   * Rows come in entry order then product order: product `j` of entry `i`
   * is the row after the rows of the entries before `i` and the products
   * before `j`.
   */
  lemma ModelRowAt(entries: seq<Entry>, i: nat, j: nat)
    requires i < |entries| && j < |Products(entries[i])|
    ensures var rows := ModelRows(entries);
            ProductCount(entries[..i]) + j < |rows|
            && rows[ProductCount(entries[..i]) + j] == ModelRowOf(entries[i], Products(entries[i])[j])
  {
    ModelRowsSplit(entries, i);
    ModelRowCount(entries[..i]);
    ConcatAt(ModelRows(entries[..i]), EntryRows(entries[i]), ModelRows(entries[i + 1..]), j);
  }

  /** The rows of entry `i` sit between the rows of the entries before it and those after it. */
  lemma ModelRowsSplit(entries: seq<Entry>, i: nat)
    requires i < |entries|
    ensures ModelRows(entries) == ModelRows(entries[..i]) + EntryRows(entries[i]) + ModelRows(entries[i + 1..])
  {
    SplitAround(entries, i);
    assert entries[..i + 1] + entries[i + 1..] == entries;
    ModelRowsAppend(entries[..i + 1], entries[i + 1..]);
    ModelRowsSnoc(entries[..i], entries[i]);
  }

  /** Appending one entry appends its rows. */
  lemma ModelRowsSnoc(before: seq<Entry>, e: Entry)
    ensures ModelRows(before + [e]) == ModelRows(before) + EntryRows(e)
  {
    var s := before + [e];
    assert s[..|s| - 1] == before;
  }

  /** Missing data, or an entry without products, contributes no row. */
  lemma NoProductsNoRows(data: Option<seq<Entry>>)
    requires data.None? || forall i :: 0 <= i < |data.value| ==> Products(data.value[i]) == []
    ensures FlattenModel(data) == []
  {
    var entries := if data.Some? then data.value else [];
    ModelRowCount(entries);
    ProductCountZero(entries);
  }

  lemma {:induction false} ProductCountZero(entries: seq<Entry>)
    requires forall i :: 0 <= i < |entries| ==> Products(entries[i]) == []
    ensures ProductCount(entries) == 0
  {
    if entries != [] {
      ProductCountZero(entries[..|entries| - 1]);
    }
  }

  // ---------------------------------------------------------------- comparators

  /** The keys of `modelSortComparators`. */
  datatype ModelField = ByDate | ByName | ByPrice | ByOrderName | ByCategory

  /** `modelSortComparators[field] || modelSortComparators.date`. */
  function ModelFieldOf(field: string): (f: ModelField)
    ensures f == ByDate <==> field !in {"name", "price", "orderName", "category"}
  {
    match field
    case "name" => ByName
    case "price" => ByPrice
    case "orderName" => ByOrderName
    case "category" => ByCategory
    case _ => ByDate
  }

  /** `(row.price || 0)`. */
  function PriceOf(row: ModelRow): int
  {
    if row.price.Some? then row.price.value else 0
  }

  function ModelCompare(f: ModelField, m: Moment, collate: Collator, a: ModelRow, b: ModelRow): int
  {
    match f
    case ByDate => DateCompare(m, a.date, b.date)
    case ByName => LocaleCompare(collate, a.productName, b.productName)
    case ByPrice => PriceOf(a) - PriceOf(b)
    case ByOrderName => LocaleCompare(collate, a.orderName, b.orderName)
    case ByCategory => LocaleCompare(collate, a.category, b.category)
  }

  /** The comparator handed to `sort`. */
  function ModelOrder(f: ModelField, m: Moment, collate: Collator): (ModelRow, ModelRow) -> int
  {
    (a, b) => ModelCompare(f, m, collate, a, b)
  }

  /** Each comparator is a total preorder on the rows, given a collation and, for the date comparator, valid dates. */
  lemma ModelOrderConsistent(rows: seq<ModelRow>, f: ModelField, m: Moment, collate: Collator)
    requires CollationOrder(collate)
    requires f == ByDate ==> DatesParse(m, set r | r in rows :: r.date)
    ensures Sorting.Consistent(ModelOrder(f, m, collate), rows)
  {
    var cmp := ModelOrder(f, m, collate);
    forall a, b, c | a in rows && b in rows && c in rows
      ensures Sorting.Connex(cmp, a, b) && Sorting.Transitive(cmp, a, b, c)
    {
      match f
      case ByDate =>
        var dates := set r | r in rows :: r.date;
        assert a.date in dates && b.date in dates && c.date in dates;
        DateCompareOrder(m, a.date, b.date, c.date);
      case ByName => LocaleCompareOrder(collate, a.productName, b.productName, c.productName);
      case ByPrice =>
      case ByOrderName => LocaleCompareOrder(collate, a.orderName, b.orderName, c.orderName);
      case ByCategory => LocaleCompareOrder(collate, a.category, b.category, c.category);
    }
    forall a, b | a in rows && b in rows
      ensures Sorting.Connex(cmp, a, b)
    {
      assert Sorting.Transitive(cmp, a, b, a);
    }
  }

  // ---------------------------------------------------------------- search

  /** `item.codes?.forEach(code => { if (code) … code.toLowerCase() })`. */
  function CodeTexts(codes: seq<string>): (texts: seq<string>)
    ensures forall t :: t in texts ==> t != []
    ensures forall c :: c in codes && c != "" ==> Lower(c) in texts
  {
    if codes == [] then []
    else (if codes[0] != "" then [Lower(codes[0])] else []) + CodeTexts(codes[1..])
  }

  /** The searchable texts of a row, in the order they are collected. */
  function ModelSearchTexts(row: ModelRow, m: Moment): seq<string>
  {
    (if Truthy(row.productName) then [Lower(row.productName.value)] else [])
    + (if Truthy(row.details) then [Lower(row.details.value), StripSpaces(Lower(row.details.value))] else [])
    + (if Truthy(row.orderName) then [Lower(row.orderName.value)] else [])
    + (if Truthy(row.category) then [Lower(row.category.value)] else [])
    + [DateText(m, row.date)]
    + (if row.codes.Some? then CodeTexts(row.codes.value) else [])
  }

  /** `searchableTexts.join(" ")`. */
  function ModelCombinedText(row: ModelRow, m: Moment): string
  {
    Join(ModelSearchTexts(row, m), " ")
  }

  /** `filterModelsBySearch`: with no query or no terms the rows are returned as they are. */
  function FilterModelsBySearch(data: seq<ModelRow>, query: string, m: Moment): (r: seq<ModelRow>)
    ensures query == "" || SearchTerms(query) == [] ==> r == data
    ensures query != "" ==> forall row :: row in r <==> row in data && AllTermsMatch(SearchTerms(query), ModelCombinedText(row, m))
  {
    if query == "" then data
    else
      var terms := SearchTerms(query);
      if terms == [] then data
      else Filter(data, row => AllTermsMatch(terms, ModelCombinedText(row, m)))
  }

  /** The filter decides row by row: it keeps the relative order and distributes over concatenation. */
  lemma FilterModelsAppend(a: seq<ModelRow>, b: seq<ModelRow>, query: string, m: Moment)
    ensures FilterModelsBySearch(a + b, query, m) == FilterModelsBySearch(a, query, m) + FilterModelsBySearch(b, query, m)
  {
    if query != "" && SearchTerms(query) != [] {
      var terms := SearchTerms(query);
      FilterAppend(a, b, row => AllTermsMatch(terms, ModelCombinedText(row, m)));
    }
  }

  /** A whitespace-free term found in any searchable text of a row matches the row. */
  lemma ModelWordMatches(row: ModelRow, m: Moment, text: string, term: string)
    requires text in ModelSearchTexts(row, m) && NoSpace(term) && Contains(text, term)
    ensures TermMatches(term, ModelCombinedText(row, m))
  {
    var texts := ModelSearchTexts(row, m);
    var k :| 0 <= k < |texts| && texts[k] == text;
    FieldWordMatches(texts, k, term);
  }

  /** A digits + "gb" term matches a row whose details hold it once their whitespace is removed: "512gb" finds "512 GB". */
  lemma ModelVariantMatches(row: ModelRow, m: Moment, term: string)
    requires Truthy(row.details) && IsGbTerm(term) && Contains(StripSpaces(Lower(row.details.value)), term)
    ensures TermMatches(term, ModelCombinedText(row, m))
  {
    var texts := ModelSearchTexts(row, m);
    var k := if Truthy(row.productName) then 1 else 0;
    assert texts[k] == Lower(row.details.value);
    FieldVariantMatches(texts, k, term);
  }

  // ---------------------------------------------------------------- pipeline

  /** What `processModelEntries` returns. */
  function ModelView(data: Option<seq<Entry>>, search: string, sortBy: SortBy, m: Moment, collate: Collator): seq<ModelRow>
  {
    var filtered := FilterModelsBySearch(FlattenModel(data), search, m);
    Sorting.Ordered(filtered, ModelOrder(ModelFieldOf(sortBy.field), m, collate), Descending(sortBy))
  }

  /** `processModelEntries`: flatten, filter, sort a copy, and reverse it for "desc". */
  method ProcessModelEntries(data: Option<seq<Entry>>, search: string, sortBy: SortBy, m: Moment, collate: Collator)
    returns (sorted: seq<ModelRow>)
    ensures sorted == ModelView(data, search, sortBy, m, collate)
    ensures multiset(sorted) == multiset(FilterModelsBySearch(FlattenModel(data), search, m))
  {
    var flattened := FlattenModelData(data);
    var filtered := FilterModelsBySearch(flattened, search, m);
    var comparator := ModelOrder(ModelFieldOf(sortBy.field), m, collate);
    sorted := Sorting.SortCopy(filtered, comparator, Descending(sortBy));
  }

  /** The view is ordered by the chosen comparator, backwards for "desc". */
  lemma ModelViewSorted(data: Option<seq<Entry>>, search: string, sortBy: SortBy, m: Moment, collate: Collator)
    requires CollationOrder(collate)
    requires DatesParse(m, set r | r in FlattenModel(data) :: r.date)
    ensures var view := ModelView(data, search, sortBy, m, collate);
            var cmp := ModelOrder(ModelFieldOf(sortBy.field), m, collate);
            forall i, j :: 0 <= i < j < |view| ==> (if Descending(sortBy) then cmp(view[j], view[i]) else cmp(view[i], view[j])) <= 0
  {
    var rows := FlattenModel(data);
    var filtered := FilterModelsBySearch(rows, search, m);
    var f := ModelFieldOf(sortBy.field);
    assert (set r | r in filtered :: r.date) <= (set r | r in rows :: r.date);
    ModelOrderConsistent(filtered, f, m, collate);
    Sorting.OrderedSorted(filtered, ModelOrder(f, m, collate), Descending(sortBy));
  }
}
