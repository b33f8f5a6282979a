/**
 * The IMEI view: one row per code, searched with the phrase-aware
 * tokenizer and sorted by a field from a comparator table
 * (`flattenImeiData`, `imeiSortComparators`, `filterImeisBySearch`,
 * `processImeiEntries`).
 */
module ImeiEntries {
  import opened Base
  import opened Json
  import opened External
  import opened Documents
  import opened SearchQuery
  import Sorting

  /** A product's fields with `codes` replaced by one code, plus the entry's date, name and id. */
  datatype ImeiRow = ImeiRow(
    id: Option<string>,
    name: Option<string>,
    category: Option<string>,
    details: Option<string>,
    price: Option<int>,
    warranty: Option<string>,
    codes: string,
    date: Value,
    orderName: Option<string>,
    orderId: Option<string>)

  /** `{ ...subDoc, codes: code, date: doc.date, orderName: doc.name, orderId: doc._id }`. */
  function ImeiRowOf(e: Entry, p: Product, code: string): ImeiRow
  {
    ImeiRow(p.id, p.name, p.category, p.details, p.price, p.warranty, code, e.date, e.name, e.id)
  }

  /** The rows of one product of entry `e`, in code order. */
  function CodeRows(e: Entry, p: Product): seq<ImeiRow>
  {
    seq(|Codes(p)|, k requires 0 <= k < |Codes(p)| => ImeiRowOf(e, p, Codes(p)[k]))
  }

  /** The rows of a list of products of entry `e`, product after product. */
  function ProductRows(e: Entry, products: seq<Product>): seq<ImeiRow>
  {
    if products == [] then [] else ProductRows(e, products[..|products| - 1]) + CodeRows(e, products[|products| - 1])
  }

  /** The rows of a list of entries, entry after entry. */
  function ImeiRows(entries: seq<Entry>): seq<ImeiRow>
  {
    if entries == [] then [] else ImeiRows(entries[..|entries| - 1]) + ProductRows(entries[|entries| - 1], Products(entries[|entries| - 1]))
  }

  const NullLength := "TypeError: Cannot read properties of null (reading 'length')"

  /** `flattenImeiData`: `data.length` is read without a guard, so missing data throws. */
  function FlattenImei(data: Option<seq<Entry>>): Result<seq<ImeiRow>>
  {
    if data.None? then Failure(NullLength) else Success(ImeiRows(data.value))
  }

  /** `flattenImeiData`: three nested loops pushing one row per code. */
  method FlattenImeiData(data: Option<seq<Entry>>) returns (r: Result<seq<ImeiRow>>)
    ensures r == FlattenImei(data)
  {
    if data.None? {
      return Failure(NullLength);
    }
    var entries := data.value;
    var flattened := [];
    var i := 0;
    while i < |entries|
      invariant i <= |entries|
      invariant flattened == ImeiRows(entries[..i])
    {
      var doc := entries[i];
      flattened := PushProductRows(flattened, doc, Products(doc));
      assert entries[..i + 1][..i] == entries[..i];
      i := i + 1;
    }
    assert entries[..|entries|] == entries;
    r := Success(flattened);
  }

  /** The middle loop: the rows of each product of `doc`, pushed in product order. */
  method PushProductRows(flattened: seq<ImeiRow>, doc: Entry, products: seq<Product>) returns (out: seq<ImeiRow>)
    ensures out == flattened + ProductRows(doc, products)
  {
    out := flattened;
    var j := 0;
    while j < |products|
      invariant j <= |products|
      invariant out == flattened + ProductRows(doc, products[..j])
    {
      out := PushCodeRows(out, doc, products[j]);
      assert products[..j + 1][..j] == products[..j];
      j := j + 1;
    }
    assert products[..j] == products;
  }

  /** The inner loop: one row per code of `subDoc`, pushed in code order. */
  method PushCodeRows(flattened: seq<ImeiRow>, doc: Entry, subDoc: Product) returns (out: seq<ImeiRow>)
    ensures out == flattened + CodeRows(doc, subDoc)
  {
    out := flattened;
    var codes := Codes(subDoc);
    var k := 0;
    while k < |codes|
      invariant k <= |codes|
      invariant out == flattened + CodeRows(doc, subDoc)[..k]
    {
      assert CodeRows(doc, subDoc)[..k + 1] == CodeRows(doc, subDoc)[..k] + [ImeiRowOf(doc, subDoc, codes[k])];
      out := out + [ImeiRowOf(doc, subDoc, codes[k])];
      k := k + 1;
    }
    assert CodeRows(doc, subDoc)[..k] == CodeRows(doc, subDoc);
  }

  // ---------------------------------------------------------------- flattening properties

  /** The number of codes over all entries: the sum of the entries' scan counts. */
  function CodeCount(entries: seq<Entry>): nat
  {
    if entries == [] then 0 else CodeCount(entries[..|entries| - 1]) + TotalScans(entries[|entries| - 1])
  }

  lemma {:induction false} ProductRowCount(e: Entry, products: seq<Product>)
    ensures |ProductRows(e, products)| == CodeTotal(products)
  {
    if products != [] {
      ProductRowCount(e, products[..|products| - 1]);
    }
  }

  /** Exactly one row per code. */
  lemma {:induction false} ImeiRowCount(entries: seq<Entry>)
    ensures |ImeiRows(entries)| == CodeCount(entries)
  {
    if entries != [] {
      var last := entries[|entries| - 1];
      ImeiRowCount(entries[..|entries| - 1]);
      ProductRowCount(last, Products(last));
    }
  }

  /** A product without codes contributes no row, wherever it stands. */
  lemma {:induction false} CodelessProductsVanish(e: Entry, a: seq<Product>, p: Product, b: seq<Product>)
    requires Codes(p) == []
    ensures ProductRows(e, a + [p] + b) == ProductRows(e, a + b)
  {
    if b == [] {
      assert (a + [p] + b)[..|a + [p] + b| - 1] == a;
      assert a + b == a;
    } else {
      var b' := b[..|b| - 1];
      assert (a + [p] + b)[..|a + [p] + b| - 1] == a + [p] + b';
      assert (a + b)[..|a + b| - 1] == a + b';
      CodelessProductsVanish(e, a, p, b');
    }
  }

  /** Every row is product `j` of entry `i` with one of that product's codes. */
  lemma {:induction false} ImeiRowSource(entries: seq<Entry>, r: ImeiRow)
    requires r in ImeiRows(entries)
    ensures exists i, j :: 0 <= i < |entries| && 0 <= j < |Products(entries[i])|
                           && r.codes in Codes(Products(entries[i])[j])
                           && r == ImeiRowOf(entries[i], Products(entries[i])[j], r.codes)
  {
    var n := |entries| - 1;
    var front := entries[..n];
    if r in ImeiRows(front) {
      ImeiRowSource(front, r);
      var i, j :| 0 <= i < |front| && 0 <= j < |Products(front[i])|
                  && r.codes in Codes(Products(front[i])[j])
                  && r == ImeiRowOf(front[i], Products(front[i])[j], r.codes);
      assert front[i] == entries[i];
    } else {
      assert r in ProductRows(entries[n], Products(entries[n]));
      var j := ProductRowSource(entries[n], Products(entries[n]), r);
      assert r.codes in Codes(Products(entries[n])[j]);
    }
  }

  lemma {:induction false} ProductRowSource(e: Entry, products: seq<Product>, r: ImeiRow) returns (j: nat)
    requires r in ProductRows(e, products)
    ensures j < |products| && r.codes in Codes(products[j]) && r == ImeiRowOf(e, products[j], r.codes)
  {
    var n := |products| - 1;
    if r in ProductRows(e, products[..n]) {
      j := ProductRowSource(e, products[..n], r);
    } else {
      j := n;
      var k :| 0 <= k < |Codes(products[n])| && CodeRows(e, products[n])[k] == r;
    }
  }

  /** Conversely, every code of every product of every entry has its row. */
  lemma ImeiRowPresent(entries: seq<Entry>, i: nat, j: nat, k: nat)
    requires i < |entries| && j < |Products(entries[i])| && k < |Codes(Products(entries[i])[j])|
    ensures var p := Products(entries[i])[j];
            ImeiRowOf(entries[i], p, Codes(p)[k]) in ImeiRows(entries)
  {
    var e := entries[i];
    var p := Products(e)[j];
    ProductRowPresent(e, Products(e), j, k);
    ImeiRowsContain(entries, i, ImeiRowOf(e, p, Codes(p)[k]));
  }

  lemma {:induction false} ProductRowPresent(e: Entry, products: seq<Product>, j: nat, k: nat)
    requires j < |products| && k < |Codes(products[j])|
    ensures ImeiRowOf(e, products[j], Codes(products[j])[k]) in ProductRows(e, products)
  {
    var n := |products| - 1;
    if j < n {
      ProductRowPresent(e, products[..n], j, k);
    } else {
      assert CodeRows(e, products[n])[k] == ImeiRowOf(e, products[j], Codes(products[j])[k]);
    }
  }

  lemma {:induction false} ImeiRowsContain(entries: seq<Entry>, i: nat, r: ImeiRow)
    requires i < |entries| && r in ProductRows(entries[i], Products(entries[i]))
    ensures r in ImeiRows(entries)
  {
    var n := |entries| - 1;
    if i < n {
      ImeiRowsContain(entries[..n], i, r);
    }
  }

  // ---------------------------------------------------------------- comparators

  /** The keys of `imeiSortComparators`. */
  datatype ImeiField = ByDate | ByName | ByImei | ByOrderName

  /** `imeiSortComparators[field] || imeiSortComparators.date`. */
  function ImeiFieldOf(field: string): (f: ImeiField)
    ensures f == ByDate <==> field !in {"name", "imei", "orderName"}
  {
    match field
    case "name" => ByName
    case "imei" => ByImei
    case "orderName" => ByOrderName
    case _ => ByDate
  }

  function ImeiCompare(f: ImeiField, m: Moment, collate: Collator, a: ImeiRow, b: ImeiRow): int
  {
    match f
    case ByDate => DateCompare(m, a.date, b.date)
    case ByName => LocaleCompare(collate, a.name, b.name)
    case ByImei => collate(a.codes, b.codes)
    case ByOrderName => LocaleCompare(collate, a.orderName, b.orderName)
  }

  /** The comparator handed to `sort`. */
  function ImeiOrder(f: ImeiField, m: Moment, collate: Collator): (ImeiRow, ImeiRow) -> int
  {
    (a, b) => ImeiCompare(f, m, collate, a, b)
  }

  /** Each comparator is a total preorder on the rows, given a collation and, for the date comparator, valid dates. */
  lemma ImeiOrderConsistent(rows: seq<ImeiRow>, f: ImeiField, m: Moment, collate: Collator)
    requires CollationOrder(collate)
    requires f == ByDate ==> DatesParse(m, set r | r in rows :: r.date)
    ensures Sorting.Consistent(ImeiOrder(f, m, collate), rows)
  {
    var cmp := ImeiOrder(f, m, collate);
    forall a, b, c | a in rows && b in rows && c in rows
      ensures Sorting.Connex(cmp, a, b) && Sorting.Transitive(cmp, a, b, c)
    {
      match f
      case ByDate =>
        var dates := set r | r in rows :: r.date;
        assert a.date in dates && b.date in dates && c.date in dates;
        DateCompareOrder(m, a.date, b.date, c.date);
      case ByName => LocaleCompareOrder(collate, a.name, b.name, c.name);
      case ByImei => LocaleCompareOrder(collate, Some(a.codes), Some(b.codes), Some(c.codes));
      case ByOrderName => LocaleCompareOrder(collate, a.orderName, b.orderName, c.orderName);
    }
    forall a, b | a in rows && b in rows
      ensures Sorting.Connex(cmp, a, b)
    {
      assert Sorting.Transitive(cmp, a, b, a);
    }
  }

  // ---------------------------------------------------------------- search

  /** The searchable texts of a row, in the order they are collected; the category is not among them. */
  function ImeiSearchTexts(row: ImeiRow, m: Moment): seq<string>
  {
    (if row.codes != "" then [Lower(row.codes)] else [])
    + (if Truthy(row.name) then [Lower(row.name.value)] else [])
    + (if Truthy(row.orderName) then [Lower(row.orderName.value)] else [])
    + (if Truthy(row.details) then [Lower(row.details.value), StripSpaces(Lower(row.details.value))] else [])
    + [DateText(m, row.date)]
  }

  /** `searchableTexts.join(" ")`. */
  function ImeiCombinedText(row: ImeiRow, m: Moment): string
  {
    Join(ImeiSearchTexts(row, m), " ")
  }

  /** `filterImeisBySearch`: with no query or no terms the rows are returned as they are. */
  function FilterImeisBySearch(data: seq<ImeiRow>, query: string, m: Moment): (r: seq<ImeiRow>)
    ensures query == "" || SearchTerms(query) == [] ==> r == data
    ensures query != "" ==> forall row :: row in r <==> row in data && AllTermsMatch(SearchTerms(query), ImeiCombinedText(row, m))
  {
    if query == "" then data
    else
      var terms := SearchTerms(query);
      if terms == [] then data
      else Filter(data, row => AllTermsMatch(terms, ImeiCombinedText(row, m)))
  }

  /** The filter decides row by row: it keeps the relative order and distributes over concatenation. */
  lemma FilterImeisAppend(a: seq<ImeiRow>, b: seq<ImeiRow>, query: string, m: Moment)
    ensures FilterImeisBySearch(a + b, query, m) == FilterImeisBySearch(a, query, m) + FilterImeisBySearch(b, query, m)
  {
    if query != "" && SearchTerms(query) != [] {
      var terms := SearchTerms(query);
      FilterAppend(a, b, row => AllTermsMatch(terms, ImeiCombinedText(row, m)));
    }
  }

  /** A whitespace-free term found in any searchable text of a row matches the row. */
  lemma ImeiWordMatches(row: ImeiRow, m: Moment, text: string, term: string)
    requires text in ImeiSearchTexts(row, m) && NoSpace(term) && Contains(text, term)
    ensures TermMatches(term, ImeiCombinedText(row, m))
  {
    var texts := ImeiSearchTexts(row, m);
    var k :| 0 <= k < |texts| && texts[k] == text;
    FieldWordMatches(texts, k, term);
  }

  /** A digits + "gb" term matches a row whose details hold it once their whitespace is removed. */
  lemma ImeiVariantMatches(row: ImeiRow, m: Moment, term: string)
    requires Truthy(row.details) && IsGbTerm(term) && Contains(StripSpaces(Lower(row.details.value)), term)
    ensures TermMatches(term, ImeiCombinedText(row, m))
  {
    var texts := ImeiSearchTexts(row, m);
    var k := (if row.codes != "" then 1 else 0) + (if Truthy(row.name) then 1 else 0) + (if Truthy(row.orderName) then 1 else 0);
    assert texts[k] == Lower(row.details.value);
    FieldVariantMatches(texts, k, term);
  }

  // ---------------------------------------------------------------- pipeline

  /** What `processImeiEntries` returns, or the exception it throws. */
  function ImeiView(data: Option<seq<Entry>>, search: string, sortBy: SortBy, m: Moment, collate: Collator): Result<seq<ImeiRow>>
  {
    match FlattenImei(data)
    case Failure(e) => Failure(e)
    case Success(rows) =>
      var filtered := FilterImeisBySearch(rows, search, m);
      Success(Sorting.Ordered(filtered, ImeiOrder(ImeiFieldOf(sortBy.field), m, collate), Descending(sortBy)))
  }

  /** `processImeiEntries`: flatten, filter, sort a copy, and reverse it for "desc". */
  method ProcessImeiEntries(data: Option<seq<Entry>>, search: string, sortBy: SortBy, m: Moment, collate: Collator)
    returns (r: Result<seq<ImeiRow>>)
    ensures r == ImeiView(data, search, sortBy, m, collate)
    ensures r.Failure? <==> data.None?
    ensures r.Success? ==> multiset(r.value) == multiset(FilterImeisBySearch(ImeiRows(data.value), search, m))
  {
    var flattened := FlattenImeiData(data);
    if flattened.Failure? {
      return Failure(flattened.error);
    }
    var filtered := FilterImeisBySearch(flattened.value, search, m);
    var comparator := ImeiOrder(ImeiFieldOf(sortBy.field), m, collate);
    var sorted := Sorting.SortCopy(filtered, comparator, Descending(sortBy));
    r := Success(sorted);
  }

  /** The view is ordered by the chosen comparator, backwards for "desc". */
  lemma ImeiViewSorted(entries: seq<Entry>, search: string, sortBy: SortBy, m: Moment, collate: Collator)
    requires CollationOrder(collate)
    requires DatesParse(m, set r | r in ImeiRows(entries) :: r.date)
    ensures var view := ImeiView(Some(entries), search, sortBy, m, collate).value;
            var cmp := ImeiOrder(ImeiFieldOf(sortBy.field), m, collate);
            forall i, j :: 0 <= i < j < |view| ==> (if Descending(sortBy) then cmp(view[j], view[i]) else cmp(view[i], view[j])) <= 0
  {
    var rows := ImeiRows(entries);
    var filtered := FilterImeisBySearch(rows, search, m);
    var f := ImeiFieldOf(sortBy.field);
    assert (set r | r in filtered :: r.date) <= (set r | r in rows :: r.date);
    ImeiOrderConsistent(filtered, f, m, collate);
    Sorting.OrderedSorted(filtered, ImeiOrder(f, m, collate), Descending(sortBy));
  }
}
