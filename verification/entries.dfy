/**
 * The entry view: the entries themselves, searched with one substring and
 * sorted by a field from a comparator table (`sortComparators`,
 * `filterBySearch`, `processEntries`).
 */
module Entries {
  import opened Base
  import opened Json
  import opened External
  import opened Documents
  import Sorting

  // ---------------------------------------------------------------- comparators

  /** The keys of `sortComparators`. */
  datatype EntryField = ByDate | ByName | ByTotalScans

  /** `sortComparators[field] || sortComparators.date`. */
  function EntryFieldOf(field: string): (f: EntryField)
    ensures f == ByDate <==> field !in {"name", "total_scans"}
  {
    match field
    case "name" => ByName
    case "total_scans" => ByTotalScans
    case _ => ByDate
  }

  function EntryCompare(f: EntryField, m: Moment, collate: Collator, a: Entry, b: Entry): int
  {
    match f
    case ByDate => DateCompare(m, a.date, b.date)
    case ByName => LocaleCompare(collate, a.name, b.name)
    case ByTotalScans => TotalScans(a) - TotalScans(b)
  }

  /** The comparator handed to `sort`. */
  function EntryOrder(f: EntryField, m: Moment, collate: Collator): (Entry, Entry) -> int
  {
    (a, b) => EntryCompare(f, m, collate, a, b)
  }

  /** The scan count adds up over the products: each product counts its codes, a missing list none. */
  lemma {:induction false} CodeTotalAppend(a: seq<Product>, b: seq<Product>)
    ensures CodeTotal(a + b) == CodeTotal(a) + CodeTotal(b)
  {
    if b != [] {
      var b' := b[..|b| - 1];
      assert (a + b)[..|a + b| - 1] == a + b';
      CodeTotalAppend(a, b');
    } else {
      assert a + b == a;
    }
  }

  /** An entry whose products are all codeless, or that has none, has a scan count of 0. */
  lemma {:induction false} NoCodesNoScans(products: seq<Product>)
    requires forall j :: 0 <= j < |products| ==> Codes(products[j]) == []
    ensures CodeTotal(products) == 0
  {
    if products != [] {
      NoCodesNoScans(products[..|products| - 1]);
    }
  }

  /** Each comparator is a total preorder on the entries, given a collation and, for the date comparator, valid dates. */
  lemma EntryOrderConsistent(entries: seq<Entry>, f: EntryField, m: Moment, collate: Collator)
    requires CollationOrder(collate)
    requires f == ByDate ==> DatesParse(m, set e | e in entries :: e.date)
    ensures Sorting.Consistent(EntryOrder(f, m, collate), entries)
  {
    var cmp := EntryOrder(f, m, collate);
    forall a, b, c | a in entries && b in entries && c in entries
      ensures Sorting.Connex(cmp, a, b) && Sorting.Transitive(cmp, a, b, c)
    {
      match f
      case ByDate =>
        var dates := set e | e in entries :: e.date;
        assert a.date in dates && b.date in dates && c.date in dates;
        DateCompareOrder(m, a.date, b.date, c.date);
      case ByName => LocaleCompareOrder(collate, a.name, b.name, c.name);
      case ByTotalScans =>
    }
    forall a, b | a in entries && b in entries
      ensures Sorting.Connex(cmp, a, b)
    {
      assert Sorting.Transitive(cmp, a, b, a);
    }
  }

  // ---------------------------------------------------------------- search

  /** `product.name?.toLowerCase().includes(q)` or some code `code?.toString().toLowerCase().includes(q)`. */
  predicate ProductMatches(lowerQuery: string, p: Product)
  {
    (p.name.Some? && Contains(Lower(p.name.value), lowerQuery))
    || exists c :: c in Codes(p) && Contains(Lower(c), lowerQuery)
  }

  /** The entry's name, its formatted date, or one of its products holds the whole query. */
  predicate EntryMatches(lowerQuery: string, e: Entry, m: Moment)
  {
    || (e.name.Some? && Contains(Lower(e.name.value), lowerQuery))
    || Contains(DateText(m, e.date), lowerQuery)
    || exists p :: p in Products(e) && ProductMatches(lowerQuery, p)
  }

  /** `filterBySearch`: an empty query keeps every entry. */
  function FilterBySearch(data: seq<Entry>, query: string, m: Moment): (r: seq<Entry>)
    ensures query == "" ==> r == data
    ensures forall e :: e in r <==> e in data && (query == "" || EntryMatches(Lower(query), e, m))
  {
    if query == "" then data else Filter(data, e => EntryMatches(Lower(query), e, m))
  }

  /** The search ignores the case of the query: lower-casing it first changes nothing. */
  lemma FilterIgnoresQueryCase(data: seq<Entry>, query: string, m: Moment)
    ensures FilterBySearch(data, Lower(query), m) == FilterBySearch(data, query, m)
  {
    LowerIdempotent(query);
    if query != "" {
      assert Lower(query) != "";
    }
  }

  /** A code of a product holding the whole query is enough, whatever the name and date. */
  lemma CodeMatchKeepsEntry(data: seq<Entry>, query: string, m: Moment, e: Entry, p: Product, c: string)
    requires e in data && p in Products(e) && c in Codes(p) && Contains(Lower(c), Lower(query))
    ensures e in FilterBySearch(data, query, m)
  {
    assert ProductMatches(Lower(query), p);
  }

  // ---------------------------------------------------------------- pipeline

  /** What `processEntries` returns: the search is trimmed before filtering. */
  function EntryView(data: seq<Entry>, search: string, sortBy: SortBy, m: Moment, collate: Collator): seq<Entry>
  {
    var filtered := FilterBySearch(data, Trim(search), m);
    Sorting.Ordered(filtered, EntryOrder(EntryFieldOf(sortBy.field), m, collate), Descending(sortBy))
  }

  /** `processEntries`: trim, filter, sort a copy, and reverse it for "desc". */
  method ProcessEntries(data: seq<Entry>, search: string, sortBy: SortBy, m: Moment, collate: Collator)
    returns (sorted: seq<Entry>)
    ensures sorted == EntryView(data, search, sortBy, m, collate)
    ensures multiset(sorted) == multiset(FilterBySearch(data, Trim(search), m))
  {
    var searchQuery := Trim(search);
    var filtered := FilterBySearch(data, searchQuery, m);
    var comparator := EntryOrder(EntryFieldOf(sortBy.field), m, collate);
    sorted := Sorting.SortCopy(filtered, comparator, Descending(sortBy));
  }

  /** A blank search keeps every entry: the view is a reordering of the input. */
  lemma BlankSearchKeepsAll(data: seq<Entry>, search: string, sortBy: SortBy, m: Moment, collate: Collator)
    requires forall i :: 0 <= i < |search| ==> IsSpace(search[i])
    ensures multiset(EntryView(data, search, sortBy, m, collate)) == multiset(data)
  {
    TrimEmptyIffBlank(search);
  }

  /** The view is ordered by the chosen comparator, backwards for "desc". */
  lemma EntryViewSorted(data: seq<Entry>, search: string, sortBy: SortBy, m: Moment, collate: Collator)
    requires CollationOrder(collate)
    requires DatesParse(m, set e | e in data :: e.date)
    ensures var view := EntryView(data, search, sortBy, m, collate);
            var cmp := EntryOrder(EntryFieldOf(sortBy.field), m, collate);
            forall i, j :: 0 <= i < j < |view| ==> (if Descending(sortBy) then cmp(view[j], view[i]) else cmp(view[i], view[j])) <= 0
  {
    var filtered := FilterBySearch(data, Trim(search), m);
    var f := EntryFieldOf(sortBy.field);
    assert (set e | e in filtered :: e.date) <= (set e | e in data :: e.date);
    EntryOrderConsistent(filtered, f, m, collate);
    Sorting.OrderedSorted(filtered, EntryOrder(f, m, collate), Descending(sortBy));
  }
}
