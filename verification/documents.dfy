/**
 * The documents the list views work on, as the REST API returns them: an
 * entry (an order: customer name, date and products) and its products.
 * Every field may be missing; the views read missing fields through `||`
 * and `?.` defaults, which the helpers below name once.
 */
module Documents {
  import opened Base
  import opened Json
  import opened External

  datatype Product = Product(
    id: Option<string>,
    name: Option<string>,
    category: Option<string>,
    details: Option<string>,
    price: Option<int>,
    warranty: Option<string>,
    codes: Option<seq<string>>)

  /** The date is kept as the raw value handed to `new Date` and `moment`. */
  datatype Entry = Entry(id: Option<string>, name: Option<string>, date: Value, products: Option<seq<Product>>)

  /** The sort control's state: a field name and a direction ("asc" or "desc"). */
  datatype SortBy = SortBy(field: string, direction: string)

  /** `sortBy.direction === "desc"`. */
  predicate Descending(sortBy: SortBy)
  {
    sortBy.direction == "desc"
  }

  /** `doc.products || []`. */
  function Products(e: Entry): seq<Product>
  {
    if e.products.Some? then e.products.value else []
  }

  /** `product.codes || []`. */
  function Codes(p: Product): seq<string>
  {
    if p.codes.Some? then p.codes.value else []
  }

  /** The number of codes over a list of products, missing code lists counting as none. */
  function CodeTotal(products: seq<Product>): nat
  {
    if products == [] then 0 else CodeTotal(products[..|products| - 1]) + |Codes(products[|products| - 1])|
  }

  /** `item.products?.reduce((sum, product) => sum + (product.codes?.length || 0), 0) || 0`. */
  function TotalScans(e: Entry): nat
  {
    CodeTotal(Products(e))
  }

  /** `s || ""`. */
  function OrEmpty(s: Option<string>): string
  {
    if s.Some? then s.value else ""
  }

  /** `if (s)` on an optional string: present and non-empty. */
  predicate Truthy(s: Option<string>)
  {
    s.Some? && s.value != ""
  }

  /** `new Date(a) - new Date(b)`; an invalid date makes the difference NaN, which `sort` reads as 0. */
  function DateCompare(m: Moment, a: Value, b: Value): int
  {
    match (m.parse(a), m.parse(b))
    case (Some(x), Some(y)) => x - y
    case _ => 0
  }

  /** `(a || "").localeCompare(b || "")`. */
  function LocaleCompare(collate: Collator, a: Option<string>, b: Option<string>): int
  {
    collate(OrEmpty(a), OrEmpty(b))
  }

  /** `moment(date).format("DD MMM YYYY").toLowerCase()`. */
  function DateText(m: Moment, date: Value): string
  {
    Lower(m.format(date, "DD MMM YYYY"))
  }

  /** Every date among `dates` is valid, so the date comparator never sees NaN. */
  ghost predicate DatesParse(m: Moment, dates: set<Value>)
  {
    forall d :: d in dates ==> m.parse(d).Some?
  }

  /** With valid dates, the date comparator orders by instant: a total preorder. */
  lemma DateCompareOrder(m: Moment, a: Value, b: Value, c: Value)
    requires DatesParse(m, {a, b, c})
    ensures DateCompare(m, a, b) <= 0 || DateCompare(m, b, a) <= 0
    ensures DateCompare(m, a, b) <= 0 && DateCompare(m, b, c) <= 0 ==> DateCompare(m, a, c) <= 0
  {
    assert a in {a, b, c} && b in {a, b, c} && c in {a, b, c};
  }

  /** A collation, read through the `|| ""` default, is a total preorder on optional strings. */
  lemma LocaleCompareOrder(collate: Collator, a: Option<string>, b: Option<string>, c: Option<string>)
    requires CollationOrder(collate)
    ensures LocaleCompare(collate, a, b) <= 0 || LocaleCompare(collate, b, a) <= 0
    ensures LocaleCompare(collate, a, b) <= 0 && LocaleCompare(collate, b, c) <= 0 ==> LocaleCompare(collate, a, c) <= 0
  {
    var x, y := OrEmpty(a), OrEmpty(b);
    assert collate(x, y) <= 0 <==> collate(y, x) >= 0;
  }
}
