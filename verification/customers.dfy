/**
 * The customer list: a search over name and city, then a sort on one
 * field (`processCustomers`). Customers are records of text fields.
 */
module Customers {
  import opened Base
  import opened External
  import opened Documents
  import Sorting

  /** A customer's text fields by name (`fullName`, `city`, …). */
  datatype Customer = Customer(fields: map<string, string>)

  /** `c[field]`, `undefined` being `None`. */
  function FieldOf(c: Customer, field: string): Option<string>
  {
    if field in c.fields then Some(c.fields[field]) else None
  }

  /** The sort the page starts with: by name, ascending. */
  const DefaultSort := SortBy("fullName", "asc")

  /** `c.fullName?.toLowerCase().includes(s) || c.city?.toLowerCase().includes(s)`. */
  predicate CustomerMatches(searchLower: string, c: Customer)
  {
    || (FieldOf(c, "fullName").Some? && Contains(Lower(FieldOf(c, "fullName").value), searchLower))
    || (FieldOf(c, "city").Some? && Contains(Lower(FieldOf(c, "city").value), searchLower))
  }

  /**
   * The search step: a search that is blank once trimmed keeps everyone;
   * otherwise the untrimmed, lower-cased search must occur in the name or
   * the city.
   */
  function SearchCustomers(customers: seq<Customer>, search: string): (r: seq<Customer>)
    ensures Trim(search) == "" ==> r == customers
    ensures forall c :: c in r <==> c in customers && (Trim(search) == "" || CustomerMatches(Lower(search), c))
  {
    if Trim(search) == "" then customers else Filter(customers, MatchesSearch(Lower(search)))
  }

  /** The filter callback for a lower-cased search. */
  function MatchesSearch(searchLower: string): Customer -> bool
  {
    c => CustomerMatches(searchLower, c)
  }

  /** `(a[field] || "").toLowerCase().localeCompare(…)`, negated unless the direction is "asc". */
  function CustomerCompare(sortBy: SortBy, collate: Collator, a: Customer, b: Customer): int
  {
    var comparison := collate(Lower(OrEmpty(FieldOf(a, sortBy.field))), Lower(OrEmpty(FieldOf(b, sortBy.field))));
    if sortBy.direction == "asc" then comparison else -comparison
  }

  /** The comparator handed to `sort`. */
  function CustomerOrder(sortBy: SortBy, collate: Collator): (Customer, Customer) -> int
  {
    (a, b) => CustomerCompare(sortBy, collate, a, b)
  }

  /** In either direction the comparator is a total preorder, given a collation. */
  lemma CustomerOrderConsistent(customers: seq<Customer>, sortBy: SortBy, collate: Collator)
    requires CollationOrder(collate)
    ensures Sorting.Consistent(CustomerOrder(sortBy, collate), customers)
  {
    var cmp := CustomerOrder(sortBy, collate);
    var key := (c: Customer) => Lower(OrEmpty(FieldOf(c, sortBy.field)));
    forall a, b, c | a in customers && b in customers && c in customers
      ensures Sorting.Connex(cmp, a, b) && Sorting.Transitive(cmp, a, b, c)
    {
      var x, y, z := key(a), key(b), key(c);
      assert collate(x, y) <= 0 <==> collate(y, x) >= 0;
      assert collate(y, z) <= 0 <==> collate(z, y) >= 0;
      assert collate(x, z) <= 0 <==> collate(z, x) >= 0;
      if sortBy.direction != "asc" && collate(y, x) <= 0 && collate(z, y) <= 0 {
        assert collate(z, x) <= 0;
      }
    }
    forall a, b | a in customers && b in customers
      ensures Sorting.Connex(cmp, a, b)
    {
      assert Sorting.Transitive(cmp, a, b, a);
    }
  }

  /** What `processCustomers` returns. */
  function CustomerView(customers: seq<Customer>, search: string, sortBy: SortBy, collate: Collator): seq<Customer>
  {
    Sorting.StableSort(SearchCustomers(customers, search), CustomerOrder(sortBy, collate))
  }

  /** `processCustomers`: copy the list, filter it when the search is not blank, and sort it in place. */
  method ProcessCustomers(customers: seq<Customer>, search: string, sortBy: SortBy, collate: Collator)
    returns (result: seq<Customer>)
    ensures result == CustomerView(customers, search, sortBy, collate)
    ensures multiset(result) == multiset(SearchCustomers(customers, search))
  {
    var filtered: seq<Customer>;
    if Trim(search) != "" {
      var searchLower := Lower(search);
      filtered := Filter(customers, MatchesSearch(searchLower));
    } else {
      filtered := customers;
    }
    assert filtered == SearchCustomers(customers, search);
    result := Sorting.SortCopy(filtered, CustomerOrder(sortBy, collate), false);
  }

  /** The list comes out ordered by the chosen field, in the chosen direction. */
  lemma CustomerViewSorted(customers: seq<Customer>, search: string, sortBy: SortBy, collate: Collator)
    requires CollationOrder(collate)
    ensures Sorting.Sorted(CustomerView(customers, search, sortBy, collate), CustomerOrder(sortBy, collate))
  {
    var filtered := SearchCustomers(customers, search);
    CustomerOrderConsistent(filtered, sortBy, collate);
    Sorting.StableSortSorted(filtered, CustomerOrder(sortBy, collate));
  }
}
