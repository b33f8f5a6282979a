/**
 * The product picker of a product card: the catalogue filtered by the
 * typed search, the free-text input shown for the "Other" category, and
 * the picker being disabled until a category is chosen.
 */
module ProductSelector {
  import opened Base

  /** A catalogue product; only its name is searched and shown. */
  datatype CatalogProduct = CatalogProduct(name: string)

  /** `p.name.toLowerCase().includes(lower)`. */
  predicate NameMatches(lower: string, p: CatalogProduct)
  {
    Contains(Lower(p.name), lower)
  }

  /**
   * `filteredProducts`: a missing or empty list gives [], an empty search
   * the whole list, and otherwise the products whose lower-cased name
   * contains the lower-cased search, in their order.
   */
  function FilteredProducts(products: Option<seq<CatalogProduct>>, search: string): (r: seq<CatalogProduct>)
    ensures products.None? || products.value == [] ==> r == []
    ensures products.Some? && search == "" ==> r == products.value
    ensures products.Some? && search != "" ==>
              forall p :: p in r <==> p in products.value && Contains(Lower(p.name), Lower(search))
  {
    if products.None? || products.value == [] then []
    else if search == "" then products.value
    else Filter(products.value, p => NameMatches(Lower(search), p))
  }

  /** The search ignores letter case: searching "ABC" and "abc" lists the same products. */
  lemma {:induction false} FilterIgnoresCase(products: Option<seq<CatalogProduct>>, search: string)
    ensures FilteredProducts(products, search) == FilteredProducts(products, Lower(search))
  {
    LowerIdempotent(search);
    if products.Some? && products.value != [] && search != "" {
      assert Lower(search) != "";
      FilterExt(products.value, p => NameMatches(Lower(search), p), p => NameMatches(Lower(Lower(search)), p));
    }
  }

  /** Searching within the listed products for the same text lists them all again. */
  lemma FilterIdempotentSearch(products: seq<CatalogProduct>, search: string)
    requires products != []
    ensures var listed := FilteredProducts(Some(products), search);
            listed != [] ==> FilteredProducts(Some(listed), search) == listed
  {
    if search != "" {
      FilterIdempotent(products, p => NameMatches(Lower(search), p));
    }
  }

  /** Typing more text never lists a product that a shorter prefix of that text did not list. */
  lemma NarrowingSearch(products: seq<CatalogProduct>, search: string, more: string)
    requires search != ""
    ensures forall p :: p in FilteredProducts(Some(products), search + more) ==> p in FilteredProducts(Some(products), search)
  {
    LowerAppend(search, more);
    forall p | p in FilteredProducts(Some(products), search + more)
      ensures p in FilteredProducts(Some(products), search)
    {
      var hay, s := Lower(p.name), Lower(search);
      var i :| 0 <= i <= |hay| - |s + Lower(more)| && IsPrefix(s + Lower(more), hay[i..]);
      assert hay[i..][..|s|] == (s + Lower(more))[..|s|] == s;
      assert IsPrefix(s, hay[i..]);
    }
  }

  /** What the product field shows. */
  datatype SelectorView =
    | FreeText(text: string)
    | Picker(inputText: string, options: seq<string>, disabled: bool, placeholder: string)

  /**
   * The field for a category: "Other" gets a plain text input holding the
   * value; any other category gets the searchable picker, disabled while no
   * category is chosen (or when the caller disables it).
   */
  function SelectorFor(products: Option<seq<CatalogProduct>>, search: string, value: Option<string>,
                       category: Option<string>, disabled: bool): (r: SelectorView)
    ensures category == Some("Other") <==> r.FreeText?
    ensures r.Picker? ==> (r.disabled <==> disabled || category.None? || category == Some(""))
    ensures r.Picker? ==> |r.options| == |FilteredProducts(products, search)|
  {
    var filtered := FilteredProducts(products, search);
    if category == Some("Other") then
      FreeText(if value.None? then "" else value.value)
    else
      var noCategory := category.None? || category == Some("");
      Picker(
        if value.None? || value.value == "" then search else value.value,
        seq(|filtered|, i requires 0 <= i < |filtered| => filtered[i].name),
        disabled || noCategory,
        if noCategory then "Choose category first..." else "Search products...")
  }

  /** For "Other" the catalogue and the search play no part. */
  lemma OtherIgnoresCatalogue(products1: Option<seq<CatalogProduct>>, products2: Option<seq<CatalogProduct>>,
                               search1: string, search2: string, value: Option<string>, disabled: bool)
    ensures SelectorFor(products1, search1, value, Some("Other"), disabled)
         == SelectorFor(products2, search2, value, Some("Other"), disabled)
  {
  }

  /** The picker lists, in order, the names of the filtered products. */
  lemma PickerListsFiltered(products: Option<seq<CatalogProduct>>, search: string, value: Option<string>,
                            category: Option<string>, disabled: bool, i: nat)
    requires category != Some("Other") && i < |FilteredProducts(products, search)|
    ensures SelectorFor(products, search, value, category, disabled).options[i] == FilteredProducts(products, search)[i].name
  {
  }
}
