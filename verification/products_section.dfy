/**
 * The products section of the entry form: which product card is expanded,
 * adding and removing products, and the per-card error extraction that
 * picks the `products.<index>.<field>` keys out of the form's errors.
 */
module ProductsSection {
  import opened Base
  import opened Json
  import opened Documents
  import opened EntryForm

  /** The product `handleAddProduct` inserts: empty texts, price 0, no codes. */
  const BlankProduct := Product(None, Some(""), Some(""), Some(""), Some(0), Some(""), Some([]))

  /** `form.removeListItem("products", index)`: keeps every item whose index differs. */
  function RemoveAt<T>(s: seq<T>, index: nat): (r: seq<T>)
    ensures index < |s| ==> |r| == |s| - 1 && forall k :: 0 <= k < |r| ==> r[k] == s[if k < index then k else k + 1]
    ensures index >= |s| ==> r == s
  {
    if index < |s| then s[..index] + s[index + 1..] else s
  }

  /** The expanded card after product `index` is removed. */
  function AdjustExpanded(prev: Option<nat>, index: nat): Option<nat>
  {
    if prev == Some(index) then None
    else if prev.Some? && prev.value > index then Some(prev.value - 1)
    else prev
  }

  /** The products card list: the expanded card, over the form's product list. */
  class ProductsSectionState {
    var expandedIndex: Option<nat>
    const form: EntryFormState

    /** The expanded card, if any, is one of the products. */
    predicate Valid()
      reads this, form
    {
      expandedIndex.None? || expandedIndex.value < |form.products|
    }

    constructor (form: EntryFormState)
      ensures this.form == form && expandedIndex.None? && Valid()
    {
      this.form := form;
      expandedIndex := None;
    }

    /** `handleToggle`: collapses the card if it was expanded, else expands it (and only it). */
    method Toggle(index: nat)
      modifies this
      ensures expandedIndex == Some(index) <==> old(expandedIndex) != Some(index)
      ensures expandedIndex.None? || expandedIndex == Some(index)
      ensures index < |form.products| ==> Valid()
    {
      expandedIndex := if expandedIndex == Some(index) then None else Some(index);
    }

    /** `handleAddProduct`: appends a blank product and expands the new last card. */
    method AddProduct()
      modifies this, form
      ensures form.products == old(form.products) + [BlankProduct]
      ensures expandedIndex == Some(|form.products| - 1) && Valid()
      ensures form.name == old(form.name) && form.date == old(form.date) && form.errors == old(form.errors)
      ensures form.scannerProductIndex == old(form.scannerProductIndex) && form.otpValue == old(form.otpValue)
      ensures form.otpError == old(form.otpError) && form.sentEdits == old(form.sentEdits)
    {
      var count := |form.products|;
      form.products := form.products + [BlankProduct];
      expandedIndex := Some(count);
    }

    /**
     * `handleUpdateProduct`: a card's edit replaces its product, and setting
     * `products.<index>` clears the error stored under that key, which no
     * card shows (`UpdateKeepsCards`). Cards are rendered one per product,
     * so the index is always one of the list's.
     */
    method UpdateProduct(index: nat, updated: Product)
      modifies form
      requires Valid() && index < |form.products|
      ensures form.products == old(form.products)[index := updated]
      ensures Valid() && expandedIndex == old(expandedIndex)
      ensures form.errors == old(form.errors) - {ItemKey(index)}
      ensures form.name == old(form.name) && form.date == old(form.date)
      ensures form.scannerProductIndex == old(form.scannerProductIndex) && form.otpValue == old(form.otpValue)
      ensures form.otpError == old(form.otpError) && form.sentEdits == old(form.sentEdits)
    {
      form.products := form.products[index := updated];
      form.errors := form.errors - {ItemKey(index)};
    }

    /**
     * `handleRemoveProduct`: removes product `index` and re-indexes the
     * list's errors with it, so each card keeps its product's errors
     * (`RemoveItemErrorsCards`); the expanded card is cleared if it was that
     * product and otherwise still shows the product it showed.
     */
    method RemoveProduct(index: nat)
      modifies this, form
      requires Valid()
      ensures form.products == RemoveAt(old(form.products), index)
      ensures expandedIndex == AdjustExpanded(old(expandedIndex), index)
      ensures Valid()
      ensures old(expandedIndex) == Some(index) ==> expandedIndex.None?
      ensures old(expandedIndex).Some? && old(expandedIndex) != Some(index) && index < |old(form.products)|
              ==> expandedIndex.Some? && form.products[expandedIndex.value] == old(form.products)[old(expandedIndex).value]
      ensures form.errors == RemoveItemErrors(old(form.errors), index)
      ensures form.name == old(form.name) && form.date == old(form.date)
      ensures form.scannerProductIndex == old(form.scannerProductIndex) && form.otpValue == old(form.otpValue)
      ensures form.otpError == old(form.otpError) && form.sentEdits == old(form.sentEdits)
    {
      form.products := RemoveAt(form.products, index);
      form.errors := RemoveItemErrors(form.errors, index);
      if expandedIndex == Some(index) {
        expandedIndex := None;
      } else if expandedIndex.Some? && expandedIndex.value > index {
        expandedIndex := Some(expandedIndex.value - 1);
      }
    }
  }

  // ---------------------------------------------------------------- error extraction

  /** Different product indexes have prefixes that no key starts with both: the trailing dot keeps "products.1." from matching "products.10.". */
  lemma PrefixDetermines(i: nat, j: nat, key: string)
    requires IsPrefix(ProductPrefix(i), key) && IsPrefix(ProductPrefix(j), key)
    ensures i == j
  {
    var a, b := NatToString(i), NatToString(j);
    var pi, pj := ProductPrefix(i), ProductPrefix(j);
    assert |pi| == 10 + |a| && pi[9..9 + |a|] == a && pi[9 + |a|] == '.';
    assert |pj| == 10 + |b| && pj[9..9 + |b|] == b && pj[9 + |b|] == '.';
    assert key[..|pi|] == pi && key[..|pj|] == pj;
    if |a| < |b| {
      assert false;
    } else if |b| < |a| {
      assert false;
    } else {
      assert a == pi[9..9 + |a|] == key[9..9 + |a|];
      assert b == pj[9..9 + |b|] == key[9..9 + |b|];
      NatToStringInjective(i, j);
    }
  }

  /** Two keys with the same prefix and the same rest are the same key. */
  lemma StripInjective(prefix: string)
    ensures forall k1, k2 :: IsPrefix(prefix, k1) && IsPrefix(prefix, k2) && k1[|prefix|..] == k2[|prefix|..] ==> k1 == k2
  {
    forall k1, k2 | IsPrefix(prefix, k1) && IsPrefix(prefix, k2) && k1[|prefix|..] == k2[|prefix|..]
      ensures k1 == k2
    {
      assert k1 == k1[..|prefix|] + k1[|prefix|..];
      assert k2 == k2[..|prefix|] + k2[|prefix|..];
    }
  }

  /**
   * The errors shown on card `index`: the form errors keyed
   * `products.<index>.<field>`, each under its `<field>`.
   */
  function CardErrors(errors: map<string, string>, index: nat): (r: map<string, string>)
    ensures forall f :: f in r <==> ProductPrefix(index) + f in errors
    ensures forall f :: f in r ==> r[f] == errors[ProductPrefix(index) + f]
  {
    var prefix := ProductPrefix(index);
    StripInjective(prefix);
    var r := map k | k in errors && IsPrefix(prefix, k) :: k[|prefix|..] := errors[k];
    forall f
      ensures f in r <==> prefix + f in errors
      ensures f in r ==> r[f] == errors[prefix + f]
    {
      assert (prefix + f)[|prefix|..] == f;
      if f in r {
        var k :| k in errors && IsPrefix(prefix, k) && k[|prefix|..] == f;
        assert k == prefix + f by {
          assert k == k[..|prefix|] + k[|prefix|..];
        }
      }
    }
    r
  }

  /** `key.replace(prefix, "")` on a key that starts with the prefix drops it. */
  lemma ReplacePrefix(key: string, prefix: string)
    requires IsPrefix(prefix, key)
    ensures ReplaceFirst(key, prefix, "") == key[|prefix|..]
  {
    assert key[0..] == key;
    assert Contains(key, prefix);
    assert IndexOf(key, prefix) == Some(0);
  }

  /** The `forEach` over the form errors' keys that fills card `index`'s errors. */
  method ExtractCardErrors(errors: map<string, string>, index: nat) returns (r: map<string, string>)
    ensures r == CardErrors(errors, index)
  {
    var prefix := ProductPrefix(index);
    var keys := errors.Keys;
    r := map[];
    while keys != {}
      invariant keys <= errors.Keys
      invariant forall f :: f in r <==> prefix + f in errors && prefix + f !in keys
      invariant forall f :: f in r ==> r[f] == errors[prefix + f]
      decreases keys
    {
      var key :| key in keys;
      if IsPrefix(prefix, key) {
        var field := ReplaceFirst(key, prefix, "");
        ReplacePrefix(key, prefix);
        assert key == prefix + field by {
          assert key == key[..|prefix|] + key[|prefix|..];
        }
        r := r[field := errors[key]];
      } else {
        forall f
          ensures prefix + f != key
        {
          assert (prefix + f)[..|prefix|] == prefix;
        }
      }
      keys := keys - {key};
    }
    var spec := CardErrors(errors, index);
    assert r.Keys == spec.Keys;
  }

  // ---------------------------------------------------------------- the card shows validateProduct's fields

  /** Every key of the products' rule errors is `products.<j>.<field>` for a product `j` among the first `n` and a field it fails. */
  lemma ProductsErrorsKey(products: seq<Product>, n: nat, key: string) returns (j: nat, g: Field)
    requires n <= |products| && key in ProductsErrors(products, n)
    ensures j < n && key == ProductKey(j, g) && !FieldOk(products[j], g)
  {
    var f := ItemErrorsOf(products);
    UnionUpToKeys(n, f, key);
    j :| 0 <= j < n && key in f(j);
    assert key in ItemErrors(j, products[j]);
    g :| g in AllFields && !FieldOk(products[j], g) && key == ProductKey(j, g);
  }

  /** A failing field of product `i` has its key among the rule errors. */
  lemma ProductsErrorsHas(products: seq<Product>, n: nat, i: nat, f: Field)
    requires i < n <= |products| && !FieldOk(products[i], f)
    ensures ProductKey(i, f) in ProductsErrors(products, n)
  {
    var errorsOf := ItemErrorsOf(products);
    ItemErrorsHas(i, products[i], f);
    assert ProductKey(i, f) in errorsOf(i);
    UnionUpToKeys(n, errorsOf, ProductKey(i, f));
  }

  /** The party fields' error keys are "name" and "date". */
  lemma PartyKeys(name: string, date: Value)
    ensures PartyErrors(name, date).Keys <= {"name", "date"}
  {
  }

  /** Every field name names a field. */
  lemma FieldNamed(s: string) returns (g: Field)
    requires s in FieldNames
    ensures FieldName(g) == s
  {
    if s == "category" { g := Category; }
    else if s == "name" { g := Name; }
    else if s == "details" { g := Details; }
    else if s == "price" { g := Price; }
    else if s == "warranty" { g := Warranty; }
    else { g := CodeList; }
  }

  /** A form error under card `i`'s prefix is the key of a field product `i` fails. */
  lemma CardKey(name: string, date: Value, products: seq<Product>, i: nat, k: string) returns (g: Field)
    requires i < |products| && k in FormErrors(name, date, products) && IsPrefix(ProductPrefix(i), k)
    ensures k == ProductKey(i, g) && !FieldOk(products[i], g)
  {
    assert |k| >= |ProductPrefix(i)| > 4;
    PartyKeys(name, date);
    assert k in ProductsErrors(products, |products|);
    var j, h := ProductsErrorsKey(products, |products|, k);
    assert IsPrefix(ProductPrefix(j), k) by {
      assert k[..|ProductPrefix(j)|] == ProductPrefix(j);
    }
    PrefixDetermines(i, j, k);
    g := h;
  }

  /** Card `i` shows a field exactly when product `i` fails it. */
  lemma CardFieldShown(name: string, date: Value, products: seq<Product>, i: nat, f: Field)
    requires i < |products|
    ensures FieldName(f) in CardErrors(FormErrors(name, date, products), i) <==> !FieldOk(products[i], f)
  {
    var errors := FormErrors(name, date, products);
    var key := ProductPrefix(i) + FieldName(f);
    assert key == ProductKey(i, f);
    if !FieldOk(products[i], f) {
      ProductsErrorsHas(products, |products|, i, f);
    }
    if key in errors {
      assert IsPrefix(ProductPrefix(i), key);
      var g := CardKey(name, date, products, i, key);
      ProductKeyInjective(i);
    }
  }

  /** Card `i` shows only field names. */
  lemma CardShowsFieldsOnly(name: string, date: Value, products: seq<Product>, i: nat)
    requires i < |products|
    ensures CardErrors(FormErrors(name, date, products), i).Keys <= FieldNames
  {
    var shown := CardErrors(FormErrors(name, date, products), i);
    var prefix := ProductPrefix(i);
    forall s | s in shown
      ensures s in FieldNames
    {
      assert IsPrefix(prefix, prefix + s);
      var g := CardKey(name, date, products, i, prefix + s);
      assert s == (prefix + s)[|prefix|..] == FieldName(g);
      FieldNameInjective();
    }
  }

  /**
   * After `form.validate()`, card `i` shows exactly the fields
   * `validateProduct` rejects for product `i`, and no other key: the party
   * fields and the other products' errors never reach it.
   */
  lemma CardShowsProductErrors(name: string, date: Value, products: seq<Product>, i: nat)
    requires i < |products|
    ensures var shown := CardErrors(FormErrors(name, date, products), i);
            && shown.Keys <= FieldNames
            && (forall f: Field :: FieldName(f) in shown <==> !FieldOk(products[i], f))
            && (shown == map[] <==> ValidateProduct(products[i]).None?)
  {
    var shown := CardErrors(FormErrors(name, date, products), i);
    CardShowsFieldsOnly(name, date, products, i);
    forall f: Field
      ensures FieldName(f) in shown <==> !FieldOk(products[i], f)
    {
      CardFieldShown(name, date, products, i, f);
    }
    if shown != map[] {
      var s :| s in shown;
      var g := FieldNamed(s);
      assert !FieldOk(products[i], g);
    } else {
      forall f: Field
        ensures FieldOk(products[i], f)
      {
        assert FieldName(f) !in shown;
      }
    }
  }

  // ---------------------------------------------------------------- removing an item re-indexes the errors

  const ListPath := "products."

  /** The end of the run of digits starting at `i`. */
  function DigitsEnd(t: string, i: nat): (r: nat)
    requires i <= |t|
    ensures i <= r <= |t| && (r == |t| || !IsDigit(t[r]))
    ensures forall m :: i <= m < r ==> IsDigit(t[m])
    decreases |t| - i
  {
    if i < |t| && IsDigit(t[i]) then DigitsEnd(t, i + 1) else i
  }

  /**
   * The item index and the rest of an error key `products.<index>.<rest>`
   * whose index is written in decimal without leading zeros; `None` for
   * every other key.
   */
  function ParseListKey(k: string): Option<(nat, string)>
  {
    if !IsPrefix(ListPath, k) then None
    else
      var t := k[|ListPath|..];
      var n := DigitsEnd(t, 0);
      if n == 0 || n == |t| || t[n] != '.' then None
      else
        var d := t[..n];
        assert AllDigits(d) by {
          forall m | 0 <= m < |d|
            ensures IsDigit(d[m])
          {
            assert d[m] == t[m];
          }
        }
        if NatToString(DigitsValue(d)) != d then None else Some((DigitsValue(d), t[n + 1..]))
  }

  /** A product's key parses back to its index and field. */
  lemma ParseProductKey(j: nat, rest: string)
    ensures ParseListKey(ProductPrefix(j) + rest) == Some((j, rest))
  {
    var k := ProductPrefix(j) + rest;
    var d := NatToString(j);
    assert k == ListPath + (d + "." + rest);
    assert IsPrefix(ListPath, k);
    var t := k[|ListPath|..];
    assert t == d + "." + rest;
    var n := DigitsEnd(t, 0);
    assert forall m :: 0 <= m < |d| ==> t[m] == d[m];
    assert t[|d|] == '.';
    assert n == |d|;
    assert t[..n] == d;
    assert t[n + 1..] == rest;
    NatStringValue(j);
  }

  /** A parsed key is the product key of what it parses to. */
  lemma ParsedKey(k: string)
    requires ParseListKey(k).Some?
    ensures k == ProductPrefix(ParseListKey(k).value.0) + ParseListKey(k).value.1
  {
    var t := k[|ListPath|..];
    var n := DigitsEnd(t, 0);
    assert k == ListPath + t;
    assert t == t[..n] + "." + t[n + 1..];
  }

  /**
   * Where the errors' re-indexing moves a key when item `index` is removed:
   * keys of earlier items stay, the removed item's keys are dropped, later
   * items' keys move down one index, and other keys stay.
   */
  function MovedKey(k: string, index: nat): Option<string>
  {
    match ParseListKey(k)
    case None => Some(k)
    case Some((j, rest)) =>
      if j < index then Some(k)
      else if j == index then None
      else Some(ProductPrefix(j - 1) + rest)
  }

  /** The key a moved key came from. */
  function OriginalKey(k: string, index: nat): string
  {
    match ParseListKey(k)
    case None => k
    case Some((j, rest)) => if j < index then k else ProductPrefix(j + 1) + rest
  }

  lemma MovedKeyBack(k: string, index: nat)
    requires MovedKey(k, index).Some?
    ensures OriginalKey(MovedKey(k, index).value, index) == k
  {
    if ParseListKey(k).Some? {
      var (j, rest) := ParseListKey(k).value;
      ParsedKey(k);
      if j > index {
        ParseProductKey(j - 1, rest);
      }
    }
  }

  lemma MovedKeyInjective(index: nat)
    ensures forall k1, k2 :: MovedKey(k1, index).Some? && MovedKey(k2, index).Some? && MovedKey(k1, index) == MovedKey(k2, index) ==> k1 == k2
  {
    forall k1, k2 | MovedKey(k1, index).Some? && MovedKey(k2, index).Some? && MovedKey(k1, index) == MovedKey(k2, index)
      ensures k1 == k2
    {
      MovedKeyBack(k1, index);
      MovedKeyBack(k2, index);
    }
  }

  /** The form's errors after `removeListItem("products", index)`, which re-indexes the list's error keys. */
  function RemoveItemErrors(errors: map<string, string>, index: nat): map<string, string>
  {
    MovedKeyInjective(index);
    map k | k in errors && MovedKey(k, index).Some? :: MovedKey(k, index).value := errors[k]
  }

  /** A key that is moved lands where `MovedKey` says, with its message. */
  lemma RemoveItemErrorsHas(errors: map<string, string>, index: nat, k: string)
    requires k in errors && MovedKey(k, index).Some?
    ensures MovedKey(k, index).value in RemoveItemErrors(errors, index)
    ensures RemoveItemErrors(errors, index)[MovedKey(k, index).value] == errors[k]
  {
    MovedKeyInjective(index);
  }

  /** Every key after a removal was moved there from its original key. */
  lemma RemoveItemErrorsFrom(errors: map<string, string>, index: nat, x: string)
    requires x in RemoveItemErrors(errors, index)
    ensures OriginalKey(x, index) in errors && MovedKey(OriginalKey(x, index), index) == Some(x)
  {
    var k :| k in errors && MovedKey(k, index) == Some(x);
    MovedKeyBack(k, index);
  }

  /** The item a card shows after removing item `index`: earlier cards keep theirs, later ones show the next. */
  function SourceCard(index: nat, j: nat): nat
  {
    if j < index then j else j + 1
  }

  /** Field `f` of card `j` after a removal is field `f` of its source card before. */
  lemma RemovedCardField(errors: map<string, string>, index: nat, j: nat, f: string)
    ensures ProductPrefix(j) + f in RemoveItemErrors(errors, index) <==> ProductPrefix(SourceCard(index, j)) + f in errors
    ensures ProductPrefix(j) + f in RemoveItemErrors(errors, index)
            ==> RemoveItemErrors(errors, index)[ProductPrefix(j) + f] == errors[ProductPrefix(SourceCard(index, j)) + f]
  {
    var k0, x := ProductPrefix(SourceCard(index, j)) + f, ProductPrefix(j) + f;
    ParseProductKey(SourceCard(index, j), f);
    ParseProductKey(j, f);
    assert MovedKey(k0, index) == Some(x);
    assert OriginalKey(x, index) == k0;
    if k0 in errors {
      RemoveItemErrorsHas(errors, index, k0);
    }
    if x in RemoveItemErrors(errors, index) {
      RemoveItemErrorsFrom(errors, index, x);
    }
  }

  /** After a removal, card `j` shows what card `j` showed before when it is earlier, and what card `j + 1` showed otherwise. */
  lemma RemoveItemErrorsCards(errors: map<string, string>, index: nat, j: nat)
    ensures CardErrors(RemoveItemErrors(errors, index), j) == CardErrors(errors, SourceCard(index, j))
  {
    var after, before := CardErrors(RemoveItemErrors(errors, index), j), CardErrors(errors, SourceCard(index, j));
    forall f
      ensures f in after <==> f in before
      ensures f in after ==> after[f] == before[f]
    {
      RemovedCardField(errors, index, j, f);
    }
  }

  /** Keys that name no item are kept as they are. */
  lemma RemoveItemErrorsOthers(errors: map<string, string>, index: nat, k: string)
    requires ParseListKey(k).None?
    ensures k in RemoveItemErrors(errors, index) <==> k in errors
    ensures k in errors ==> RemoveItemErrors(errors, index)[k] == errors[k]
  {
    assert MovedKey(k, index) == Some(k) && OriginalKey(k, index) == k;
    if k in errors {
      RemoveItemErrorsHas(errors, index, k);
    }
    if k in RemoveItemErrors(errors, index) {
      RemoveItemErrorsFrom(errors, index, k);
    }
  }

  /**
   * After removing a validated product, every card still shows exactly the
   * failing fields of the product it now holds.
   */
  lemma RemovalKeepsCardErrors(name: string, date: Value, products: seq<Product>, index: nat, j: nat, f: Field)
    requires index < |products| && j < |products| - 1
    ensures FieldName(f) in CardErrors(RemoveItemErrors(FormErrors(name, date, products), index), j)
            <==> !FieldOk(RemoveAt(products, index)[j], f)
  {
    var errors := FormErrors(name, date, products);
    var from := SourceCard(index, j);
    assert RemoveAt(products, index)[j] == products[from];
    RemovedCardField(errors, index, j, FieldName(f));
    CardFieldShown(name, date, products, from, f);
  }

  // ---------------------------------------------------------------- a scanned code clears the codes error

  /** The key of field `f` on card `j` is the codes key of item `i` only for the codes field of that same item. */
  lemma CodesKeyOnCard(i: nat, j: nat, f: string)
    ensures ProductPrefix(j) + f == ProductKey(i, CodeList) <==> j == i && f == FieldName(CodeList)
  {
    var k := ProductPrefix(j) + f;
    if k == ProductKey(i, CodeList) {
      assert IsPrefix(ProductPrefix(j), k) && IsPrefix(ProductPrefix(i), k);
      PrefixDetermines(i, j, k);
      assert f == k[|ProductPrefix(j)|..] == FieldName(CodeList);
    }
  }

  /** Clearing the codes error of item `i` takes `codes` off card `i` and leaves every other field of every card as it was. */
  lemma ClearCodesErrorCards(errors: map<string, string>, i: nat, j: nat, f: string)
    ensures f in CardErrors(errors - {ProductKey(i, CodeList)}, j)
            <==> f in CardErrors(errors, j) && !(j == i && f == FieldName(CodeList))
    ensures f in CardErrors(errors - {ProductKey(i, CodeList)}, j)
            ==> CardErrors(errors - {ProductKey(i, CodeList)}, j)[f] == CardErrors(errors, j)[f]
  {
    CodesKeyOnCard(i, j, f);
  }

  /** Adding a code makes the codes acceptable and leaves every other field as it was. */
  lemma AddCodeFieldOk(p: Product, code: string, f: Field)
    ensures FieldOk(p.(codes := Some(Codes(p) + [code])), f) <==> f == CodeList || FieldOk(p, f)
  {
    var q := p.(codes := Some(Codes(p) + [code]));
    assert Codes(q) == Codes(p) + [code];
  }

  /** A card that shows exactly the failing fields keeps doing so when its product takes a code and the codes error is cleared. */
  lemma ClearedCardShows(errors: map<string, string>, products: seq<Product>, i: nat, code: string, j: nat, f: Field)
    requires i < |products| && j < |products|
    requires FieldName(f) in CardErrors(errors, j) <==> !FieldOk(products[j], f)
    ensures FieldName(f) in CardErrors(errors - {ProductKey(i, CodeList)}, j)
            <==> !FieldOk(products[i := products[i].(codes := Some(Codes(products[i]) + [code]))][j], f)
  {
    ClearCodesErrorCards(errors, i, j, FieldName(f));
    if j == i {
      AddCodeFieldOk(products[i], code, f);
      FieldNameInjective();
    }
  }

  /**
   * After a validated form takes a new code into product `i`, card `i`
   * still shows exactly the failing fields of the product, whose codes are
   * now acceptable, and every other card is unchanged.
   */
  lemma ScannedCodeKeepsCardErrors(name: string, date: Value, products: seq<Product>, i: nat, code: string, j: nat, f: Field)
    requires i < |products| && j < |products|
    ensures FieldName(f) in CardErrors(FormErrors(name, date, products) - {ProductKey(i, CodeList)}, j)
            <==> !FieldOk(products[i := products[i].(codes := Some(Codes(products[i]) + [code]))][j], f)
  {
    CardFieldShown(name, date, products, j, f);
    ClearedCardShows(FormErrors(name, date, products), products, i, code, j, f);
  }

  // ---------------------------------------------------------------- replacing an item clears its own key

  /** `products.${index}`: the key of a whole item. */
  function ItemKey(index: nat): string
  {
    ListPath + NatToString(index)
  }

  /** A card key has a dot right after its index. */
  lemma CardKeyDot(j: nat, f: string)
    ensures |ListPath| + |NatToString(j)| < |ProductPrefix(j) + f|
    ensures (ProductPrefix(j) + f)[|ListPath| + |NatToString(j)|] == '.'
  {
  }

  /** An item key has only digits after the list path. */
  lemma ItemKeyDigits(index: nat)
    ensures forall m :: |ListPath| <= m < |ItemKey(index)| ==> IsDigit(ItemKey(index)[m])
  {
    var e := NatToString(index);
    forall m | |ListPath| <= m < |ItemKey(index)|
      ensures IsDigit(ItemKey(index)[m])
    {
      assert ItemKey(index)[m] == e[m - |ListPath|];
    }
  }

  /** No card field's key is the key of a whole item: a card key has a dot after the index. */
  lemma ItemKeyOnNoCard(index: nat, j: nat, f: string)
    ensures ProductPrefix(j) + f != ItemKey(index)
  {
    CardKeyDot(j, f);
    ItemKeyDigits(index);
    assert ProductPrefix(j)[..|ListPath|] == ListPath;
  }

  /** Clearing the key of a whole item leaves every card's errors as they were. */
  lemma UpdateKeepsCards(errors: map<string, string>, index: nat, j: nat, f: string)
    ensures f in CardErrors(errors - {ItemKey(index)}, j) <==> f in CardErrors(errors, j)
    ensures f in CardErrors(errors, j) ==> CardErrors(errors - {ItemKey(index)}, j)[f] == CardErrors(errors, j)[f]
  {
    ItemKeyOnNoCard(index, j, f);
  }
}
