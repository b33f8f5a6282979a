/**
 * The create/edit entry form: the per-product check `validateProduct`, the
 * form's own validation rules and their error keys, the duplicate-guarded
 * append of a scanned code, the submit check (`validateForm`) and the
 * one-time-code gate in front of an edit (`handleOtpConfirm`).
 */
module EntryForm {
  import opened Base
  import opened Json
  import opened Documents

  /** The fixed code that confirms an edit. */
  const EditOtpCode := "788983"

  /** The product fields both validators check, in the order they check them. */
  datatype Field = Category | Name | Details | Price | Warranty | CodeList

  const AllFields: seq<Field> := [Category, Name, Details, Price, Warranty, CodeList]

  /** The field's key in an error object. */
  function FieldName(f: Field): string
  {
    match f
    case Category => "category"
    case Name => "name"
    case Details => "details"
    case Price => "price"
    case Warranty => "warranty"
    case CodeList => "codes"
  }

  const FieldNames: set<string> := {"category", "name", "details", "price", "warranty", "codes"}

  lemma FieldNameInjective()
    ensures forall f, g :: FieldName(f) == FieldName(g) ==> f == g
    ensures forall f :: f in AllFields && FieldName(f) in FieldNames
  {
    forall f: Field
      ensures f in AllFields && FieldName(f) in FieldNames
    {
      match f {
        case Category => assert AllFields[0] == f;
        case Name => assert AllFields[1] == f;
        case Details => assert AllFields[2] == f;
        case Price => assert AllFields[3] == f;
        case Warranty => assert AllFields[4] == f;
        case CodeList => assert AllFields[5] == f;
      }
    }
  }

  /** `!s?.trim()`: missing, or nothing but whitespace. */
  predicate Blank(s: Option<string>)
  {
    s.None? || Trim(s.value) == ""
  }

  /** Whether field `f` of a product is acceptable. */
  predicate FieldOk(p: Product, f: Field)
  {
    match f
    case Category => Truthy(p.category)
    case Name => !Blank(p.name)
    case Details => !Blank(p.details)
    case Price => p.price.Some? && p.price.value > 0
    case Warranty => !Blank(p.warranty)
    case CodeList => Codes(p) != []
  }

  /** A product with every checked field acceptable. */
  predicate ProductComplete(p: Product)
  {
    forall f: Field :: FieldOk(p, f)
  }

  /** `validateProduct`'s messages. */
  function ProductMessage(f: Field): string
  {
    match f
    case Category => "Category is required"
    case Name => "Product name is required"
    case Details => "Variant is required"
    case Price => "Price must be greater than 0"
    case Warranty => "Warranty is required"
    case CodeList => "At least 1 IMEI/serial code is required"
  }

  /**
   * `validateProduct`: `null` for a complete product, otherwise an object
   * with one message per failing field and no other key.
   */
  function ValidateProduct(p: Product): (r: Option<map<string, string>>)
    ensures r.None? <==> ProductComplete(p)
    ensures r.Some? ==> r.value.Keys <= FieldNames
    ensures r.Some? ==> forall f: Field :: FieldName(f) in r.value <==> !FieldOk(p, f)
    ensures r.Some? ==> forall f: Field :: FieldName(f) in r.value ==> r.value[FieldName(f)] == ProductMessage(f)
  {
    FieldNameInjective();
    var errors := map f | f in AllFields && !FieldOk(p, f) :: FieldName(f) := ProductMessage(f);
    assert !ProductComplete(p) ==> var f: Field :| !FieldOk(p, f); FieldName(f) in errors;
    if errors.Keys != {} then Some(errors) else None
  }

  // ---------------------------------------------------------------- the form's rules

  /** The form rules' messages for the product fields. */
  function RuleMessage(f: Field): string
  {
    match f
    case Category => "Category is required"
    case Name => "Product name is required"
    case Details => "Variant is required"
    case Price => "Price is required"
    case Warranty => "Warranty is required"
    case CodeList => "At least 1 code required"
  }

  /** `products.${i}.`: the prefix of product `i`'s error keys. */
  function ProductPrefix(i: nat): string
  {
    "products." + NatToString(i) + "."
  }

  /** `products.${i}.${field}`. */
  function ProductKey(i: nat, f: Field): string
  {
    ProductPrefix(i) + FieldName(f)
  }

  lemma ProductKeyInjective(i: nat)
    ensures forall f, g :: ProductKey(i, f) == ProductKey(i, g) ==> f == g
  {
    forall f, g | ProductKey(i, f) == ProductKey(i, g)
      ensures f == g
    {
      var n := |ProductPrefix(i)|;
      assert FieldName(f) == ProductKey(i, f)[n..];
      assert FieldName(g) == ProductKey(i, g)[n..];
      FieldNameInjective();
    }
  }

  /** The errors the rules give product `i`, keyed `products.i.field`. */
  function ItemErrors(i: nat, p: Product): map<string, string>
  {
    ProductKeyInjective(i);
    map f | f in AllFields && !FieldOk(p, f) :: ProductKey(i, f) := RuleMessage(f)
  }

  /** The maps `f(0)`, …, `f(n - 1)` merged in order, a later key overriding an earlier one. */
  function UnionUpTo(n: nat, f: nat -> map<string, string>): map<string, string>
  {
    if n == 0 then map[] else UnionUpTo(n - 1, f) + f(n - 1)
  }

  /** A key of the merged map is a key of one of the merged maps, and every such key is one. */
  lemma {:induction false} UnionUpToKeys(n: nat, f: nat -> map<string, string>, k: string)
    ensures k in UnionUpTo(n, f) <==> exists i :: 0 <= i < n && k in f(i)
  {
    if n > 0 {
      UnionUpToKeys(n - 1, f, k);
      if k in f(n - 1) {
        assert 0 <= n - 1 < n;
      }
    }
  }

  /** The merged map is empty exactly when every merged map is. */
  lemma {:induction false} UnionUpToEmpty(n: nat, f: nat -> map<string, string>)
    ensures UnionUpTo(n, f) == map[] <==> forall i :: 0 <= i < n ==> f(i) == map[]
  {
    if n > 0 {
      UnionUpToEmpty(n - 1, f);
      UnionEmpty(UnionUpTo(n - 1, f), f(n - 1));
      if UnionUpTo(n - 1, f) != map[] {
        var i :| 0 <= i < n - 1 && f(i) != map[];
      }
    }
  }

  /** Product `i`'s errors, for every index of the list. */
  function ItemErrorsOf(products: seq<Product>): nat -> map<string, string>
  {
    (i: nat) => if i < |products| then ItemErrors(i, products[i]) else map[]
  }

  /** The errors of the first `n` products. */
  function ProductsErrors(products: seq<Product>, n: nat): map<string, string>
    requires n <= |products|
  {
    UnionUpTo(n, ItemErrorsOf(products))
  }

  /** The party fields' errors: a blank name, a missing date. */
  function PartyErrors(name: string, date: Value): map<string, string>
  {
    var e := if Trim(name) == "" then map["name" := "Party name is required"] else map[];
    if Falsy(date) then e["date" := "Date is required"] else e
  }

  /** `form.validate()`'s errors. */
  function FormErrors(name: string, date: Value, products: seq<Product>): map<string, string>
  {
    PartyErrors(name, date) + ProductsErrors(products, |products|)
  }

  /** A form the rules accept: a name, a date and complete products. */
  predicate FormComplete(name: string, date: Value, products: seq<Product>)
  {
    Trim(name) != "" && !Falsy(date) && forall p :: p in products ==> ProductComplete(p)
  }

  /** A field that fails the rules has its key among the product's errors. */
  lemma ItemErrorsHas(i: nat, p: Product, f: Field)
    requires !FieldOk(p, f)
    ensures ProductKey(i, f) in ItemErrors(i, p)
  {
    FieldNameInjective();
  }

  lemma ItemErrorsEmpty(i: nat, p: Product)
    ensures ItemErrors(i, p) == map[] <==> ProductComplete(p)
  {
    if !ProductComplete(p) {
      var f: Field :| !FieldOk(p, f);
      ItemErrorsHas(i, p, f);
    }
  }

  lemma UnionEmpty<K, V>(a: map<K, V>, b: map<K, V>)
    ensures a + b == map[] <==> a == map[] && b == map[]
  {
    if a + b == map[] {
      assert a.Keys <= (a + b).Keys && b.Keys <= (a + b).Keys;
    }
  }

  lemma ProductsErrorsEmpty(products: seq<Product>, n: nat)
    requires n <= |products|
    ensures ProductsErrors(products, n) == map[] <==> forall j :: 0 <= j < n ==> ProductComplete(products[j])
  {
    var f := ItemErrorsOf(products);
    UnionUpToEmpty(n, f);
    forall j | 0 <= j < n
      ensures f(j) == map[] <==> ProductComplete(products[j])
    {
      ItemErrorsEmpty(j, products[j]);
    }
  }

  /** The rules report no error exactly for a complete form. */
  lemma FormErrorsEmpty(name: string, date: Value, products: seq<Product>)
    ensures FormErrors(name, date, products) == map[] <==> FormComplete(name, date, products)
  {
    ProductsErrorsEmpty(products, |products|);
    var party, items := PartyErrors(name, date), ProductsErrors(products, |products|);
    if party + items == map[] {
      assert party.Keys <= (party + items).Keys && items.Keys <= (party + items).Keys;
    }
    if Trim(name) == "" {
      assert "name" in party;
    }
    if Falsy(date) {
      assert "date" in party;
    }
    if forall j :: 0 <= j < |products| ==> ProductComplete(products[j]) {
      forall p | p in products
        ensures ProductComplete(p)
      {
        var j :| 0 <= j < |products| && products[j] == p;
      }
    }
  }

  /**
   * The notice `validateForm` raises for these values: the number of
   * incomplete products when there are any, else the party notice when the
   * name is blank or the date missing, else the empty-list notice, else
   * acceptance.
   */
  function Verdict(name: string, date: Value, products: seq<Product>): FormNotice
  {
    if IncompleteCount(products) > 0 then ProductsIncomplete(IncompleteCount(products))
    else if Trim(name) == "" || Falsy(date) then PartyIncomplete
    else if products == [] then NoProducts
    else Accepted
  }

  /** A form is accepted exactly when the rules pass and it has a product; a rejection is always explained. */
  lemma VerdictSpec(name: string, date: Value, products: seq<Product>)
    ensures Verdict(name, date, products) == Accepted <==> FormComplete(name, date, products) && products != []
    ensures Verdict(name, date, products) != Silent
    ensures Verdict(name, date, products).ProductsIncomplete?
            ==> Verdict(name, date, products).count == IncompleteCount(products) > 0
    ensures Verdict(name, date, products) == NoProducts ==> products == [] && FormComplete(name, date, products)
  {
  }

  // ---------------------------------------------------------------- the form

  /** What an edit sends: the form values and the entry's id. */
  datatype EditRequest = EditRequest(name: string, date: Value, products: seq<Product>, id: string)

  /** The notification a scanned code raises. */
  datatype ScanResult = NoProductSelected | DuplicateCode(code: string) | CodeAdded(code: string)

  /** The notification a failed submit check raises. */
  datatype FormNotice = Silent | ProductsIncomplete(count: nat) | PartyIncomplete | NoProducts | Accepted

  /** What a submit does: reject with a notice, open the edit code dialog, or send a create request with the form values. */
  datatype SubmitAction = Rejected(notice: FormNotice) | AskEditCode | Create(name: string, date: Value, products: seq<Product>)

  /** `products[i]?.codes || []`. */
  function CurrentCodes(products: seq<Product>, i: nat): seq<string>
  {
    if i < |products| then Codes(products[i]) else []
  }

  /** No code appears twice. */
  predicate Distinct(codes: seq<string>)
  {
    forall j, k :: 0 <= j < k < |codes| ==> codes[j] != codes[k]
  }

  /** The number of products `validateProduct` rejects. */
  function IncompleteCount(products: seq<Product>): (n: nat)
    ensures n == 0 <==> forall p :: p in products ==> ProductComplete(p)
  {
    if products == [] then 0
    else
      var n := IncompleteCount(products[..|products| - 1]);
      assert forall p :: p in products ==> p in products[..|products| - 1] || p == products[|products| - 1];
      assert forall p :: p in products[..|products| - 1] ==> p in products;
      if ValidateProduct(products[|products| - 1]).Some? then n + 1 else n
  }

  /** The form's state: its values, its errors, the scanner target and the edit code dialog. */
  class EntryFormState {
    var name: string
    var date: Value
    var products: seq<Product>
    var errors: map<string, string>
    var scannerProductIndex: Option<nat>
    var otpValue: string
    var otpError: bool
    /** The edits sent to the server, in order. */
    var sentEdits: seq<EditRequest>
    /** The entry being edited (the route's id). */
    const entryId: string

    /** The initial values: no name, today's date, no products. */
    constructor (entryId: string, today: Value)
      ensures this.entryId == entryId && name == "" && date == today && products == []
      ensures errors == map[] && scannerProductIndex.None? && otpValue == "" && !otpError && sentEdits == []
    {
      this.entryId := entryId;
      name := "";
      date := today;
      products := [];
      errors := map[];
      scannerProductIndex := None;
      otpValue := "";
      otpError := false;
      sentEdits := [];
    }

    /** `openScanner(index)`: scanned codes now go to product `index`. */
    method OpenScanner(index: nat)
      modifies this
      ensures scannerProductIndex == Some(index)
      ensures name == old(name) && date == old(date) && products == old(products) && errors == old(errors)
      ensures otpValue == old(otpValue) && otpError == old(otpError) && sentEdits == old(sentEdits)
    {
      scannerProductIndex := Some(index);
    }

    /** `closeScanner`. */
    method CloseScanner()
      modifies this
      ensures scannerProductIndex.None?
      ensures name == old(name) && date == old(date) && products == old(products) && errors == old(errors)
      ensures otpValue == old(otpValue) && otpError == old(otpError) && sentEdits == old(sentEdits)
    {
      scannerProductIndex := None;
    }

    /**
     * `handleScannedCode`: with a product selected, a code it does not hold
     * yet is appended to that product's codes, and setting that field clears
     * the error stored under its key, as the form library does on a change;
     * a code it holds changes nothing. A product's codes stay distinct.
     */
    method HandleScannedCode(code: string) returns (result: ScanResult)
      modifies this
      ensures scannerProductIndex.None? ==> result == NoProductSelected && products == old(products)
      ensures scannerProductIndex.Some? && code in CurrentCodes(old(products), scannerProductIndex.value)
              ==> result == DuplicateCode(code) && products == old(products)
      ensures scannerProductIndex.Some? && code !in CurrentCodes(old(products), scannerProductIndex.value)
              ==> result == CodeAdded(code)
                  && var i := scannerProductIndex.value;
                     (i < |old(products)| ==> products == old(products)[i := old(products)[i].(codes := Some(Codes(old(products)[i]) + [code]))])
                     && (i >= |old(products)| ==> products == old(products))
      ensures forall i :: 0 <= i < |products| && i < |old(products)| && Distinct(Codes(old(products)[i])) ==> Distinct(Codes(products[i]))
      ensures |products| == |old(products)|
      ensures result.CodeAdded? ==> errors == old(errors) - {ProductKey(scannerProductIndex.value, CodeList)}
      ensures !result.CodeAdded? ==> errors == old(errors)
      ensures scannerProductIndex == old(scannerProductIndex) && name == old(name) && date == old(date)
      ensures otpValue == old(otpValue) && otpError == old(otpError) && sentEdits == old(sentEdits)
    {
      if scannerProductIndex.None? {
        return NoProductSelected;
      }
      var i := scannerProductIndex.value;
      var currentCodes := CurrentCodes(products, i);
      if code in currentCodes {
        return DuplicateCode(code);
      }
      if i < |products| {
        products := products[i := products[i].(codes := Some(currentCodes + [code]))];
      }
      errors := errors - {ProductKey(i, CodeList)};
      result := CodeAdded(code);
    }

    /** `validateForm`: stores the rules' errors and raises the notice `Verdict` gives; see `VerdictSpec`. */
    method ValidateForm() returns (ok: bool, notice: FormNotice)
      modifies this
      ensures errors == FormErrors(name, date, products)
      ensures notice == Verdict(name, date, products)
      ensures ok <==> notice == Accepted
      ensures name == old(name) && date == old(date) && products == old(products)
      ensures scannerProductIndex == old(scannerProductIndex)
      ensures otpValue == old(otpValue) && otpError == old(otpError) && sentEdits == old(sentEdits)
    {
      errors := FormErrors(name, date, products);
      FormErrorsEmpty(name, date, products);
      if errors != map[] {
        var productErrors := IncompleteCount(products);
        if productErrors > 0 {
          return false, ProductsIncomplete(productErrors);
        }
        ProductsErrorsEmpty(products, |products|);
        if "name" in errors || "date" in errors {
          return false, PartyIncomplete;
        }
        assert false;
      }
      if products == [] {
        return false, NoProducts;
      }
      return true, Accepted;
    }

    /**
     * `handleSubmit`: a form that fails `validateForm` is rejected with its
     * notice. An accepted form is sent as a create request, or, when an
     * existing entry is being edited, the code dialog opens with an empty
     * code and no error. A submit never sends an edit by itself.
     */
    method HandleSubmit(isEditMode: bool) returns (action: SubmitAction)
      modifies this
      ensures errors == FormErrors(name, date, products)
      ensures action.Rejected? <==> Verdict(name, date, products) != Accepted
      ensures action.Rejected? ==> action.notice == Verdict(name, date, products)
      ensures action.Rejected? || !isEditMode ==> otpValue == old(otpValue) && otpError == old(otpError)
      ensures !action.Rejected? && isEditMode ==> action == AskEditCode && otpValue == "" && !otpError
      ensures !action.Rejected? && !isEditMode ==> action == Create(name, date, products)
      ensures name == old(name) && date == old(date) && products == old(products)
      ensures scannerProductIndex == old(scannerProductIndex) && sentEdits == old(sentEdits)
    {
      var ok, notice := ValidateForm();
      if !ok {
        return Rejected(notice);
      }
      if isEditMode {
        OpenCodeDialog();
        return AskEditCode;
      }
      return Create(name, date, products);
    }

    /** `openOtp` after `setOtpValue("")` and `setOtpError(false)`: the code dialog opens empty and without error. */
    method OpenCodeDialog()
      modifies this
      ensures otpValue == "" && !otpError
      ensures name == old(name) && date == old(date) && products == old(products) && errors == old(errors)
      ensures scannerProductIndex == old(scannerProductIndex) && sentEdits == old(sentEdits)
    {
      otpValue := "";
      otpError := false;
    }

    /** Typing into the code dialog. */
    method SetOtpValue(value: string)
      modifies this
      ensures otpValue == value
      ensures name == old(name) && date == old(date) && products == old(products) && errors == old(errors)
      ensures scannerProductIndex == old(scannerProductIndex) && otpError == old(otpError) && sentEdits == old(sentEdits)
    {
      otpValue := value;
    }

    /** `handleOtpConfirm`: the edit is sent only with the right code; a wrong code sets the error flag and sends nothing. */
    method HandleOtpConfirm()
      modifies this
      ensures old(otpValue) == EditOtpCode ==> !otpError && sentEdits == old(sentEdits) + [EditRequest(name, date, products, entryId)]
      ensures old(otpValue) != EditOtpCode ==> otpError && sentEdits == old(sentEdits)
      ensures name == old(name) && date == old(date) && products == old(products) && errors == old(errors)
      ensures scannerProductIndex == old(scannerProductIndex) && otpValue == old(otpValue)
    {
      if otpValue == EditOtpCode {
        otpError := false;
        sentEdits := sentEdits + [EditRequest(name, date, products, entryId)];
      } else {
        otpError := true;
      }
    }
  }
}
