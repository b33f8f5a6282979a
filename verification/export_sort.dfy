/**
 * The export sort and the two exports' row pipelines (`sortByField`,
 * `exportExcel`, `exportPdf`). `sortByField` sorts an array of rows in
 * place by one field, compared as text, as numbers or as dates, and throws
 * for any other field type once its comparator runs. The spreadsheet maps
 * every document to a row object and then sorts the row objects; the PDF
 * sorts a copy of the documents and then maps them to value arrays.
 */
module ExportSort {
  import opened Base
  import opened Json
  import opened External
  import opened Documents
  import opened Exports
  import Sorting

  /** The supported `fieldType`s. */
  datatype FieldType = StringField | NumberField | DateField

  /** The `sort` option of an export: `{ field, fieldType }`. */
  datatype SortField = SortField(field: string, fieldType: string)

  const UnsupportedFieldType := "Unsupported field type"

  function FieldTypeOf(fieldType: string): (r: Option<FieldType>)
    ensures r.None? <==> fieldType !in {"string", "number", "date"}
  {
    match fieldType
    case "string" => Some(StringField)
    case "number" => Some(NumberField)
    case "date" => Some(DateField)
    case _ => None
  }

  /** `String(row[field]).toLowerCase()`. */
  function TextKey(row: Doc, field: string): string
  {
    Lower(ToStr(Get(row, field)))
  }

  /** The comparator of `sortByField` for a supported field type, on the two rows' values of the field; a NaN difference counts as 0. */
  function CompareValues(t: FieldType, m: Moment, x: Value, y: Value): int
  {
    match t
    case StringField =>
      var sx, sy := Lower(ToStr(x)), Lower(ToStr(y));
      if StrLess(sx, sy) then -1 else if StrLess(sy, sx) then 1 else 0
    case NumberField =>
      (match (ToNumber(x), ToNumber(y))
       case (Some(p), Some(q)) => p - q
       case _ => 0)
    case DateField => DateCompare(m, x, y)
  }

  /** `sortByField`'s comparator on two rows. */
  function FieldCompare(t: FieldType, m: Moment, field: string, a: Doc, b: Doc): int
  {
    CompareValues(t, m, Get(a, field), Get(b, field))
  }

  /** The comparator handed to `sort`. */
  function FieldOrder(t: FieldType, m: Moment, field: string): (Doc, Doc) -> int
  {
    (a, b) => FieldCompare(t, m, field, a, b)
  }

  /**
   * What `sortByField` leaves in the array: the rows sorted by the field,
   * or an error when the comparator is called with an unknown field type,
   * which happens exactly when there are two rows or more.
   */
  function SortedRows(rows: seq<Doc>, sort: SortField, m: Moment): (r: Result<seq<Doc>>)
    ensures r.Failure? <==> |rows| >= 2 && FieldTypeOf(sort.fieldType).None?
    ensures r.Success? ==> multiset(r.value) == multiset(rows)
    ensures r.Success? && |rows| < 2 ==> r.value == rows
  {
    match FieldTypeOf(sort.fieldType)
    case None => if |rows| >= 2 then Failure(UnsupportedFieldType) else Success(rows)
    case Some(t) =>
      var sorted := Sorting.StableSort(rows, FieldOrder(t, m, sort.field));
      if |rows| < 2 then
        assert rows == [] || rows == [rows[0]];
        Success(sorted)
      else Success(sorted)
  }

  /** `sortByField`: sorts the array in place and returns it; a throw leaves the array as it was. */
  method SortByField(a: array<Doc>, sort: SortField, m: Moment) returns (r: Result<array<Doc>>)
    modifies a
    ensures SortedRows(old(a[..]), sort, m).Success? <==> r.Success?
    ensures r.Success? ==> r.value == a && a[..] == SortedRows(old(a[..]), sort, m).value
    ensures r.Failure? ==> SortedRows(old(a[..]), sort, m) == Failure(r.error) && a[..] == old(a[..])
  {
    var t := FieldTypeOf(sort.fieldType);
    if t.None? {
      if a.Length >= 2 {
        return Failure(UnsupportedFieldType);
      }
      return Success(a);
    }
    Sorting.SortInPlace(a, FieldOrder(t.value, m, sort.field));
    r := Success(a);
  }

  // ---------------------------------------------------------------- the comparators are orders

  /** The text comparator is always a total preorder: code-unit order is total. */
  lemma TextOrderConsistent(rows: seq<Doc>, m: Moment, field: string)
    ensures Sorting.Consistent(FieldOrder(StringField, m, field), rows)
  {
    var cmp := FieldOrder(StringField, m, field);
    forall a, b, c | a in rows && b in rows && c in rows
      ensures Sorting.Connex(cmp, a, b) && Sorting.Transitive(cmp, a, b, c)
    {
      var x, y, z := TextKey(a, field), TextKey(b, field), TextKey(c, field);
      StrLessTrichotomy(x, y);
      StrLessTrichotomy(y, z);
      StrLessTrichotomy(x, z);
      StrLessIrreflexive(x);
      if StrLess(x, y) && StrLess(y, z) {
        StrLessTransitive(x, y, z);
      }
    }
    forall a, b | a in rows && b in rows
      ensures Sorting.Connex(cmp, a, b)
    {
      assert Sorting.Transitive(cmp, a, b, a);
    }
  }

  /** Every row's field converts to a number: no NaN reaches the number comparator. */
  predicate NumbersParse(rows: seq<Doc>, field: string)
  {
    forall r :: r in rows ==> ToNumber(Get(r, field)).Some?
  }

  /** With numeric fields the number comparator orders by value. */
  lemma NumberOrderConsistent(rows: seq<Doc>, m: Moment, field: string)
    requires NumbersParse(rows, field)
    ensures Sorting.Consistent(FieldOrder(NumberField, m, field), rows)
  {
    var cmp := FieldOrder(NumberField, m, field);
    forall a, b | a in rows && b in rows
      ensures Sorting.Connex(cmp, a, b)
    {
      assert ToNumber(Get(a, field)).Some? && ToNumber(Get(b, field)).Some?;
    }
    forall a, b, c | a in rows && b in rows && c in rows
      ensures Sorting.Transitive(cmp, a, b, c)
    {
      assert ToNumber(Get(a, field)).Some? && ToNumber(Get(b, field)).Some? && ToNumber(Get(c, field)).Some?;
    }
  }

  /** With valid dates the date comparator orders by instant. */
  lemma DateOrderConsistent(rows: seq<Doc>, m: Moment, field: string)
    requires DatesParse(m, set r | r in rows :: Get(r, field))
    ensures Sorting.Consistent(FieldOrder(DateField, m, field), rows)
  {
    var cmp := FieldOrder(DateField, m, field);
    var dates := set r | r in rows :: Get(r, field);
    forall a, b, c | a in rows && b in rows && c in rows
      ensures Sorting.Connex(cmp, a, b) && Sorting.Transitive(cmp, a, b, c)
    {
      assert Get(a, field) in dates && Get(b, field) in dates && Get(c, field) in dates;
      DateCompareOrder(m, Get(a, field), Get(b, field), Get(c, field));
    }
  }

  /** The sorted rows are in order of the field: always for text, for numbers and dates when they all convert. */
  lemma SortedRowsOrdered(rows: seq<Doc>, sort: SortField, m: Moment)
    requires FieldTypeOf(sort.fieldType) == Some(NumberField) ==> NumbersParse(rows, sort.field)
    requires FieldTypeOf(sort.fieldType) == Some(DateField) ==> DatesParse(m, set r | r in rows :: Get(r, sort.field))
    ensures SortedRows(rows, sort, m).Success? && FieldTypeOf(sort.fieldType).Some?
            ==> Sorting.Sorted(SortedRows(rows, sort, m).value, FieldOrder(FieldTypeOf(sort.fieldType).value, m, sort.field))
  {
    var t := FieldTypeOf(sort.fieldType);
    if t.Some? {
      match t.value {
        case StringField => TextOrderConsistent(rows, m, sort.field);
        case NumberField => NumberOrderConsistent(rows, m, sort.field);
        case DateField => DateOrderConsistent(rows, m, sort.field);
      }
      Sorting.StableSortSorted(rows, FieldOrder(t.value, m, sort.field));
    }
  }

  // ---------------------------------------------------------------- the spreadsheet

  /** `list.map(doc => mapObjectKeys(doc, fields1, fields2))`: the first document that throws ends the export. */
  function MapAll(list: seq<Doc>, keys1: seq<string>, keys2: seq<KeySpec>, m: Moment): (r: Result<seq<Doc>>)
    ensures r.Success? ==> |r.value| == |list|
    ensures r.Success? ==> forall i :: 0 <= i < |list| ==> MapKeys(list[i], keys1, keys2, m, |keys1|) == Success(r.value[i])
  {
    if list == [] then Success([])
    else match MapAll(list[..|list| - 1], keys1, keys2, m)
      case Failure(e) => Failure(e)
      case Success(rows) =>
        match MapKeys(list[|list| - 1], keys1, keys2, m, |keys1|)
        case Failure(e) => Failure(e)
        case Success(row) => Success(rows + [row])
  }

  /** A document that throws stops the mapping whatever comes after it. */
  lemma {:induction false} MapAllFailureSticks(list: seq<Doc>, keys1: seq<string>, keys2: seq<KeySpec>, m: Moment, n: nat)
    requires n <= |list| && MapAll(list[..n], keys1, keys2, m).Failure?
    ensures MapAll(list, keys1, keys2, m) == MapAll(list[..n], keys1, keys2, m)
    decreases |list| - n
  {
    if n < |list| {
      assert list[..n + 1][..n] == list[..n];
      MapAllFailureSticks(list, keys1, keys2, m, n + 1);
    } else {
      assert list[..n] == list;
    }
  }

  /** The spreadsheet's rows: mapped first, then sorted by the row objects' `field`. */
  function ExcelRows(list: seq<Doc>, keys1: seq<string>, keys2: seq<KeySpec>, sort: SortField, m: Moment): Result<seq<Doc>>
  {
    match MapAll(list, keys1, keys2, m)
    case Failure(e) => Failure(e)
    case Success(rows) => SortedRows(rows, sort, m)
  }

  /** `exportExcel` up to the sheet: `list.map(fields)`, then `sortByField` on the mapped array. */
  method ExportExcel(list: array<Doc>, keys1: seq<string>, keys2: seq<KeySpec>, sort: SortField, m: Moment)
    returns (r: Result<seq<Doc>>)
    ensures r == ExcelRows(list[..], keys1, keys2, sort, m)
  {
    var data := new Doc[list.Length];
    for i := 0 to list.Length
      invariant MapAll(list[..i], keys1, keys2, m) == Success(data[..i])
    {
      var row := MapObjectKeys(list[i], keys1, keys2, m);
      assert list[..i + 1][..i] == list[..i];
      if row.Failure? {
        MapAllFailureSticks(list[..], keys1, keys2, m, i + 1);
        return Failure(row.error);
      }
      data[i] := row.value;
      assert data[..i + 1] == data[..i] + [row.value];
    }
    assert list[..list.Length] == list[..];
    assert data[..list.Length] == data[..];
    var sorted := SortByField(data, sort, m);
    if sorted.Failure? {
      return Failure(sorted.error);
    }
    r := Success(data[..]);
  }

  /** Every spreadsheet row has exactly the column names as keys, and the rows are the mapped documents reordered. */
  lemma ExcelRowsShape(list: seq<Doc>, keys1: seq<string>, keys2: seq<KeySpec>, sort: SortField, m: Moment)
    requires ExcelRows(list, keys1, keys2, sort, m).Success?
    ensures multiset(ExcelRows(list, keys1, keys2, sort, m).value) == multiset(MapAll(list, keys1, keys2, m).value)
    ensures forall row :: row in ExcelRows(list, keys1, keys2, sort, m).value ==> row.Keys == set k | k in keys1
  {
    var rows := MapAll(list, keys1, keys2, m).value;
    forall row | row in ExcelRows(list, keys1, keys2, sort, m).value
      ensures row.Keys == set k | k in keys1
    {
      assert row in multiset(rows);
      var i :| 0 <= i < |rows| && rows[i] == row;
      MapKeysKeys(list[i], keys1, keys2, m, |keys1|);
      assert keys1[..|keys1|] == keys1;
    }
  }

  // ---------------------------------------------------------------- the PDF

  /** `data.map(item => getValuesFromDoc(item, fields2))`. */
  function ValuesAll(list: seq<Doc>, keys: seq<KeySpec>, m: Moment): (r: Result<seq<seq<Value>>>)
    ensures r.Success? ==> |r.value| == |list|
    ensures r.Success? ==> forall i :: 0 <= i < |list| ==> GetValuesFromDoc(list[i], keys, m) == Success(r.value[i])
  {
    if list == [] then Success([])
    else match ValuesAll(list[..|list| - 1], keys, m)
      case Failure(e) => Failure(e)
      case Success(rows) =>
        match GetValuesFromDoc(list[|list| - 1], keys, m)
        case Failure(e) => Failure(e)
        case Success(row) =>
          assert forall i :: 0 <= i < |list| - 1 ==> list[..|list| - 1][i] == list[i];
          Success(rows + [row])
  }

  lemma {:induction false} ValuesAllFailureSticks(list: seq<Doc>, keys: seq<KeySpec>, m: Moment, n: nat)
    requires n <= |list| && ValuesAll(list[..n], keys, m).Failure?
    ensures ValuesAll(list, keys, m) == ValuesAll(list[..n], keys, m)
    decreases |list| - n
  {
    if n < |list| {
      assert list[..n + 1][..n] == list[..n];
      ValuesAllFailureSticks(list, keys, m, n + 1);
    } else {
      assert list[..n] == list;
    }
  }

  /** The PDF table's body: the documents sorted by their own `field`, then turned into value arrays. */
  function PdfRows(list: seq<Doc>, keys: seq<KeySpec>, sort: SortField, m: Moment): Result<seq<seq<Value>>>
  {
    match SortedRows(list, sort, m)
    case Failure(e) => Failure(e)
    case Success(sorted) => ValuesAll(sorted, keys, m)
  }

  /** `exportPdf` up to the table: `sortByField([...list])`, then map each document. */
  method ExportPdf(list: array<Doc>, keys: seq<KeySpec>, sort: SortField, m: Moment)
    returns (r: Result<seq<seq<Value>>>)
    ensures r == PdfRows(list[..], keys, sort, m)
  {
    var copy := new Doc[list.Length](i requires 0 <= i < list.Length reads list => list[i]);
    assert copy[..] == list[..];
    var sorted := SortByField(copy, sort, m);
    if sorted.Failure? {
      return Failure(sorted.error);
    }
    r := CollectValues(copy, keys, m);
  }

  /** The `map` over the sorted documents, stopping at the first one that throws. */
  method CollectValues(docs: array<Doc>, keys: seq<KeySpec>, m: Moment) returns (r: Result<seq<seq<Value>>>)
    ensures r == ValuesAll(docs[..], keys, m)
  {
    var data: seq<seq<Value>> := [];
    for i := 0 to docs.Length
      invariant ValuesAll(docs[..i], keys, m) == Success(data)
    {
      var row := GetValuesFromDoc(docs[i], keys, m);
      assert docs[..i + 1][..i] == docs[..i];
      if row.Failure? {
        ValuesAllFailureSticks(docs[..], keys, m, i + 1);
        return Failure(row.error);
      }
      data := data + [row.value];
    }
    assert docs[..docs.Length] == docs[..];
    r := Success(data);
  }

  /** Every PDF row has one value per column, and there is one row per document. */
  lemma PdfRowsShape(list: seq<Doc>, keys: seq<KeySpec>, sort: SortField, m: Moment)
    requires PdfRows(list, keys, sort, m).Success?
    ensures |PdfRows(list, keys, sort, m).value| == |list|
    ensures forall row :: row in PdfRows(list, keys, sort, m).value ==> |row| == |keys|
  {
    var rows := PdfRows(list, keys, sort, m).value;
    var sorted := SortedRows(list, sort, m).value;
    forall row | row in rows
      ensures |row| == |keys|
    {
      var i :| 0 <= i < |rows| && rows[i] == row;
      assert GetValuesFromDoc(sorted[i], keys, m) == Success(row);
    }
  }

  // ---------------------------------------------------------------- the two orders

  /** A plain field name: a string spec that reads `doc[field]` as it is. */
  predicate PlainSpec(field: string)
  {
    '|' !in field && !Contains(field, "_F") && '.' !in field && !Contains(field, "_L")
  }

  /** The row object of a document, when mapping it does not throw. */
  function RowOf(keys1: seq<string>, keys2: seq<KeySpec>, m: Moment): Doc -> Doc
  {
    doc => match MapKeys(doc, keys1, keys2, m, |keys1|) case Success(row) => row case Failure(_) => map[]
  }

  /** When every document maps, the whole mapping succeeds. */
  lemma {:induction false} MapAllSucceeds(list: seq<Doc>, keys1: seq<string>, keys2: seq<KeySpec>, m: Moment)
    requires forall d :: d in list ==> MapKeys(d, keys1, keys2, m, |keys1|).Success?
    ensures MapAll(list, keys1, keys2, m).Success?
  {
    if list != [] {
      var front := list[..|list| - 1];
      assert forall d :: d in front ==> d in list;
      MapAllSucceeds(front, keys1, keys2, m);
      assert list[|list| - 1] in list;
    }
  }

  /** When every document maps, the mapping is `RowOf` applied to each. */
  lemma MapAllOfRows(list: seq<Doc>, keys1: seq<string>, keys2: seq<KeySpec>, m: Moment)
    requires forall d :: d in list ==> MapKeys(d, keys1, keys2, m, |keys1|).Success?
    ensures MapAll(list, keys1, keys2, m) == Success(Sorting.MapSeq(list, RowOf(keys1, keys2, m)))
  {
    MapAllSucceeds(list, keys1, keys2, m);
    var rows := MapAll(list, keys1, keys2, m).value;
    var mapped := Sorting.MapSeq(list, RowOf(keys1, keys2, m));
    forall i | 0 <= i < |list|
      ensures rows[i] == mapped[i]
    {
      assert MapKeys(list[i], keys1, keys2, m, |keys1|) == Success(rows[i]);
      assert mapped[i] == RowOf(keys1, keys2, m)(list[i]);
    }
    assert rows == mapped;
  }

  /** The comparators look at the field only: rows that agree on it compare alike. */
  lemma FieldCompareByField(t: FieldType, m: Moment, field: string, a: Doc, b: Doc, a': Doc, b': Doc)
    requires Get(a, field) == Get(a', field) && Get(b, field) == Get(b', field)
    ensures FieldCompare(t, m, field, a, b) == FieldCompare(t, m, field, a', b')
  {
  }

  /** A column `c` named `field` with the plain spec `field`, not overwritten later, copies the document's field. */
  lemma RowKeepsField(d: Doc, keys1: seq<string>, keys2: seq<KeySpec>, m: Moment, c: nat, field: string)
    requires c < |keys1| && c < |keys2| && keys1[c] == field && keys2[c] == Path(field) && PlainSpec(field)
    requires forall j :: c < j < |keys1| ==> keys1[j] != field
    requires MapKeys(d, keys1, keys2, m, |keys1|).Success?
    ensures Get(RowOf(keys1, keys2, m)(d), field) == Get(d, field)
  {
    MapKeysValue(d, keys1, keys2, m, |keys1|, c);
  }

  /** The documents of a reordering of the list all map when the list's documents do. */
  lemma SortedDocsMap(list: seq<Doc>, sorted: seq<Doc>, keys1: seq<string>, keys2: seq<KeySpec>, m: Moment)
    requires multiset(sorted) == multiset(list) && MapAll(list, keys1, keys2, m).Success?
    ensures forall d :: d in sorted ==> MapKeys(d, keys1, keys2, m, |keys1|).Success?
    ensures forall d :: d in list ==> MapKeys(d, keys1, keys2, m, |keys1|).Success?
  {
    forall d | d in list
      ensures MapKeys(d, keys1, keys2, m, |keys1|).Success?
    {
      var i :| 0 <= i < |list| && list[i] == d;
    }
    forall d | d in sorted
      ensures d in list
    {
      assert d in multiset(sorted);
    }
  }

  /**
   * Both exports sort on `sort.field`, the spreadsheet on its row objects
   * and the PDF on the documents. When the sort field is also a column
   * showing that document field as it is, the spreadsheet lists the rows of
   * the PDF's order.
   */
  lemma SameOrderWhenColumnIsField(list: seq<Doc>, keys1: seq<string>, keys2: seq<KeySpec>, sort: SortField, m: Moment, c: nat)
    requires c < |keys1| && c < |keys2| && keys1[c] == sort.field && keys2[c] == Path(sort.field) && PlainSpec(sort.field)
    requires forall j :: c < j < |keys1| ==> keys1[j] != sort.field
    requires FieldTypeOf(sort.fieldType).Some?
    requires MapAll(list, keys1, keys2, m).Success?
    ensures ExcelRows(list, keys1, keys2, sort, m) == MapAll(SortedRows(list, sort, m).value, keys1, keys2, m)
  {
    var t := FieldTypeOf(sort.fieldType).value;
    var f := RowOf(keys1, keys2, m);
    var cmp := FieldOrder(t, m, sort.field);
    var sorted := Sorting.StableSort(list, cmp);
    SortedDocsMap(list, sorted, keys1, keys2, m);
    forall a, b | a in list && b in list
      ensures cmp(f(a), f(b)) == cmp(a, b)
    {
      RowKeepsField(a, keys1, keys2, m, c, sort.field);
      RowKeepsField(b, keys1, keys2, m, c, sort.field);
      FieldCompareByField(t, m, sort.field, f(a), f(b), a, b);
    }
    MapAllOfRows(list, keys1, keys2, m);
    Sorting.StableSortMap(list, f, cmp, cmp);
    MapAllOfRows(sorted, keys1, keys2, m);
  }
}
