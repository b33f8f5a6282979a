/**
 * The generic path accessor and the search / filter / sort engine shared by
 * the list views: `getValue`, `normalizeValue`, `checkMatch` and
 * `sortAndSearch` (src/components/common/sort/index.js).
 */
module SortSearch {
  import opened Base
  import opened Json
  import opened External
  import Sorting

  // ================================================================ getValue

  /** The path segment that maps the rest of the path over an array. */
  const Wildcard: string := "[]"

  predicate DotFree(parts: seq<string>)
  {
    forall k :: 0 <= k < |parts| ==> '.' !in parts[k]
  }

  /** `getValue(obj, path)`. */
  function ValueAt(obj: Value, path: string): Value
    decreases |Split(path, '.')|, 1, 0
  {
    if Falsy(obj) || path == "" then Undef else Walk(obj, Split(path, '.'), 0)
  }

  /** The loop of `getValue` from segment `i` on, with `current` the value reached so far. */
  function Walk(current: Value, parts: seq<string>, i: nat): Value
    requires i <= |parts| && DotFree(parts)
    decreases |parts|, 0, |parts| - i
  {
    if i == |parts| then current
    else if Nullish(current) then Undef
    else if parts[i] == Wildcard then
      if !current.Arr? then Undef
      else if i == |parts| - 1 then current
      else
        var rest := parts[i + 1..];
        assert DotFree(rest) by {
          assert forall k :: 0 <= k < |rest| ==> rest[k] == parts[i + 1 + k];
        }
        SplitJoin(rest, '.');
        Arr(Spread(current.items, Join(rest, ".")))
    else Walk(Member(current, parts[i]), parts, i + 1)
  }

  /** `items.map(item => getValue(item, restPath)).flat().filter(v => v != null)`. */
  function Spread(items: seq<Value>, restPath: string): seq<Value>
    decreases |Split(restPath, '.')|, 2, |items|
  {
    if items == [] then []
    else Spread(items[..|items| - 1], restPath) + Flat1(ValueAt(items[|items| - 1], restPath))
  }

  predicate Present(v: Value)
  {
    !Nullish(v)
  }

  /** One level of `flat()` applied to a single result, without `null`/`undefined`. */
  function Flat1(v: Value): (r: seq<Value>)
    ensures forall x :: x in r <==> Present(x) && (if v.Arr? then x in v.items else x == v)
  {
    Filter(if v.Arr? then v.items else [v], Present)
  }

  /** The loop of `getValue`, recursing on each element after a mid-path wildcard. */
  method GetValue(obj: Value, path: string) returns (r: Value)
    ensures r == ValueAt(obj, path)
    decreases |Split(path, '.')|, 1
  {
    if Falsy(obj) || path == "" {
      return Undef;
    }
    var parts := Split(path, '.');
    var current := obj;
    var i := 0;
    while i < |parts|
      invariant i <= |parts|
      invariant Walk(current, parts, i) == ValueAt(obj, path)
    {
      var key := parts[i];
      if Nullish(current) {
        return Undef;
      }
      if key == Wildcard {
        if !current.Arr? {
          return Undef;
        }
        if i == |parts| - 1 {
          return current;
        }
        var rest := parts[i + 1..];
        assert DotFree(rest) by {
          assert forall k :: 0 <= k < |rest| ==> rest[k] == parts[i + 1 + k];
        }
        SplitJoin(rest, '.');
        var results := SpreadValues(current.items, Join(rest, "."));
        return Arr(results);
      }
      current := Member(current, key);
      i := i + 1;
    }
    return current;
  }

  /** The `map` and `flat` after a wildcard: the rest of the path read from each element in turn. */
  method SpreadValues(items: seq<Value>, restPath: string) returns (results: seq<Value>)
    ensures results == Spread(items, restPath)
    decreases |Split(restPath, '.')|, 2
  {
    results := [];
    var j := 0;
    while j < |items|
      invariant j <= |items|
      invariant results == Spread(items[..j], restPath)
    {
      var v := GetValue(items[j], restPath);
      assert items[..j + 1][..j] == items[..j];
      results := results + Flat1(v);
      j := j + 1;
    }
    assert items[..j] == items;
  }

  /** Optional chaining `v?.[k1]?.[k2]…`: the reading of a path with no wildcard. */
  function Lookup(v: Value, keys: seq<string>): Value
    decreases |keys|
  {
    if keys == [] then v
    else if Nullish(v) then Undef
    else Lookup(Member(v, keys[0]), keys[1..])
  }

  /** Once a prefix of the keys reaches `null` or `undefined`, the whole lookup is `undefined`. */
  lemma {:induction false} LookupStopsAtNullish(v: Value, keys: seq<string>, j: nat)
    requires j < |keys| && Nullish(Lookup(v, keys[..j]))
    ensures Lookup(v, keys) == Undef
    decreases j
  {
    if j > 0 && !Nullish(v) {
      assert keys[..j][1..] == keys[1..][..j - 1];
      LookupStopsAtNullish(Member(v, keys[0]), keys[1..], j - 1);
    }
  }

  lemma {:induction false} WalkPlain(current: Value, parts: seq<string>, i: nat)
    requires i <= |parts| && DotFree(parts)
    requires forall k :: i <= k < |parts| ==> parts[k] != Wildcard
    ensures Walk(current, parts, i) == Lookup(current, parts[i..])
    decreases |parts| - i
  {
    if i < |parts| {
      assert parts[i..][1..] == parts[i + 1..];
      if !Nullish(current) {
        WalkPlain(Member(current, parts[i]), parts, i + 1);
      }
    }
  }

  /** Without a wildcard, `getValue` is optional chaining over the dot-separated keys. */
  lemma GetValuePlainPath(obj: Value, path: string)
    requires !Falsy(obj) && path != ""
    requires Wildcard !in Split(path, '.')
    ensures ValueAt(obj, path) == Lookup(obj, Split(path, '.'))
  {
    WalkPlain(obj, Split(path, '.'), 0);
  }

  /** What a wildcard at segment `j` makes of the value `v` reached before it. */
  function AtWildcard(v: Value, parts: seq<string>, j: nat): Value
    requires j < |parts|
  {
    if !v.Arr? then Undef
    else if j == |parts| - 1 then v
    else Arr(Spread(v.items, Join(parts[j + 1..], ".")))
  }

  lemma {:induction false} WalkWildcard(current: Value, parts: seq<string>, i: nat, j: nat)
    requires i <= j < |parts| && DotFree(parts) && parts[j] == Wildcard
    requires forall k :: i <= k < j ==> parts[k] != Wildcard
    ensures Walk(current, parts, i) == AtWildcard(Lookup(current, parts[i..j]), parts, j)
    decreases j - i
  {
    if i < j {
      assert parts[i..j][1..] == parts[i + 1..j];
      if !Nullish(current) {
        WalkWildcard(Member(current, parts[i]), parts, i + 1, j);
      }
    }
  }

  /**
   * A path `prefix.[].rest`: the wildcard applies to what `prefix` reaches.
   * A trailing wildcard gives that array itself, a wildcard on a non-array
   * gives `undefined`, and a mid-path wildcard resolves `rest` on every
   * element.
   */
  lemma GetValueWildcard(obj: Value, prefix: seq<string>, rest: seq<string>)
    requires !Falsy(obj)
    requires DotFree(prefix + [Wildcard] + rest) && Wildcard !in prefix
    ensures var v := Lookup(obj, prefix);
            ValueAt(obj, Join(prefix + [Wildcard] + rest, "."))
            == if !v.Arr? then Undef
               else if rest == [] then v
               else Arr(Spread(v.items, Join(rest, ".")))
  {
    var parts := prefix + [Wildcard] + rest;
    SplitJoin(parts, '.');
    var path := Join(parts, ".");
    assert path != "" by {
      assert Split(path, '.')[|prefix|] == Wildcard;
    }
    var j := |prefix|;
    forall k | 0 <= k < j
      ensures parts[k] != Wildcard
    {
      assert parts[k] == prefix[k];
    }
    WalkWildcard(obj, parts, 0, j);
    assert parts[0..j] == prefix;
    assert parts[j + 1..] == rest;
  }

  /** `x` is one of the non-null values the rest of the path reaches from `item`, one level flattened. */
  predicate ReachedFrom(x: Value, item: Value, restPath: string)
  {
    x in Flat1(ValueAt(item, restPath))
  }

  /** The values `f` gives for each item, concatenated in order. */
  function FlatMap(items: seq<Value>, f: Value -> seq<Value>): seq<Value>
  {
    if items == [] then [] else FlatMap(items[..|items| - 1], f) + f(items[|items| - 1])
  }

  lemma {:induction false} FlatMapMembers(items: seq<Value>, f: Value -> seq<Value>, x: Value)
    ensures x in FlatMap(items, f) <==> exists k :: 0 <= k < |items| && x in f(items[k])
  {
    if items != [] {
      var last := |items| - 1;
      var init := items[..last];
      FlatMapMembers(init, f, x);
      assert FlatMap(items, f) == FlatMap(init, f) + f(items[last]);
      if x in FlatMap(init, f) {
        var k :| 0 <= k < |init| && x in f(init[k]);
        assert items[k] == init[k];
      }
      if exists k :: 0 <= k < |items| && x in f(items[k]) {
        var k :| 0 <= k < |items| && x in f(items[k]);
        if k < last {
          assert init[k] == items[k];
        }
      }
    }
  }

  /** What the rest of the path reaches from one element, one level flattened, without `null`/`undefined`. */
  function ReachFn(restPath: string): Value -> seq<Value>
  {
    item => Flat1(ValueAt(item, restPath))
  }

  /** The mid-wildcard spreading is the flat map of `ReachFn`. */
  lemma {:induction false} SpreadIsFlatMap(items: seq<Value>, restPath: string)
    ensures Spread(items, restPath) == FlatMap(items, ReachFn(restPath))
  {
    if items != [] {
      SpreadIsFlatMap(items[..|items| - 1], restPath);
    }
  }

  /** The mid-wildcard result holds exactly the values reached from some element. */
  lemma SpreadMembers(items: seq<Value>, restPath: string, x: Value)
    ensures x in Spread(items, restPath) <==> exists k :: 0 <= k < |items| && ReachedFrom(x, items[k], restPath)
  {
    SpreadIsFlatMap(items, restPath);
    FlatMapMembers(items, ReachFn(restPath), x);
    assert forall k :: 0 <= k < |items| ==> (x in ReachFn(restPath)(items[k]) <==> ReachedFrom(x, items[k], restPath));
  }

  // ================================================================ checkMatch

  /** `checkMatch(itemValue, criteria, { isDate, dateFormat, strict })`. */
  predicate CheckMatch(item: Value, criteria: Value, isDate: bool, dateFormat: string, strict: bool, m: Moment)
  {
    var lowerCriteria := Lower(ToStr(criteria));
    if item.Arr? then
      exists k | 0 <= k < |item.items| :: CheckMatch(item.items[k], criteria, isDate, dateFormat, strict, m)
    else if Nullish(item) then false
    else if isDate then
      m.parse(item).Some? && Contains(Lower(m.format(item, dateFormat)), lowerCriteria)
    else if strict then Lower(ToStr(item)) == lowerCriteria
    else Contains(Lower(ToStr(item)), lowerCriteria)
  }

  /** A strict match is also a substring match. */
  lemma {:induction false} StrictMatchIsLoose(item: Value, criteria: Value, isDate: bool, dateFormat: string, m: Moment)
    requires CheckMatch(item, criteria, isDate, dateFormat, true, m)
    ensures CheckMatch(item, criteria, isDate, dateFormat, false, m)
  {
    if item.Arr? {
      var k :| 0 <= k < |item.items| && CheckMatch(item.items[k], criteria, isDate, dateFormat, true, m);
      StrictMatchIsLoose(item.items[k], criteria, isDate, dateFormat, m);
    } else if !Nullish(item) && !isDate {
      ContainsAt(Lower(ToStr(item)), Lower(ToStr(criteria)), 0);
    }
  }

  /** Matching ignores the case of the criteria. */
  lemma {:induction false} MatchIgnoresCriteriaCase(item: Value, s: string, isDate: bool, dateFormat: string, strict: bool, m: Moment)
    ensures CheckMatch(item, Str(Lower(s)), isDate, dateFormat, strict, m)
            == CheckMatch(item, Str(s), isDate, dateFormat, strict, m)
  {
    LowerIdempotent(s);
    if item.Arr? {
      forall k | 0 <= k < |item.items|
        ensures CheckMatch(item.items[k], Str(Lower(s)), isDate, dateFormat, strict, m)
                == CheckMatch(item.items[k], Str(s), isDate, dateFormat, strict, m)
      {
        MatchIgnoresCriteriaCase(item.items[k], s, isDate, dateFormat, strict, m);
      }
    }
  }

  // ================================================================ normalizeValue

  /** What `normalizeValue` returns: `undefined`, `null`, a number or a lower-case string. */
  datatype Key = KUndef | KNull | KNum(n: int) | KStr(s: string)

  predicate KeyNullish(k: Key)
  {
    k.KUndef? || k.KNull?
  }

  /** `normalizeValue(v)`: ISO dates become timestamps, numeric values numbers, everything else lower-cased text. */
  function Normalize(v: Value, m: Moment): (k: Key)
    ensures k.KUndef? <==> v.Undef?
    ensures k.KNull? <==> v.Null?
    ensures v.Num? ==> k.KNum?
    ensures v.Bool? && m.parseIso(v, true).None? ==> k == KStr(if v.b then "true" else "false")
    ensures v.Str? && m.parseIso(v, true).None? && StrToNumber(v.s).None? ==> k == KStr(Lower(v.s))
  {
    if v.Undef? then KUndef
    else if v.Null? then KNull
    else match m.parseIso(v, true)
      case Some(t) => KNum(t)
      case None =>
        if !v.Bool? && v != Str("") && ToNumber(v).Some? then KNum(ToNumber(v).value)
        else KStr(Lower(ToStr(v)))
  }

  /** JavaScript's `<` between two normalised values; a string against a number compares `Number(string)`. */
  predicate KeyLess(a: Key, b: Key)
  {
    match (a, b)
    case (KNum(x), KNum(y)) => x < y
    case (KStr(x), KStr(y)) => StrLess(x, y)
    case (KStr(x), KNum(y)) => StrToNumber(x).Some? && StrToNumber(x).value < y
    case (KNum(x), KStr(y)) => StrToNumber(y).Some? && x < StrToNumber(y).value
    case _ => false
  }

  /** The comparator's decision on two normalised keys. */
  function CompareKeys(a: Key, b: Key, isAsc: bool): int
  {
    if a == b then 0
    else if KeyNullish(a) then 1
    else if KeyNullish(b) then -1
    else if KeyLess(a, b) then (if isAsc then -1 else 1)
    else if KeyLess(b, a) then (if isAsc then 1 else -1)
    else 0
  }

  /**
   * Two keys the comparator orders consistently: not a number against a
   * string, and not `null` against `undefined` (which compare as each
   * greater than the other).
   */
  predicate SameKind(a: Key, b: Key)
  {
    && !(a.KNum? && b.KStr?) && !(a.KStr? && b.KNum?)
    && !(a.KUndef? && b.KNull?) && !(a.KNull? && b.KUndef?)
  }

  lemma CompareKeysTotal(a: Key, b: Key, isAsc: bool)
    requires SameKind(a, b)
    ensures CompareKeys(a, b, isAsc) <= 0 || CompareKeys(b, a, isAsc) <= 0
  {
    if a.KStr? && b.KStr? {
      StrLessTrichotomy(a.s, b.s);
    }
  }

  lemma CompareKeysTransitive(a: Key, b: Key, c: Key, isAsc: bool)
    requires SameKind(a, b) && SameKind(b, c) && SameKind(a, c)
    requires CompareKeys(a, b, isAsc) <= 0 && CompareKeys(b, c, isAsc) <= 0
    ensures CompareKeys(a, c, isAsc) <= 0
  {
    if a.KStr? && b.KStr? && c.KStr? {
      StrLessTrichotomy(a.s, b.s);
      StrLessTrichotomy(b.s, c.s);
      StrLessTrichotomy(a.s, c.s);
      if StrLess(a.s, b.s) && StrLess(b.s, c.s) {
        StrLessTransitive(a.s, b.s, c.s);
      }
      if StrLess(b.s, a.s) && StrLess(c.s, b.s) {
        StrLessTransitive(c.s, b.s, a.s);
      }
    }
  }

  // ================================================================ sortAndSearch

  const DefaultDateFormat: string := "DD MMM YYYY"

  /** A `filterConfig` entry: `{ type, match, key }`. */
  datatype FilterDef = FilterDef(kind: Option<string>, matching: Option<string>, key: Option<string>)

  /** `config`: `searchKeys`, `filterConfig`, `dateFormat` (missing ones take their defaults). */
  datatype Config = Config(searchKeys: Option<seq<string>>, filterConfig: map<string, FilterDef>, dateFormat: Option<string>)

  /** `params`: `sortBy` (`""` when absent), `asc`, and the remaining filter entries in key order. */
  datatype Params = Params(sortBy: string, asc: Value, filters: seq<(string, Value)>)

  function SearchKeys(config: Config): seq<string>
  {
    if config.searchKeys.Some? then config.searchKeys.value else ["name"]
  }

  function DateFormat(config: Config): string
  {
    if config.dateFormat.Some? then config.dateFormat.value else DefaultDateFormat
  }

  /** One search key of one item matches the global search. */
  predicate SearchHit(item: Value, key: string, search: string, dateFormat: string, m: Moment)
  {
    var v := ValueAt(item, key);
    || (m.parseIso(v, false).Some? && !v.Num? && Contains(Lower(m.format(v, dateFormat)), Lower(search)))
    || CheckMatch(v, Str(search), false, DefaultDateFormat, false, m)
  }

  predicate MatchesSearch(item: Value, keys: seq<string>, search: string, dateFormat: string, m: Moment)
  {
    exists k | 0 <= k < |keys| :: SearchHit(item, keys[k], search, dateFormat, m)
  }

  /** Stage 1: the global search. */
  function SearchStage(rows: seq<Value>, search: string, config: Config, m: Moment): (r: seq<Value>)
    ensures search != "" ==> forall x :: x in r <==> x in rows && MatchesSearch(x, SearchKeys(config), search, DateFormat(config), m)
    ensures search == "" ==> r == rows
  {
    if search == "" then rows
    else Filter(rows, item => MatchesSearch(item, SearchKeys(config), search, DateFormat(config), m))
  }

  /** Filter values that impose no constraint. */
  predicate Skipped(v: Value)
  {
    v == Str("") || v.Null? || v.Undef? || v == Str("all") || v == Bool(false)
  }

  function DefFor(key: string, config: Config): FilterDef
  {
    if key in config.filterConfig then config.filterConfig[key] else FilterDef(None, None, None)
  }

  /** `def.key || key`. */
  function TargetKey(key: string, config: Config): string
  {
    var def := DefFor(key, config);
    if def.key.Some? && def.key.value != "" then def.key.value else key
  }

  predicate IsDateFilter(key: string, v: Value, config: Config, m: Moment)
  {
    DefFor(key, config).kind == Some("date") || (v.Str? && m.parseFormat(v.s, DateFormat(config)))
  }

  predicate IsStrictFilter(key: string, v: Value, config: Config)
  {
    var def := DefFor(key, config);
    def.kind == Some("select") || def.matching == Some("exact") || v.Bool?
  }

  /** One active filter `key: v` holds for `item`. */
  predicate FilterHolds(item: Value, key: string, v: Value, config: Config, m: Moment)
  {
    CheckMatch(ValueAt(item, TargetKey(key, config)), v, IsDateFilter(key, v, config, m),
               DateFormat(config), IsStrictFilter(key, v, config), m)
  }

  /** One step of the filter loop. */
  function FilterStep(rows: seq<Value>, key: string, v: Value, config: Config, m: Moment): seq<Value>
  {
    if Skipped(v) then rows else Filter(rows, item => FilterHolds(item, key, v, config, m))
  }

  /** Stage 2: every filter entry in turn. */
  function ApplyFilters(rows: seq<Value>, filters: seq<(string, Value)>, config: Config, m: Moment): seq<Value>
    decreases |filters|
  {
    if filters == [] then rows
    else ApplyFilters(FilterStep(rows, filters[0].0, filters[0].1, config, m), filters[1..], config, m)
  }

  /** An item passes every filter entry that is not skipped. */
  predicate PassesFilters(item: Value, filters: seq<(string, Value)>, config: Config, m: Moment)
  {
    forall k | 0 <= k < |filters| :: Skipped(filters[k].1) || FilterHolds(item, filters[k].0, filters[k].1, config, m)
  }

  /** The filter stage keeps exactly the rows passing every active filter, in their original order. */
  lemma {:induction false} ApplyFiltersKeeps(rows: seq<Value>, filters: seq<(string, Value)>, config: Config, m: Moment)
    ensures ApplyFilters(rows, filters, config, m) == Filter(rows, item => PassesFilters(item, filters, config, m))
    decreases |filters|
  {
    var all := item => PassesFilters(item, filters, config, m);
    if filters == [] {
      FilterKeepsAll(rows, all);
    } else {
      var (key, v) := filters[0];
      var rest := item => PassesFilters(item, filters[1..], config, m);
      var step := FilterStep(rows, key, v, config, m);
      ApplyFiltersKeeps(step, filters[1..], config, m);
      forall item
        ensures all(item) == ((Skipped(v) || FilterHolds(item, key, v, config, m)) && rest(item))
      {
        PassesFirstAndRest(item, filters, config, m);
      }
      if Skipped(v) {
        FilterExt(rows, rest, all);
      } else {
        FilterCompose(rows, item => FilterHolds(item, key, v, config, m), rest, all);
      }
    }
  }

  /** Passing every filter entry is passing the first one and then the others. */
  lemma PassesFirstAndRest(item: Value, filters: seq<(string, Value)>, config: Config, m: Moment)
    requires filters != []
    ensures PassesFilters(item, filters, config, m)
            == ((Skipped(filters[0].1) || FilterHolds(item, filters[0].0, filters[0].1, config, m))
                && PassesFilters(item, filters[1..], config, m))
  {
    var tail := filters[1..];
    assert forall k :: 0 <= k < |tail| ==> tail[k] == filters[k + 1];
    if PassesFilters(item, filters, config, m) {
      forall k | 0 <= k < |tail|
        ensures Skipped(tail[k].1) || FilterHolds(item, tail[k].0, tail[k].1, config, m)
      {
        assert tail[k] == filters[k + 1];
      }
    }
  }

  /** A `true` filter on a text or boolean field keeps exactly the rows whose field reads "true" (strict, not substring). */
  lemma TrueFilterIsStrict(item: Value, key: string, config: Config, m: Moment)
    requires DefFor(key, config).kind != Some("date")
    requires ValueAt(item, TargetKey(key, config)).Str? || ValueAt(item, TargetKey(key, config)).Bool?
    ensures FilterHolds(item, key, Bool(true), config, m)
            <==> Lower(ToStr(ValueAt(item, TargetKey(key, config)))) == "true"
  {
  }

  /** `asc === "yes" || asc === true || asc === "asc"`. */
  predicate IsAsc(asc: Value)
  {
    asc == Str("yes") || asc == Bool(true) || asc == Str("asc")
  }

  /** The sort key of a row: the value at `sortBy`, an array standing for its first element, normalised. */
  function SortKey(row: Value, sortBy: string, m: Moment): Key
  {
    var v := ValueAt(row, sortBy);
    Normalize(if v.Arr? then (if v.items == [] then Undef else v.items[0]) else v, m)
  }

  /** The comparator passed to `result.sort`. */
  function RowOrder(sortBy: string, isAsc: bool, m: Moment): (Value, Value) -> int
  {
    (a: Value, b: Value) => CompareKeys(SortKey(a, sortBy, m), SortKey(b, sortBy, m), isAsc)
  }

  predicate Defined(v: Value)
  {
    !v.Undef?
  }

  predicate IsUndefined(v: Value)
  {
    v.Undef?
  }

  /** Stage 3: `Array.prototype.sort` orders the defined elements and moves `undefined` ones to the end. */
  function SortStage(rows: seq<Value>, sortBy: string, asc: Value, m: Moment): (r: seq<Value>)
    ensures multiset(r) == multiset(rows)
    ensures sortBy == "" ==> r == rows
  {
    if sortBy == "" then rows
    else
      FilterPartition(rows, Defined, IsUndefined);
      Sorting.StableSort(Filter(rows, Defined), RowOrder(sortBy, IsAsc(asc), m)) + Filter(rows, IsUndefined)
  }

  /** `sortAndSearch(arr, params, search, config)` on a present array. */
  function Pipeline(rows: seq<Value>, params: Params, search: string, config: Config, m: Moment): seq<Value>
  {
    SortStage(ApplyFilters(SearchStage(rows, search, config, m), params.filters, config, m), params.sortBy, params.asc, m)
  }

  /**
   * `sortAndSearch`. A missing array gives `[]`. The method has no
   * `modifies` clause: the caller's array is read, copied and never written.
   */
  method SortAndSearch(arr: array?<Value>, params: Params, search: string, config: Config, m: Moment)
    returns (result: seq<Value>)
    ensures arr == null ==> result == []
    ensures arr != null ==> result == Pipeline(arr[..], params, search, config, m)
  {
    if arr == null {
      return [];
    }
    result := arr[..];
    result := SearchStage(result, search, config, m);
    ghost var searched := result;
    var filters := params.filters;
    var k := 0;
    while k < |filters|
      invariant k <= |filters|
      invariant ApplyFilters(result, filters[k..], config, m) == ApplyFilters(searched, filters, config, m)
    {
      var (key, v) := filters[k];
      assert filters[k..][1..] == filters[k + 1..];
      if !Skipped(v) {
        result := Filter(result, item => FilterHolds(item, key, v, config, m));
      }
      k := k + 1;
    }
    if params.sortBy != "" {
      var defined := Filter(result, Defined);
      var a := new Value[|defined|](i requires 0 <= i < |defined| => defined[i]);
      assert a[..] == defined;
      Sorting.SortInPlace(a, RowOrder(params.sortBy, IsAsc(params.asc), m));
      result := a[..] + Filter(result, IsUndefined);
    }
  }

  // ---------------------------------------------------------------- sort properties

  /** The sort keys of the rows are pairwise of the same kind. */
  ghost predicate HomogeneousKeys(rows: seq<Value>, sortBy: string, m: Moment)
  {
    forall a, b :: a in rows && b in rows ==> SameKind(SortKey(a, sortBy, m), SortKey(b, sortBy, m))
  }

  /** With homogeneous keys the comparator is a total preorder, as `sort` requires. */
  lemma RowOrderConsistent(rows: seq<Value>, sortBy: string, isAsc: bool, m: Moment)
    requires HomogeneousKeys(rows, sortBy, m)
    ensures Sorting.Consistent(RowOrder(sortBy, isAsc, m), rows)
  {
    var cmp := RowOrder(sortBy, isAsc, m);
    forall a, b | a in rows && b in rows
      ensures Sorting.Connex(cmp, a, b)
    {
      CompareKeysTotal(SortKey(a, sortBy, m), SortKey(b, sortBy, m), isAsc);
    }
    forall a, b, c | a in rows && b in rows && c in rows
      ensures Sorting.Transitive(cmp, a, b, c)
    {
      var ka, kb, kc := SortKey(a, sortBy, m), SortKey(b, sortBy, m), SortKey(c, sortBy, m);
      if CompareKeys(ka, kb, isAsc) <= 0 && CompareKeys(kb, kc, isAsc) <= 0 {
        CompareKeysTransitive(ka, kb, kc, isAsc);
      }
    }
  }

  lemma UndefinedKey(sortBy: string, m: Moment)
    ensures SortKey(Undef, sortBy, m) == KUndef
  {
  }

  lemma SortedPrefix(rows: seq<Value>, sortBy: string, asc: Value, m: Moment)
    requires sortBy != ""
    requires HomogeneousKeys(Filter(rows, Defined), sortBy, m)
    ensures var s := Sorting.StableSort(Filter(rows, Defined), RowOrder(sortBy, IsAsc(asc), m));
            && SortStage(rows, sortBy, asc, m) == s + Filter(rows, IsUndefined)
            && Sorting.Sorted(s, RowOrder(sortBy, IsAsc(asc), m))
            && HomogeneousKeys(s, sortBy, m)
            && forall x :: x in Filter(rows, IsUndefined) ==> SortKey(x, sortBy, m) == KUndef
  {
    var d := Filter(rows, Defined);
    var cmp := RowOrder(sortBy, IsAsc(asc), m);
    RowOrderConsistent(d, sortBy, IsAsc(asc), m);
    Sorting.StableSortSorted(d, cmp);
    var s := Sorting.StableSort(d, cmp);
    forall x | x in s
      ensures x in d
    {
      assert x in multiset(s);
    }
    UndefinedKey(sortBy, m);
  }

  lemma SortedNullsLast(s: seq<Value>, sortBy: string, isAsc: bool, m: Moment)
    requires Sorting.Sorted(s, RowOrder(sortBy, isAsc, m))
    ensures forall i, j :: 0 <= i < j < |s| && KeyNullish(SortKey(s[i], sortBy, m)) ==> KeyNullish(SortKey(s[j], sortBy, m))
  {
    var cmp := RowOrder(sortBy, isAsc, m);
    forall i, j | 0 <= i < j < |s| && KeyNullish(SortKey(s[i], sortBy, m))
      ensures KeyNullish(SortKey(s[j], sortBy, m))
    {
      assert cmp(s[i], s[j]) <= 0;
    }
  }

  /** Rows whose key normalises to `null`/`undefined` come after all others, whatever the direction. */
  lemma NullsLast(rows: seq<Value>, sortBy: string, asc: Value, m: Moment)
    requires sortBy != ""
    requires HomogeneousKeys(Filter(rows, Defined), sortBy, m)
    ensures var r := SortStage(rows, sortBy, asc, m);
            forall i, j :: 0 <= i < j < |r| && KeyNullish(SortKey(r[i], sortBy, m)) ==> KeyNullish(SortKey(r[j], sortBy, m))
  {
    SortedPrefix(rows, sortBy, asc, m);
    var s := Sorting.StableSort(Filter(rows, Defined), RowOrder(sortBy, IsAsc(asc), m));
    var u := Filter(rows, IsUndefined);
    SortedNullsLast(s, sortBy, IsAsc(asc), m);
    var r := s + u;
    forall i, j | 0 <= i < j < |r| && KeyNullish(SortKey(r[i], sortBy, m))
      ensures KeyNullish(SortKey(r[j], sortBy, m))
    {
      if j >= |s| {
        assert r[j] in u;
      } else {
        assert r[i] == s[i] && r[j] == s[j];
      }
    }
  }

  lemma SortedDirection(s: seq<Value>, sortBy: string, isAsc: bool, m: Moment)
    requires Sorting.Sorted(s, RowOrder(sortBy, isAsc, m))
    requires HomogeneousKeys(s, sortBy, m)
    ensures forall i, j :: 0 <= i < j < |s| && !KeyNullish(SortKey(s[i], sortBy, m)) && !KeyNullish(SortKey(s[j], sortBy, m)) ==>
              if isAsc then !KeyLess(SortKey(s[j], sortBy, m), SortKey(s[i], sortBy, m))
              else !KeyLess(SortKey(s[i], sortBy, m), SortKey(s[j], sortBy, m))
  {
    var cmp := RowOrder(sortBy, isAsc, m);
    forall i, j | 0 <= i < j < |s| && !KeyNullish(SortKey(s[i], sortBy, m)) && !KeyNullish(SortKey(s[j], sortBy, m))
      ensures if isAsc then !KeyLess(SortKey(s[j], sortBy, m), SortKey(s[i], sortBy, m))
              else !KeyLess(SortKey(s[i], sortBy, m), SortKey(s[j], sortBy, m))
    {
      var ki, kj := SortKey(s[i], sortBy, m), SortKey(s[j], sortBy, m);
      assert cmp(s[i], s[j]) <= 0;
      assert s[i] in s && s[j] in s;
      assert SameKind(ki, kj);
      if ki.KStr? && kj.KStr? {
        StrLessTrichotomy(ki.s, kj.s);
      }
    }
  }

  /** Between rows with non-null keys, the order is ascending iff `IsAsc(asc)`, descending otherwise. */
  lemma SortDirection(rows: seq<Value>, sortBy: string, asc: Value, m: Moment)
    requires sortBy != ""
    requires HomogeneousKeys(Filter(rows, Defined), sortBy, m)
    ensures var r := SortStage(rows, sortBy, asc, m);
            forall i, j :: 0 <= i < j < |r| && !KeyNullish(SortKey(r[i], sortBy, m)) && !KeyNullish(SortKey(r[j], sortBy, m)) ==>
              if IsAsc(asc) then !KeyLess(SortKey(r[j], sortBy, m), SortKey(r[i], sortBy, m))
              else !KeyLess(SortKey(r[i], sortBy, m), SortKey(r[j], sortBy, m))
  {
    SortedPrefix(rows, sortBy, asc, m);
    var s := Sorting.StableSort(Filter(rows, Defined), RowOrder(sortBy, IsAsc(asc), m));
    var u := Filter(rows, IsUndefined);
    SortedDirection(s, sortBy, IsAsc(asc), m);
    var r := s + u;
    forall i, j | 0 <= i < j < |r| && !KeyNullish(SortKey(r[i], sortBy, m)) && !KeyNullish(SortKey(r[j], sortBy, m))
      ensures if IsAsc(asc) then !KeyLess(SortKey(r[j], sortBy, m), SortKey(r[i], sortBy, m))
              else !KeyLess(SortKey(r[i], sortBy, m), SortKey(r[j], sortBy, m))
    {
      if j < |s| {
        assert r[i] == s[i] && r[j] == s[j];
      }
    }
  }
}
