/**
 * The export field mapper (`checkCondition`, `mapObjectKeys`,
 * `getValuesFromDoc`): a list of column specifications turns a document
 * into a spreadsheet row (an object keyed by column name) or a PDF table
 * row (an array). A specification is a list of conditional rules, one
 * conditional rule, or a string spec: `f|g` joins, `f_F` dates, `f.g`
 * nested reads, `f_L` lengths, or a plain field name. Throwing is
 * `Failure`.
 */
module Exports {
  import opened Base
  import opened Json
  import opened External

  /** A document: an object's properties. */
  type Doc = map<string, Value>

  /** `doc[field]`. */
  function Get(doc: Doc, field: string): Value
  {
    if field in doc then doc[field] else Undef
  }

  const TypeErrorNull := "TypeError: Cannot read properties of undefined"

  // ---------------------------------------------------------------- checkCondition

  /** `===`: same type and value; two object or array values are distinct objects, never identical. */
  predicate StrictEquals(a: Value, b: Value)
  {
    a == b && !a.Arr? && !a.Obj?
  }

  /** The primitive an operand of `<` becomes: objects and arrays turn into their string. */
  function ToPrimitive(v: Value): Value
  {
    if v.Arr? || v.Obj? then Str(ToStr(v)) else v
  }

  /** The abstract relational comparison `a < b`: two strings compare by code units, anything else as numbers; `None` when NaN is involved. */
  function IsLessThan(a: Value, b: Value): Option<bool>
  {
    var pa, pb := ToPrimitive(a), ToPrimitive(b);
    if pa.Str? && pb.Str? then Some(StrLess(pa.s, pb.s))
    else match (ToNumber(pa), ToNumber(pb))
      case (Some(x), Some(y)) => Some(x < y)
      case _ => None
  }

  /** The six comparison codes. */
  datatype Comparison = Eq | Ne | Lt | Lte | Gt | Gte

  /** The comparison a condition code names, if any. */
  function ComparisonOf(condition: string): (r: Option<Comparison>)
    ensures r.None? <==> condition !in {"eq", "ne", "lt", "lte", "gt", "gte"}
  {
    match condition
    case "eq" => Some(Eq)
    case "ne" => Some(Ne)
    case "lt" => Some(Lt)
    case "lte" => Some(Lte)
    case "gt" => Some(Gt)
    case "gte" => Some(Gte)
    case _ => None
  }

  /**
   * What a comparison yields once its operands are compared: `same` is
   * `fieldValue === value`, `below` is `fieldValue < value` and `above` is
   * `value < fieldValue` (`None` when NaN is involved).
   */
  function Decide(c: Comparison, same: bool, below: Option<bool>, above: Option<bool>): bool
  {
    match c
    case Eq => same
    case Ne => !same
    case Lt => below == Some(true)
    case Lte => above == Some(false)
    case Gt => above == Some(true)
    case Gte => below == Some(false)
  }

  /** `checkCondition`: the six comparison codes, and an error for anything else. */
  function CheckCondition(fieldValue: Value, condition: string, value: Value): (r: Result<bool>)
    ensures r.Failure? <==> condition !in {"eq", "ne", "lt", "lte", "gt", "gte"}
  {
    match ComparisonOf(condition)
    case None => Failure("Unsupported condition: " + condition)
    case Some(c) => Success(Decide(c, StrictEquals(fieldValue, value), IsLessThan(fieldValue, value), IsLessThan(value, fieldValue)))
  }

  /** Swapping the operands swaps `below` and `above`, which turns "lt" into "gt" and "lte" into "gte". */
  lemma DecideMirror(same1: bool, same2: bool, below: Option<bool>, above: Option<bool>)
    ensures Decide(Lt, same1, below, above) == Decide(Gt, same2, above, below)
    ensures Decide(Lte, same1, below, above) == Decide(Gte, same2, above, below)
  {
  }

  /** Each code names its comparison. */
  lemma CodesNamed()
    ensures ComparisonOf("eq") == Some(Eq) && ComparisonOf("ne") == Some(Ne)
    ensures ComparisonOf("lt") == Some(Lt) && ComparisonOf("gt") == Some(Gt)
    ensures ComparisonOf("lte") == Some(Lte) && ComparisonOf("gte") == Some(Gte)
  {
  }

  /** "lt" with the operands swapped is "gt". */
  lemma LtMirrorsGt(a: Value, b: Value)
    ensures CheckCondition(a, "lt", b) == CheckCondition(b, "gt", a)
  {
    CodesNamed();
    CodeNames(a, "lt", b, Lt);
    CodeNames(b, "gt", a, Gt);
    DecideMirror(StrictEquals(a, b), StrictEquals(b, a), IsLessThan(a, b), IsLessThan(b, a));
  }

  /** "lte" with the operands swapped is "gte". */
  lemma LteMirrorsGte(a: Value, b: Value)
    ensures CheckCondition(a, "lte", b) == CheckCondition(b, "gte", a)
  {
    CodesNamed();
    CodeNames(a, "lte", b, Lte);
    CodeNames(b, "gte", a, Gte);
    DecideMirror(StrictEquals(a, b), StrictEquals(b, a), IsLessThan(a, b), IsLessThan(b, a));
  }

  /** "ne" is the negation of "eq". */
  lemma NeNegatesEq(a: Value, b: Value)
    ensures CheckCondition(a, "ne", b).Success? && CheckCondition(a, "eq", b).Success?
    ensures CheckCondition(a, "ne", b).value == !CheckCondition(a, "eq", b).value
  {
    CodesNamed();
    CodeNames(a, "eq", b, Eq);
    CodeNames(a, "ne", b, Ne);
  }

  /** A condition code that names a comparison yields that comparison's decision. */
  lemma CodeNames(fieldValue: Value, condition: string, value: Value, c: Comparison)
    requires ComparisonOf(condition) == Some(c)
    ensures CheckCondition(fieldValue, condition, value)
            == Success(Decide(c, StrictEquals(fieldValue, value), IsLessThan(fieldValue, value), IsLessThan(value, fieldValue)))
  {
  }

  /** Between two strings the order is total: exactly one of `<` and `>=` holds, and `<=` is `<` or equal. */
  lemma StringConditions(a: string, b: string)
    ensures CheckCondition(Str(a), "lt", Str(b)).value != CheckCondition(Str(a), "gte", Str(b)).value
    ensures CheckCondition(Str(a), "lte", Str(b)).value == (CheckCondition(Str(a), "lt", Str(b)).value || a == b)
  {
    CodesNamed();
    StrLessTrichotomy(a, b);
    if a == b {
      StrLessIrreflexive(a);
    }
  }

  // ---------------------------------------------------------------- specifications

  /** `{ field, value, condition, valueField, default }`. */
  datatype Rule = Rule(field: string, value: Value, condition: string, valueField: string, default: Value)

  /** One entry of `keysArray2`. */
  datatype KeySpec =
    | Conditions(rules: seq<Rule>)
    | Conditional(rule: Rule)
    | Path(spec: string)

  /** `let [field, field2] = path.split(".")` and `doc[field][field2]`, unguarded: a missing parent throws. */
  function NestedRead(doc: Doc, path: string): (r: Result<Value>)
    requires '.' in path
    ensures r.Failure? <==> Nullish(Get(doc, Split(path, '.')[0]))
  {
    SplitAtSeparator(path, '.');
    var parts := Split(path, '.');
    var parent := Get(doc, parts[0]);
    if Nullish(parent) then Failure(TypeErrorNull) else Success(Member(parent, parts[1]))
  }

  /** What a rule whose condition holds yields: a nested read, or the field when truthy and else the default. */
  function RuleValue(doc: Doc, rule: Rule): Result<Value>
  {
    if '.' in rule.valueField then NestedRead(doc, rule.valueField)
    else
      var v := Get(doc, rule.valueField);
      Success(if !Falsy(v) && v != Str("") then v else rule.default)
  }

  /** `checkCondition(doc[rule.field], rule.condition, rule.value)`. */
  function RuleHolds(doc: Doc, rule: Rule): Result<bool>
  {
    CheckCondition(Get(doc, rule.field), rule.condition, rule.value)
  }

  /**
   * The rules from `i` on, tried in order with `holds` deciding each
   * condition and `valueOf` giving a holding rule's value; when none holds,
   * the last rule's default (an empty list throws).
   */
  function FirstHolding(rules: seq<Rule>, i: nat, holds: Rule -> Result<bool>, valueOf: Rule -> Result<Value>): Result<Value>
    requires i <= |rules|
    decreases |rules| - i
  {
    if i == |rules| then
      if rules == [] then Failure(TypeErrorNull) else Success(rules[|rules| - 1].default)
    else match holds(rules[i])
      case Failure(e) => Failure(e)
      case Success(true) => valueOf(rules[i])
      case Success(false) => FirstHolding(rules, i + 1, holds, valueOf)
  }

  /** Whether a rule's condition holds for `doc`. */
  function HoldsIn(doc: Doc): Rule -> Result<bool>
  {
    rule => RuleHolds(doc, rule)
  }

  /** The value a holding rule gives for `doc`. */
  function ValueIn(doc: Doc): Rule -> Result<Value>
  {
    rule => RuleValue(doc, rule)
  }

  /** The rules from `i` on, evaluated on `doc`. */
  function RulesFrom(doc: Doc, rules: seq<Rule>, i: nat): Result<Value>
    requires i <= |rules|
  {
    FirstHolding(rules, i, HoldsIn(doc), ValueIn(doc))
  }

  /** The `for … of` loop over an array of rules. */
  method EvalRules(doc: Doc, rules: seq<Rule>) returns (r: Result<Value>)
    ensures r == RulesFrom(doc, rules, 0)
  {
    for i := 0 to |rules|
      invariant RulesFrom(doc, rules, 0) == RulesFrom(doc, rules, i)
    {
      var holds := RuleHolds(doc, rules[i]);
      if holds.Failure? {
        return Failure(holds.error);
      }
      if holds.value {
        return RuleValue(doc, rules[i]);
      }
    }
    if rules == [] {
      return Failure(TypeErrorNull);
    }
    r := Success(rules[|rules| - 1].default);
  }

  /** The first rule whose condition holds decides the value. */
  lemma {:induction false} FirstHoldingWins(rules: seq<Rule>, i: nat, k: nat, holds: Rule -> Result<bool>, valueOf: Rule -> Result<Value>)
    requires i <= k < |rules|
    requires forall j :: i <= j < k ==> holds(rules[j]) == Success(false)
    requires holds(rules[k]) == Success(true)
    ensures FirstHolding(rules, i, holds, valueOf) == valueOf(rules[k])
    decreases k - i
  {
    if i < k {
      FirstHoldingWins(rules, i + 1, k, holds, valueOf);
    }
  }

  /** When no condition holds, the value is the last rule's default. */
  lemma {:induction false} NoneHolding(rules: seq<Rule>, i: nat, holds: Rule -> Result<bool>, valueOf: Rule -> Result<Value>)
    requires rules != [] && i <= |rules|
    requires forall j :: i <= j < |rules| ==> holds(rules[j]) == Success(false)
    ensures FirstHolding(rules, i, holds, valueOf) == Success(rules[|rules| - 1].default)
    decreases |rules| - i
  {
    if i < |rules| {
      NoneHolding(rules, i + 1, holds, valueOf);
    }
  }

  /** On a document, the first rule whose condition holds decides the value. */
  lemma FirstRuleWins(doc: Doc, rules: seq<Rule>, i: nat, k: nat)
    requires i <= k < |rules|
    requires forall j :: i <= j < k ==> RuleHolds(doc, rules[j]) == Success(false)
    requires RuleHolds(doc, rules[k]) == Success(true)
    ensures RulesFrom(doc, rules, i) == RuleValue(doc, rules[k])
  {
    FirstHoldingWins(rules, i, k, HoldsIn(doc), ValueIn(doc));
  }

  /** On a document where no condition holds, the value is the last rule's default. */
  lemma NoRuleHolds(doc: Doc, rules: seq<Rule>, i: nat)
    requires rules != [] && i <= |rules|
    requires forall j :: i <= j < |rules| ==> RuleHolds(doc, rules[j]) == Success(false)
    ensures RulesFrom(doc, rules, i) == Success(rules[|rules| - 1].default)
  {
    NoneHolding(rules, i, HoldsIn(doc), ValueIn(doc));
  }

  /** `doc[field].map(d => field2 ? d[field2] : d)`: reading a property of a missing element throws. */
  function PluckAll(items: seq<Value>, field2: string): (r: Result<seq<Value>>)
    ensures r.Success? ==> |r.value| == |items|
    ensures field2 == "" ==> r == Success(items)
  {
    if items == [] then Success([])
    else
      match PluckAll(items[..|items| - 1], field2)
      case Failure(e) => Failure(e)
      case Success(front) =>
        var d := items[|items| - 1];
        assert items == items[..|items| - 1] + [d];
        if field2 == "" then Success(front + [d])
        else if Nullish(d) then Failure(TypeErrorNull)
        else Success(front + [Member(d, field2)])
  }

  /** `arr.join(", ")`: `null` and `undefined` elements render as nothing. */
  function JoinValues(items: seq<Value>): string
  {
    Join(seq(|items|, i requires 0 <= i < |items| => if Nullish(items[i]) then "" else ToStr(items[i])), ", ")
  }

  /** `f|g`: the elements of array `doc[f]` (or their property `g`) joined with ", "; "" when `doc[f]` is falsy. */
  function JoinSpec(doc: Doc, spec: string): Result<Value>
    requires '|' in spec
  {
    SplitAtSeparator(spec, '|');
    var parts := Split(spec, '|');
    var v := Get(doc, parts[0]);
    if Falsy(v) then Success(Str(""))
    else if !v.Arr? then Failure("TypeError: doc[field].map is not a function")
    else match PluckAll(v.items, parts[1])
      case Failure(e) => Failure(e)
      case Success(plucked) => Success(Str(JoinValues(plucked)))
  }

  /** `spec.split(marker)[0]`: the text before the first occurrence of the marker. */
  function Before(spec: string, marker: string): string
  {
    match IndexOf(spec, marker)
    case Some(i) => spec[..i]
    case None => spec
  }

  /**
   * A string spec, tried in a fixed order: `|`, `_F`, `.`, `_L`, then a
   * plain field. `guardDot` selects the two readings of `f.g`:
   * `mapObjectKeys` reads `doc[f][g]` unguarded, `getValuesFromDoc`
   * yields "" when `doc[f]` is falsy.
   */
  function PathValue(doc: Doc, spec: string, m: Moment, guardDot: bool): Result<Value>
  {
    if '|' in spec then JoinSpec(doc, spec)
    else if Contains(spec, "_F") then
      var v := Get(doc, Before(spec, "_F"));
      Success(if Falsy(v) then Str("") else Str(m.format(v, "DD/MM/YYYY")))
    else if '.' in spec then
      if guardDot && Falsy(Get(doc, Split(spec, '.')[0])) then Success(Str("")) else NestedRead(doc, spec)
    else if Contains(spec, "_L") then
      var v := Get(doc, Before(spec, "_L"));
      Success(if v.Arr? then Num(|v.items|) else Num(0))
    else Success(Get(doc, spec))
  }

  /** The value one column specification gives for a document. */
  function KeyValue(doc: Doc, key: KeySpec, m: Moment, guardDot: bool): Result<Value>
  {
    match key
    case Conditions(rules) => RulesFrom(doc, rules, 0)
    case Conditional(rule) =>
      (match RuleHolds(doc, rule)
       case Failure(e) => Failure(e)
       case Success(holds) => Success(if holds then Get(doc, rule.valueField) else rule.default))
    case Path(spec) => PathValue(doc, spec, m, guardDot)
  }

  /** A single rule gives `doc[valueField]` when its condition holds and its default otherwise. */
  lemma ConditionalValue(doc: Doc, rule: Rule, m: Moment, guardDot: bool)
    requires RuleHolds(doc, rule).Success?
    ensures KeyValue(doc, Conditional(rule), m, guardDot)
            == Success(if RuleHolds(doc, rule).value then Get(doc, rule.valueField) else rule.default)
  {
  }

  // ---------------------------------------------------------------- string specs

  /** No `_`, `.` or `|` in a field name: appending a marker makes a spec of exactly that kind. */
  predicate PlainName(f: string)
  {
    '_' !in f && '.' !in f && '|' !in f
  }

  /** In `f + marker`, for a plain `f` and a marker starting with `_`, the marker is found right after `f` and nowhere else. */
  lemma MarkerAfterName(f: string, marker: string, other: string)
    requires PlainName(f) && |marker| == 2 && |other| == 2 && marker[0] == '_' && other[0] == '_' && marker[1] != other[1]
    ensures IndexOf(f + marker, marker) == Some(|f|)
    ensures !Contains(f + marker, other)
    ensures '|' !in f + marker && '.' !in f + marker <==> '|' !in marker && '.' !in marker
  {
    var s := f + marker;
    assert s[|f|..|f| + 2] == marker;
    ContainsAt(s, marker, |f|);
    forall c | c in s && (c == '|' || c == '.')
      ensures c in marker
    {
      var k :| 0 <= k < |s| && s[k] == c;
      if k < |f| {
        assert f[k] == c;
      } else {
        assert marker[k - |f|] == c;
      }
    }
  }

  /** `f_L` gives the length of array `doc[f]`, and 0 for anything else. */
  lemma LengthSpec(doc: Doc, f: string, m: Moment, guardDot: bool)
    requires PlainName(f)
    ensures PathValue(doc, f + "_L", m, guardDot)
            == Success(if Get(doc, f).Arr? then Num(|Get(doc, f).items|) else Num(0))
  {
    MarkerAfterName(f, "_L", "_F");
    assert (f + "_L")[..|f|] == f;
  }

  /** `f_F` gives `doc[f]` formatted as "DD/MM/YYYY", and "" when it is falsy. */
  lemma DateSpec(doc: Doc, f: string, m: Moment, guardDot: bool)
    requires PlainName(f)
    ensures PathValue(doc, f + "_F", m, guardDot)
            == Success(if Falsy(Get(doc, f)) then Str("") else Str(m.format(Get(doc, f), "DD/MM/YYYY")))
  {
    MarkerAfterName(f, "_F", "_L");
    assert (f + "_F")[..|f|] == f;
  }

  /** `f|g`: "" when `doc[f]` is falsy, a throw when it is truthy but no array, and without `g` the elements joined with ", ". */
  lemma JoinSpecValue(doc: Doc, f: string, g: string, m: Moment, guardDot: bool)
    requires '|' !in f && '|' !in g
    ensures var v := Get(doc, f);
            var r := PathValue(doc, f + "|" + g, m, guardDot);
            && (Falsy(v) ==> r == Success(Str("")))
            && (!Falsy(v) && !v.Arr? ==> r.Failure?)
            && (v.Arr? && g == "" ==> r == Success(Str(JoinValues(v.items))))
  {
    var spec := f + "|" + g;
    assert spec[|f|] == '|';
    assert Join([f, g], "|") == spec;
    SplitJoin([f, g], '|');
  }

  /** The two readings of `f.g` differ only when `doc[f]` is falsy: then "" for the array row, and for a missing parent a throw for the object row. */
  lemma NestedReadings(doc: Doc, key: KeySpec, m: Moment)
    ensures key.Path? && '|' !in key.spec && !Contains(key.spec, "_F") && '.' in key.spec
            && Falsy(Get(doc, Split(key.spec, '.')[0]))
            ==> KeyValue(doc, key, m, true) == Success(Str(""))
                && (Nullish(Get(doc, Split(key.spec, '.')[0])) ==> KeyValue(doc, key, m, false).Failure?)
    ensures !(key.Path? && '|' !in key.spec && !Contains(key.spec, "_F") && '.' in key.spec
              && Falsy(Get(doc, Split(key.spec, '.')[0])))
            ==> KeyValue(doc, key, m, true) == KeyValue(doc, key, m, false)
  {
  }

  // ---------------------------------------------------------------- mapObjectKeys

  const MissingSpec := "TypeError: Cannot read properties of undefined (reading 'includes')"

  /**
   * The object built after the first `n` column names, `valueOf` giving
   * each specification's value: a name without a specification, or a
   * specification that throws, throws.
   */
  function Reduce(keys1: seq<string>, keys2: seq<KeySpec>, n: nat, valueOf: KeySpec -> Result<Value>): Result<map<string, Value>>
    requires n <= |keys1|
  {
    if n == 0 then Success(map[])
    else match Reduce(keys1, keys2, n - 1, valueOf)
      case Failure(e) => Failure(e)
      case Success(result) =>
        if n - 1 >= |keys2| then Failure(MissingSpec)
        else match valueOf(keys2[n - 1])
          case Failure(e) => Failure(e)
          case Success(v) => Success(result[keys1[n - 1] := v])
  }

  /** The unguarded value of a specification for `doc`, as `mapObjectKeys` reads it. */
  function RawValue(doc: Doc, m: Moment): KeySpec -> Result<Value>
  {
    key => KeyValue(doc, key, m, false)
  }

  /** The object `mapObjectKeys` has built after the first `n` keys. */
  function MapKeys(doc: Doc, keys1: seq<string>, keys2: seq<KeySpec>, m: Moment, n: nat): Result<map<string, Value>>
    requires n <= |keys1|
  {
    Reduce(keys1, keys2, n, RawValue(doc, m))
  }

  /** `mapObjectKeys`: the `reduce` over `keysArray1`, writing one property per key; a throw ends it. */
  method MapObjectKeys(doc: Doc, keys1: seq<string>, keys2: seq<KeySpec>, m: Moment) returns (r: Result<map<string, Value>>)
    ensures r == MapKeys(doc, keys1, keys2, m, |keys1|)
  {
    r := Success(map[]);
    var index := 0;
    while index < |keys1| && r.Success?
      invariant index <= |keys1| && r == MapKeys(doc, keys1, keys2, m, index)
      invariant r.Failure? ==> r == MapKeys(doc, keys1, keys2, m, |keys1|)
    {
      r := Reducer(doc, keys1, keys2, m, index, r.value);
      index := index + 1;
    }
  }

  /** The reducer's body for key `index`: a missing specification throws, else the specification's value is written. */
  method Reducer(doc: Doc, keys1: seq<string>, keys2: seq<KeySpec>, m: Moment, index: nat, result: map<string, Value>)
    returns (next: Result<map<string, Value>>)
    requires index < |keys1| && MapKeys(doc, keys1, keys2, m, index) == Success(result)
    ensures next == MapKeys(doc, keys1, keys2, m, index + 1)
    ensures next.Failure? ==> MapKeys(doc, keys1, keys2, m, |keys1|) == next
  {
    if index >= |keys2| {
      next := Failure(MissingSpec);
    } else {
      var v := SpecValue(doc, keys2[index], m);
      ReduceStep(keys1, keys2, index, RawValue(doc, m), result);
      if v.Failure? {
        next := Failure(v.error);
      } else {
        next := Success(result[keys1[index] := v.value]);
      }
    }
    if next.Failure? {
      MapKeysFailureSticks(doc, keys1, keys2, m, index + 1);
    }
  }

  /** The value of one specification: the rule loop for a list of rules, else the specification's reading. */
  method SpecValue(doc: Doc, keyMapping: KeySpec, m: Moment) returns (v: Result<Value>)
    ensures v == RawValue(doc, m)(keyMapping)
  {
    if keyMapping.Conditions? {
      v := EvalRules(doc, keyMapping.rules);
    } else {
      v := KeyValue(doc, keyMapping, m, false);
    }
  }

  /** One more key after a successful prefix: its specification's value is written, or its throw ends the reduction. */
  lemma ReduceStep(keys1: seq<string>, keys2: seq<KeySpec>, n: nat, valueOf: KeySpec -> Result<Value>, result: map<string, Value>)
    requires n < |keys1| && n < |keys2| && Reduce(keys1, keys2, n, valueOf) == Success(result)
    ensures valueOf(keys2[n]).Failure? ==> Reduce(keys1, keys2, n + 1, valueOf) == Failure(valueOf(keys2[n]).error)
    ensures valueOf(keys2[n]).Success? ==> Reduce(keys1, keys2, n + 1, valueOf) == Success(result[keys1[n] := valueOf(keys2[n]).value])
  {
  }

  /** Once a key throws, the whole reduction throws with that error. */
  lemma {:induction false} ReduceFailureSticks(keys1: seq<string>, keys2: seq<KeySpec>, n: nat, n': nat, valueOf: KeySpec -> Result<Value>)
    requires n <= n' <= |keys1| && Reduce(keys1, keys2, n, valueOf).Failure?
    ensures Reduce(keys1, keys2, n', valueOf) == Reduce(keys1, keys2, n, valueOf)
    decreases n' - n
  {
    if n < n' {
      ReduceFailureSticks(keys1, keys2, n, n' - 1, valueOf);
    }
  }

  /** The object's keys are exactly the column names. */
  lemma {:induction false} ReduceKeys(keys1: seq<string>, keys2: seq<KeySpec>, n: nat, valueOf: KeySpec -> Result<Value>)
    requires n <= |keys1| && Reduce(keys1, keys2, n, valueOf).Success?
    ensures Reduce(keys1, keys2, n, valueOf).value.Keys == set k | k in keys1[..n]
  {
    if n > 0 {
      ReduceKeys(keys1, keys2, n - 1, valueOf);
      assert keys1[..n] == keys1[..n - 1] + [keys1[n - 1]];
    }
  }

  /** Each column holds the value of the specification at its index (the last one, when a name repeats). */
  lemma {:induction false} ReduceValue(keys1: seq<string>, keys2: seq<KeySpec>, n: nat, i: nat, valueOf: KeySpec -> Result<Value>)
    requires i < n <= |keys1| && Reduce(keys1, keys2, n, valueOf).Success?
    requires forall j :: i < j < n ==> keys1[j] != keys1[i]
    ensures i < |keys2| && valueOf(keys2[i]).Success?
    ensures keys1[i] in Reduce(keys1, keys2, n, valueOf).value
    ensures Reduce(keys1, keys2, n, valueOf).value[keys1[i]] == valueOf(keys2[i]).value
  {
    if i < n - 1 {
      ReduceValue(keys1, keys2, n - 1, i, valueOf);
    }
  }

  /** With a specification for every column and none that throws, the object is built. */
  lemma {:induction false} ReduceSucceeds(keys1: seq<string>, keys2: seq<KeySpec>, n: nat, valueOf: KeySpec -> Result<Value>)
    requires n <= |keys1| && n <= |keys2|
    requires forall i :: 0 <= i < n ==> valueOf(keys2[i]).Success?
    ensures Reduce(keys1, keys2, n, valueOf).Success?
  {
    if n > 0 {
      ReduceSucceeds(keys1, keys2, n - 1, valueOf);
    }
  }

  /** `mapObjectKeys` on a document: once a key throws, the whole reduction throws with that error. */
  lemma MapKeysFailureSticks(doc: Doc, keys1: seq<string>, keys2: seq<KeySpec>, m: Moment, n: nat)
    requires n <= |keys1| && MapKeys(doc, keys1, keys2, m, n).Failure?
    ensures MapKeys(doc, keys1, keys2, m, |keys1|) == MapKeys(doc, keys1, keys2, m, n)
  {
    ReduceFailureSticks(keys1, keys2, n, |keys1|, RawValue(doc, m));
  }

  /** `mapObjectKeys` on a document: its keys are exactly the column names. */
  lemma MapKeysKeys(doc: Doc, keys1: seq<string>, keys2: seq<KeySpec>, m: Moment, n: nat)
    requires n <= |keys1| && MapKeys(doc, keys1, keys2, m, n).Success?
    ensures MapKeys(doc, keys1, keys2, m, n).value.Keys == set k | k in keys1[..n]
  {
    ReduceKeys(keys1, keys2, n, RawValue(doc, m));
  }

  /** `mapObjectKeys` on a document: each column holds the unguarded value of its specification. */
  lemma MapKeysValue(doc: Doc, keys1: seq<string>, keys2: seq<KeySpec>, m: Moment, n: nat, i: nat)
    requires i < n <= |keys1| && MapKeys(doc, keys1, keys2, m, n).Success?
    requires forall j :: i < j < n ==> keys1[j] != keys1[i]
    ensures i < |keys2| && KeyValue(doc, keys2[i], m, false).Success?
    ensures keys1[i] in MapKeys(doc, keys1, keys2, m, n).value
    ensures MapKeys(doc, keys1, keys2, m, n).value[keys1[i]] == KeyValue(doc, keys2[i], m, false).value
  {
    ReduceValue(keys1, keys2, n, i, RawValue(doc, m));
  }

  /** `mapObjectKeys` on a document builds the object when every column has a specification that does not throw. */
  lemma MapKeysSucceeds(doc: Doc, keys1: seq<string>, keys2: seq<KeySpec>, m: Moment, n: nat)
    requires n <= |keys1| && n <= |keys2|
    requires forall i :: 0 <= i < n ==> KeyValue(doc, keys2[i], m, false).Success?
    ensures MapKeys(doc, keys1, keys2, m, n).Success?
  {
    ReduceSucceeds(keys1, keys2, n, RawValue(doc, m));
  }

  // ---------------------------------------------------------------- getValuesFromDoc

  /** Each specification's value in turn, stopping at the first throw. */
  function CollectAll(keys: seq<KeySpec>, valueOf: KeySpec -> Result<Value>): (r: Result<seq<Value>>)
    ensures r.Success? ==> |r.value| == |keys|
  {
    if keys == [] then Success([])
    else match valueOf(keys[0])
      case Failure(e) => Failure(e)
      case Success(v) =>
        match CollectAll(keys[1..], valueOf)
        case Failure(e) => Failure(e)
        case Success(rest) => Success([v] + rest)
  }

  /** A collected list holds, at each position, the value of the specification there. */
  lemma {:induction false} CollectAllAt(keys: seq<KeySpec>, valueOf: KeySpec -> Result<Value>, i: nat)
    requires i < |keys| && CollectAll(keys, valueOf).Success?
    ensures valueOf(keys[i]).Success?
    ensures CollectAll(keys, valueOf).value[i] == valueOf(keys[i]).value
  {
    if i > 0 {
      CollectAllAt(keys[1..], valueOf, i - 1);
      assert keys[1..][i - 1] == keys[i];
    }
  }

  /** The value of one specification with the guarded reading of `f.g`. */
  function GuardedValue(doc: Doc, m: Moment): KeySpec -> Result<Value>
  {
    key => KeyValue(doc, key, m, true)
  }

  /** `getValuesFromDoc`: the same values in an array, with the guarded reading of `f.g`; the first throw wins. */
  function GetValuesFromDoc(doc: Doc, keys: seq<KeySpec>, m: Moment): (r: Result<seq<Value>>)
    ensures r.Success? ==> |r.value| == |keys|
  {
    CollectAll(keys, GuardedValue(doc, m))
  }

  /** Position `i` of the array is the value of specification `i`. */
  lemma GetValuesAt(doc: Doc, keys: seq<KeySpec>, m: Moment, i: nat)
    requires i < |keys| && GetValuesFromDoc(doc, keys, m).Success?
    ensures KeyValue(doc, keys[i], m, true).Success?
    ensures GetValuesFromDoc(doc, keys, m).value[i] == KeyValue(doc, keys[i], m, true).value
  {
    CollectAllAt(keys, GuardedValue(doc, m), i);
  }

  /**
   * The array row and the object row agree column by column, except for a
   * `f.g` column whose parent `doc[f]` is falsy.
   */
  lemma RowsAgree(doc: Doc, keys1: seq<string>, keys2: seq<KeySpec>, m: Moment, i: nat)
    requires i < |keys1| && i < |keys2| && MapKeys(doc, keys1, keys2, m, |keys1|).Success?
    requires forall j :: i < j < |keys1| ==> keys1[j] != keys1[i]
    requires GetValuesFromDoc(doc, keys2, m).Success?
    requires !(keys2[i].Path? && '.' in keys2[i].spec)
    ensures keys1[i] in MapKeys(doc, keys1, keys2, m, |keys1|).value
    ensures GetValuesFromDoc(doc, keys2, m).value[i] == MapKeys(doc, keys1, keys2, m, |keys1|).value[keys1[i]]
  {
    MapKeysValue(doc, keys1, keys2, m, |keys1|, i);
    GetValuesAt(doc, keys2, m, i);
    NestedReadings(doc, keys2[i], m);
  }
}
