/**
 * The search tokenizer and term matcher shared by the model view and the
 * IMEI view (`parseSearchQuery` and the `every` predicate of
 * `filterModelsBySearch` / `filterImeisBySearch`). Date phrases such as
 * "12 jan 2024" and capacity phrases such as "512 gb" are kept as single
 * terms; the rest of the query is split on whitespace.
 */
module SearchQuery {
  import opened Base

  const Months: seq<string> := ["jan", "feb", "mar", "apr", "may", "jun", "jul", "aug", "sep", "oct", "nov", "dec"]

  /** The end of the run of whitespace starting at `q` (a greedy `\s*`). */
  function SkipSpaces(s: string, q: nat): (r: nat)
    requires q <= |s|
    ensures q <= r <= |s| && (r == |s| || !IsSpace(s[r]))
    ensures forall i :: q <= i < r ==> IsSpace(s[i])
    decreases |s| - q
  {
    if q < |s| && IsSpace(s[q]) then SkipSpaces(s, q + 1) else q
  }

  /** The end of the run of digits starting at `q` (a greedy `\d*`). */
  function SkipDigits(s: string, q: nat): (r: nat)
    requires q <= |s|
    ensures q <= r <= |s| && (r == |s| || !IsDigit(s[r]))
    ensures forall i :: q <= i < r ==> IsDigit(s[i])
    decreases |s| - q
  {
    if q < |s| && IsDigit(s[q]) then SkipDigits(s, q + 1) else q
  }

  predicate MonthAt(s: string, q: nat)
  {
    q + 3 <= |s| && Lower(s[q..q + 3]) in Months
  }

  /** Where `\s+(?:jan|…|dec)(?:\s+\d{4})?` ends when matched at `q`. */
  function DateTail(s: string, q: nat): (r: Option<nat>)
    requires q <= |s|
    ensures r.Some? ==> q < r.value <= |s|
  {
    if q == |s| || !IsSpace(s[q]) then None
    else
      var mon := SkipSpaces(s, q);
      if !MonthAt(s, mon) then None
      else
        var e := mon + 3;
        var y := SkipSpaces(s, e);
        if y > e && y + 4 <= |s| && AllDigits(s[y..y + 4]) then Some(y + 4) else Some(e)
  }

  /** Where the date pattern `\d{1,2}\s+(?:jan|…|dec)(?:\s+\d{4})?` ends when matched at `p`. */
  function DateAt(s: string, p: nat): (r: Option<nat>)
    requires p <= |s|
    ensures r.Some? ==> p < r.value <= |s| && IsDigit(s[p])
  {
    if p < |s| && IsDigit(s[p]) then
      if p + 1 < |s| && IsDigit(s[p + 1]) && DateTail(s, p + 2).Some? then DateTail(s, p + 2)
      else DateTail(s, p + 1)
    else None
  }

  /** `s.match(datePattern)` from position `p` on: the date phrases, left to right, without overlap. */
  function DateMatches(s: string, p: nat): (ms: seq<string>)
    requires p <= |s|
    ensures forall k :: 0 <= k < |ms| ==> ms[k] != [] && IsDigit(ms[k][0])
    decreases |s| - p
  {
    if p == |s| then []
    else match DateAt(s, p)
      case Some(e) => [s[p..e]] + DateMatches(s, e)
      case None => DateMatches(s, p + 1)
  }

  /** Where the capacity pattern `\d+\s*gb` ends when matched at `p`. */
  function VariantAt(s: string, p: nat): (r: Option<nat>)
    requires p <= |s|
    ensures r.Some? ==> p < r.value <= |s|
  {
    if p < |s| && IsDigit(s[p]) then
      var q := SkipDigits(s, p);
      var r := SkipSpaces(s, q);
      if r + 2 <= |s| && Lower(s[r..r + 2]) == "gb" then Some(r + 2) else None
    else None
  }

  /** `s.match(variantPattern)` from position `p` on. */
  function VariantMatches(s: string, p: nat): (ms: seq<string>)
    requires p <= |s|
    decreases |s| - p
  {
    if p == |s| then []
    else match VariantAt(s, p)
      case Some(e) => [s[p..e]] + VariantMatches(s, e)
      case None => VariantMatches(s, p + 1)
  }

  /** `/^\d+gb$/i.test(t)`. */
  predicate IsGbTerm(t: string)
  {
    |t| >= 3 && AllDigits(t[..|t| - 2]) && Lower(t[|t| - 2..]) == "gb"
  }

  /** Each phrase in turn replaced, at its first occurrence, by a space. */
  function RemoveAll(s: string, phrases: seq<string>): string
  {
    if phrases == [] then s
    else ReplaceFirst(RemoveAll(s, phrases[..|phrases| - 1]), phrases[|phrases| - 1], " ")
  }

  /** `date.toLowerCase().replace(/\s+/g, " ")`. */
  function DateTerm(date: string): string
  {
    CollapseSpaces(Lower(date))
  }

  /** `variant.toLowerCase().replace(/\s+/g, "")`. */
  function VariantTerm(variant: string): string
  {
    StripSpaces(Lower(variant))
  }

  /** The term pushed for each phrase, in order. */
  function Terms(phrases: seq<string>, toTerm: string -> string): (ts: seq<string>)
    ensures |ts| == |phrases|
  {
    if phrases == [] then [] else Terms(phrases[..|phrases| - 1], toTerm) + [toTerm(phrases[|phrases| - 1])]
  }

  lemma {:induction false} TermsAt(phrases: seq<string>, toTerm: string -> string, k: nat)
    requires k < |phrases|
    ensures Terms(phrases, toTerm)[k] == toTerm(phrases[k])
    decreases |phrases|
  {
    if k < |phrases| - 1 {
      TermsAt(phrases[..|phrases| - 1], toTerm, k);
    }
  }

  /** The phrases found and the text left for plain words. */
  datatype Scan = Scan(dates: seq<string>, variants: seq<string>, rest: string)

  function ScanQuery(lowerQuery: string): Scan
  {
    var dates := DateMatches(lowerQuery, 0);
    var afterDates := RemoveAll(lowerQuery, dates);
    var variants := VariantMatches(afterDates, 0);
    Scan(dates, variants, RemoveAll(afterDates, variants))
  }

  /** `parseSearchQuery(query)`: date terms, then capacity terms, then the remaining words. */
  function SearchTerms(query: string): seq<string>
  {
    var lowerQuery := Trim(Lower(query));
    if lowerQuery == [] then []
    else
      var scan := ScanQuery(lowerQuery);
      Terms(scan.dates, DateTerm) + Terms(scan.variants, VariantTerm) + Words(scan.rest)
  }

  /** One `forEach` of `parseSearchQuery`: push each phrase's term and cut the phrase out of the query. */
  method CutPhrases(query: string, phrases: seq<string>, toTerm: string -> string)
    returns (terms: seq<string>, processed: string)
    ensures terms == Terms(phrases, toTerm)
    ensures processed == RemoveAll(query, phrases)
  {
    terms := [];
    processed := query;
    for i := 0 to |phrases|
      invariant terms == Terms(phrases[..i], toTerm)
      invariant processed == RemoveAll(query, phrases[..i])
    {
      var next := phrases[..i + 1];
      assert next[..i] == phrases[..i] && next[i] == phrases[i];
      terms := terms + [toTerm(phrases[i])];
      processed := ReplaceFirst(processed, phrases[i], " ");
    }
    assert phrases[..|phrases|] == phrases;
  }

  /** `parseSearchQuery`. */
  method ParseSearchQuery(query: string) returns (terms: seq<string>)
    ensures terms == SearchTerms(query)
  {
    var lowerQuery := Trim(Lower(query));
    if lowerQuery == [] {
      return [];
    }
    var dates := DateMatches(lowerQuery, 0);
    var dateTerms, afterDates := CutPhrases(lowerQuery, dates, DateTerm);
    var variants := VariantMatches(afterDates, 0);
    var variantTerms, processed := CutPhrases(afterDates, variants, VariantTerm);
    assert ScanQuery(lowerQuery) == Scan(dates, variants, processed);
    terms := dateTerms + variantTerms + Words(processed);
  }

  // ---------------------------------------------------------------- properties of the terms

  lemma SearchTermsOf(query: string)
    ensures var l := Trim(Lower(query));
            l != [] ==> SearchTerms(query)
                        == Terms(ScanQuery(l).dates, DateTerm) + Terms(ScanQuery(l).variants, VariantTerm) + Words(ScanQuery(l).rest)
  {
  }

  /** A query of whitespace only yields no terms. */
  lemma BlankQueryHasNoTerms(query: string)
    requires forall i :: 0 <= i < |query| ==> IsSpace(query[i])
    ensures SearchTerms(query) == []
  {
    TrimEmptyIffBlank(Lower(query));
  }

  /** No character of `s` is a decimal digit. */
  predicate DigitFree(s: string)
  {
    forall i :: 0 <= i < |s| ==> !IsDigit(s[i])
  }

  lemma {:induction false} NoDateWithoutDigit(s: string, p: nat)
    requires p <= |s| && DigitFree(s)
    ensures DateMatches(s, p) == [] && VariantMatches(s, p) == []
    decreases |s| - p
  {
    if p < |s| {
      NoDateWithoutDigit(s, p + 1);
    }
  }

  /** Without a digit there is no date or capacity phrase: the terms are the words of the lower-cased query. */
  lemma QueryWithoutDigits(query: string)
    requires DigitFree(query)
    ensures SearchTerms(query) == Words(Trim(Lower(query)))
  {
    var t := Trim(Lower(query));
    NoDigitsTrimmed(query);
    if t == [] {
      WordsOfBlank(t);
    } else {
      ScanWithoutDigits(t);
      SearchTermsOf(query);
    }
  }

  lemma ScanWithoutDigits(t: string)
    requires DigitFree(t)
    ensures Terms(ScanQuery(t).dates, DateTerm) + Terms(ScanQuery(t).variants, VariantTerm) + Words(ScanQuery(t).rest) == Words(t)
  {
    NoDateWithoutDigit(t, 0);
    assert RemoveAll(t, []) == t;
    var d, v := Terms([], DateTerm), Terms([], VariantTerm);
    assert d == [] && v == [];
  }

  lemma NoDigitsTrimmed(query: string)
    requires DigitFree(query)
    ensures DigitFree(Trim(Lower(query)))
  {
    var l := Lower(query);
    var t := Trim(l);
    TrimChars(l);
    forall i | 0 <= i < |t|
      ensures !IsDigit(t[i])
    {
      assert t[i] in l;
      var j :| 0 <= j < |l| && l[j] == t[i];
      assert l[j] == LowerChar(query[j]);
    }
  }

  lemma {:induction false} CollapsedNonEmpty(s: string)
    requires s != [] && !IsSpace(s[0])
    ensures CollapseSpaces(s) != [] && CollapseSpaces(s)[0] == s[0]
  {
  }

  /** Digits, then whitespace, then "gb" in any case: once lower-cased and stripped, a digits + "gb" term. */
  lemma GbPhraseTerm(a: string, b: string, c: string)
    requires a != [] && AllDigits(a) && (forall i :: 0 <= i < |b| ==> IsSpace(b[i])) && Lower(c) == "gb"
    ensures IsGbTerm(StripSpaces(Lower(a + b + c)))
  {
    var la, lc := Lower(a), Lower(c);
    StripDigitsSpaces(a, b, c);
    var t := la + lc;
    assert t[..|t| - 2] == la && t[|t| - 2..] == lc;
    assert AllDigits(la);
    LowerIdempotent(c);
  }

  lemma StripDigitsSpaces(a: string, b: string, c: string)
    requires AllDigits(a) && (forall i :: 0 <= i < |b| ==> IsSpace(b[i])) && Lower(c) == "gb"
    ensures StripSpaces(Lower(a + b + c)) == Lower(a) + Lower(c)
  {
    var la, lb, lc := Lower(a), Lower(b), Lower(c);
    LowerAppend(a + b, c);
    LowerAppend(a, b);
    assert NoSpace(la) by {
      forall i | 0 <= i < |la|
        ensures !IsSpace(la[i])
      {
        assert IsDigit(a[i]);
      }
    }
    assert forall i :: 0 <= i < |lb| ==> IsSpace(lb[i]);
    assert NoSpace(lc);
    StripAroundBlank(la, lb, lc);
  }

  /** Stripping spaces from space-free text around a blank run leaves the two texts joined. */
  lemma StripAroundBlank(x: string, y: string, z: string)
    requires NoSpace(x) && NoSpace(z) && forall i :: 0 <= i < |y| ==> IsSpace(y[i])
    ensures StripSpaces(x + y + z) == x + z
  {
    var xy := x + y;
    StripSpacesAppend(xy, z);
    StripSpacesOfNoSpace(z);
    assert StripSpaces(xy) == x by {
      StripSpacesAppend(x, y);
      StripSpacesOfNoSpace(x);
      StripBlank(y);
      assert x + [] == x;
    }
  }

  /** A capacity phrase becomes a term of the form digits + "gb". */
  lemma VariantTermShape(s: string, p: nat)
    requires p <= |s| && VariantAt(s, p).Some?
    ensures IsGbTerm(StripSpaces(Lower(s[p..VariantAt(s, p).value])))
  {
    var q := SkipDigits(s, p);
    var r := SkipSpaces(s, q);
    var e := r + 2;
    assert VariantAt(s, p).value == e;
    var a, b, c := s[p..q], s[q..r], s[r..e];
    assert s[p..e] == a + b + c;
    GbPhraseTerm(a, b, c);
  }

  lemma {:induction false} VariantMatchesAreGb(s: string, p: nat)
    requires p <= |s|
    ensures forall k :: 0 <= k < |VariantMatches(s, p)| ==> IsGbTerm(StripSpaces(Lower(VariantMatches(s, p)[k])))
    decreases |s| - p
  {
    if p < |s| {
      match VariantAt(s, p)
      case Some(e) =>
        VariantTermShape(s, p);
        VariantMatchesAreGb(s, e);
      case None =>
        VariantMatchesAreGb(s, p + 1);
    }
  }

  /** What a date term looks like: it starts with a digit and its whitespace runs are single spaces. */
  predicate DateShaped(t: string)
  {
    t != [] && IsDigit(t[0]) && SingleSpaced(t)
  }

  lemma DateTermsShape(dates: seq<string>)
    requires forall k :: 0 <= k < |dates| ==> dates[k] != [] && IsDigit(dates[k][0])
    ensures forall k :: 0 <= k < |dates| ==> DateShaped(Terms(dates, DateTerm)[k])
  {
    forall k | 0 <= k < |dates|
      ensures DateShaped(Terms(dates, DateTerm)[k])
    {
      var d := dates[k];
      TermsAt(dates, DateTerm, k);
      assert IsDigit(Lower(d)[0]);
      CollapsedNonEmpty(Lower(d));
      CollapseSpacesSingleSpaced(Lower(d));
    }
  }

  lemma VariantTermsShape(s: string)
    ensures forall k :: 0 <= k < |VariantMatches(s, 0)| ==> IsGbTerm(Terms(VariantMatches(s, 0), VariantTerm)[k])
  {
    var variants := VariantMatches(s, 0);
    VariantMatchesAreGb(s, 0);
    forall k | 0 <= k < |variants|
      ensures IsGbTerm(Terms(variants, VariantTerm)[k])
    {
      TermsAt(variants, VariantTerm, k);
    }
  }

  /**
   * The shape of the terms: date terms start with a digit and are
   * single-spaced, capacity terms are digits + "gb", and the remaining terms
   * are non-empty words without whitespace.
   */
  lemma SearchTermsShape(query: string)
    ensures var l := Trim(Lower(query));
            var terms := SearchTerms(query);
            l != [] ==>
              var nd, nv := |ScanQuery(l).dates|, |ScanQuery(l).variants|;
              && (forall k :: 0 <= k < nd ==> DateShaped(terms[k]))
              && (forall k :: nd <= k < nd + nv ==> IsGbTerm(terms[k]))
              && (forall k :: nd + nv <= k < |terms| ==> terms[k] != [] && NoSpace(terms[k]))
  {
    var l := Trim(Lower(query));
    if l != [] {
      var scan := ScanQuery(l);
      SearchTermsOf(query);
      DateTermsShape(scan.dates);
      VariantTermsShape(RemoveAll(l, scan.dates));
      TermsConcat(Terms(scan.dates, DateTerm), Terms(scan.variants, VariantTerm), Words(scan.rest));
    }
  }

  /** Indexing into the three segments of the term list. */
  lemma TermsConcat(dt: seq<string>, vt: seq<string>, ws: seq<string>)
    ensures var terms := dt + vt + ws;
            && (forall k :: 0 <= k < |dt| ==> terms[k] == dt[k])
            && (forall k :: |dt| <= k < |dt| + |vt| ==> terms[k] == vt[k - |dt|])
            && (forall k :: |dt| + |vt| <= k < |terms| ==> terms[k] == ws[k - |dt| - |vt|])
  {
  }

  // ---------------------------------------------------------------- matching

  /** One term against the combined searchable text of a row. */
  predicate TermMatches(term: string, combined: string)
  {
    var normalized := CollapseSpaces(combined);
    if IsGbTerm(term) then Contains(normalized, term) || Contains(StripSpaces(combined), term)
    else Contains(normalized, term)
  }

  /** `searchTerms.every(term => …)`. */
  predicate AllTermsMatch(terms: seq<string>, combined: string)
  {
    forall k :: 0 <= k < |terms| ==> TermMatches(terms[k], combined)
  }

  /** A digits + "gb" term matches exactly when it occurs in the text with all whitespace removed. */
  lemma GbTermMatchesStripped(term: string, combined: string)
    requires IsGbTerm(term)
    ensures TermMatches(term, combined) <==> Contains(StripSpaces(combined), term)
  {
    var normalized := CollapseSpaces(combined);
    if Contains(normalized, term) {
      assert NoSpace(term) by {
        var n := |term|;
        assert forall i :: 0 <= i < n - 2 ==> term[i] == term[..n - 2][i];
        assert forall i :: n - 2 <= i < n ==> LowerChar(term[i]) == Lower(term[n - 2..])[i - (n - 2)];
      }
      ContainsStripped(normalized, term);
      StripCollapse(combined);
    }
  }

  /** A whitespace-free term found in one of the searchable texts matches their space-joined combination. */
  lemma FieldWordMatches(texts: seq<string>, k: nat, term: string)
    requires k < |texts| && NoSpace(term) && Contains(texts[k], term)
    ensures TermMatches(term, Join(texts, " "))
  {
    JoinContains(texts, k, term);
    CollapseKeepsWord(Join(texts, " "), term);
  }

  /**
   * A digits + "gb" term found in one searchable text once that text's
   * whitespace is removed matches the combination: "512gb" finds "512 GB".
   */
  lemma FieldVariantMatches(texts: seq<string>, k: nat, term: string)
    requires k < |texts| && IsGbTerm(term) && Contains(StripSpaces(texts[k]), term)
    ensures TermMatches(term, Join(texts, " "))
  {
    StripJoinContains(texts, k, term);
    GbTermMatchesStripped(term, Join(texts, " "));
  }
}
