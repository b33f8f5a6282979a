/**
 * Shared vocabulary of the model: an Option type and the JavaScript string
 * operations the application relies on (lower-casing, `includes`,
 * whitespace regexes, `trim`, `split`, `join`, `replace` with a string
 * pattern, and decimal rendering of integers).
 */
module Base {

  datatype Option<T> = None | Some(value: T)

  /** A sequence is what comes before position `i`, the element there, and what comes after. */
  lemma SplitAround<T>(s: seq<T>, i: nat)
    requires i < |s|
    ensures s[..i + 1] == s[..i] + [s[i]]
    ensures s == s[..i] + [s[i]] + s[i + 1..]
  {
  }

  /** Indexing into the middle part of a three-part concatenation. */
  lemma ConcatAt<T>(a: seq<T>, b: seq<T>, c: seq<T>, j: nat)
    requires j < |b|
    ensures |a| + j < |a + b + c| && (a + b + c)[|a| + j] == b[j]
  {
  }

  /** The outcome of code that may throw: a value, or the exception's message. */
  datatype Result<T> = Success(value: T) | Failure(error: string)

  // ---------------------------------------------------------------- characters

  /** The characters matched by the regular-expression class `\s` and removed by `trim()`. */
  predicate IsSpace(c: char)
  {
    c == ' ' || 9 <= c as int <= 13 || c as int == 0xA0 || c as int == 0x1680
    || 0x2000 <= c as int <= 0x200A || c as int == 0x2028 || c as int == 0x2029
    || c as int == 0x202F || c as int == 0x205F || c as int == 0x3000 || c as int == 0xFEFF
  }

  predicate IsDigit(c: char)
  {
    '0' <= c <= '9'
  }

  /** Characters matched by `\w`: the side of a word boundary `\b`. */
  predicate IsWordChar(c: char)
  {
    IsDigit(c) || 'a' <= c <= 'z' || 'A' <= c <= 'Z' || c == '_'
  }

  function LowerChar(c: char): (r: char)
    ensures !('A' <= r <= 'Z')
    ensures IsSpace(r) <==> IsSpace(c)
    ensures IsDigit(r) <==> IsDigit(c)
  {
    if 'A' <= c <= 'Z' then (c as int + 32) as char else c
  }

  /** `toLowerCase()` on the ASCII letters. */
  function Lower(s: string): (r: string)
    ensures |r| == |s|
    ensures forall i :: 0 <= i < |s| ==> r[i] == LowerChar(s[i])
  {
    if s == [] then [] else [LowerChar(s[0])] + Lower(s[1..])
  }

  lemma LowerIdempotent(s: string)
    ensures Lower(Lower(s)) == Lower(s)
  {
  }

  lemma LowerAppend(a: string, b: string)
    ensures Lower(a + b) == Lower(a) + Lower(b)
  {
  }

  predicate AllDigits(s: string)
  {
    forall i :: 0 <= i < |s| ==> IsDigit(s[i])
  }

  predicate NoSpace(s: string)
  {
    forall i :: 0 <= i < |s| ==> !IsSpace(s[i])
  }

  // ---------------------------------------------------------------- substrings

  predicate IsPrefix(p: string, s: string)
  {
    |p| <= |s| && s[..|p|] == p
  }

  /** `hay.includes(needle)`. */
  predicate Contains(hay: string, needle: string)
  {
    exists i | 0 <= i <= |hay| - |needle| :: IsPrefix(needle, hay[i..])
  }

  lemma ContainsAt(hay: string, needle: string, i: nat)
    requires i + |needle| <= |hay| && hay[i..i + |needle|] == needle
    ensures Contains(hay, needle)
  {
    assert IsPrefix(needle, hay[i..]);
  }

  lemma ContainsEmpty(hay: string)
    ensures Contains(hay, "")
  {
    assert IsPrefix("", hay[0..]);
  }

  /** A substring of a part is a substring of any concatenation holding that part. */
  lemma ContainsInfix(a: string, b: string, c: string, needle: string)
    requires Contains(b, needle)
    ensures Contains(a + b + c, needle)
  {
    var i :| 0 <= i <= |b| - |needle| && IsPrefix(needle, b[i..]);
    assert (a + b + c)[|a| + i..|a| + i + |needle|] == b[i..i + |needle|];
    ContainsAt(a + b + c, needle, |a| + i);
  }

  /** A substring of the front is a substring of the whole. */
  lemma ContainsLeft(a: string, b: string, needle: string)
    requires Contains(a, needle)
    ensures Contains(a + b, needle)
  {
    var i :| 0 <= i <= |a| - |needle| && IsPrefix(needle, a[i..]);
    assert (a + b)[i..i + |needle|] == a[i..i + |needle|];
    ContainsAt(a + b, needle, i);
  }

  /** A substring of the back is a substring of the whole. */
  lemma ContainsRight(a: string, b: string, needle: string)
    requires Contains(b, needle)
    ensures Contains(a + b, needle)
  {
    var i :| 0 <= i <= |b| - |needle| && IsPrefix(needle, b[i..]);
    assert (a + b)[|a| + i..|a| + i + |needle|] == b[i..i + |needle|];
    ContainsAt(a + b, needle, |a| + i);
  }

  /** Index of the first occurrence of `pat` in `s` at or after `from`. */
  function IndexFrom(s: string, pat: string, from: nat): (r: Option<nat>)
    requires from <= |s|
    ensures r.Some? ==> from <= r.value && r.value + |pat| <= |s| && IsPrefix(pat, s[r.value..])
    ensures r.Some? ==> forall j :: from <= j < r.value ==> !IsPrefix(pat, s[j..])
    ensures r.None? ==> forall j :: from <= j <= |s| - |pat| ==> !IsPrefix(pat, s[j..])
    decreases |s| - from
  {
    if from + |pat| > |s| then None
    else if IsPrefix(pat, s[from..]) then Some(from)
    else IndexFrom(s, pat, from + 1)
  }

  /** `s.indexOf(pat)`, with `None` for -1. */
  function IndexOf(s: string, pat: string): (r: Option<nat>)
    ensures r.Some? <==> Contains(s, pat)
    ensures r.Some? ==> r.value + |pat| <= |s| && s[r.value..r.value + |pat|] == pat
    ensures r.Some? ==> forall j :: 0 <= j < r.value ==> !IsPrefix(pat, s[j..])
  {
    IndexFrom(s, pat, 0)
  }

  /** `s.replace(pat, rep)` with a string pattern: only the first occurrence is replaced. */
  function ReplaceFirst(s: string, pat: string, rep: string): (r: string)
    ensures !Contains(s, pat) ==> r == s
    ensures Contains(s, pat) ==> |r| == |s| - |pat| + |rep|
  {
    match IndexOf(s, pat)
    case None => s
    case Some(i) => s[..i] + rep + s[i + |pat|..]
  }

  // ---------------------------------------------------------------- whitespace

  /** Drops the leading run of whitespace (`trimStart()`). */
  function DropSpaces(s: string): (r: string)
    ensures |r| <= |s| && r == s[|s| - |r|..]
    ensures r == [] || !IsSpace(r[0])
    ensures forall i :: 0 <= i < |s| - |r| ==> IsSpace(s[i])
  {
    if s != [] && IsSpace(s[0]) then DropSpaces(s[1..]) else s
  }

  /** Drops the trailing run of whitespace (`trimEnd()`). */
  function DropTrailingSpaces(s: string): (r: string)
    ensures |r| <= |s| && r == s[..|r|]
    ensures r == [] || !IsSpace(r[|r| - 1])
    ensures forall i :: |r| <= i < |s| ==> IsSpace(s[i])
  {
    if s != [] && IsSpace(s[|s| - 1]) then DropTrailingSpaces(s[..|s| - 1]) else s
  }

  /** `trim()`. */
  function Trim(s: string): (r: string)
    ensures r == [] || (!IsSpace(r[0]) && !IsSpace(r[|r| - 1]))
  {
    DropTrailingSpaces(DropSpaces(s))
  }

  /** Trimming only removes characters. */
  lemma TrimChars(s: string)
    ensures forall c :: c in Trim(s) ==> c in s
  {
    var d := DropSpaces(s);
    var t := Trim(s);
    forall c | c in t
      ensures c in s
    {
      var i :| 0 <= i < |t| && t[i] == c;
      assert t[i] == d[i] == s[|s| - |d| + i];
    }
  }

  lemma TrimEmptyIffBlank(s: string)
    ensures Trim(s) == [] <==> forall i :: 0 <= i < |s| ==> IsSpace(s[i])
  {
    var d := DropSpaces(s);
    if d != [] {
      assert !IsSpace(d[0]);
      assert !IsSpace(s[|s| - |d|]);
    }
  }

  lemma TrimNoSpace(s: string)
    requires NoSpace(s)
    ensures Trim(s) == s
  {
  }

  /** `s.replace(/\s+/g, "")` and `s.replace(/\s/g, "")`: every whitespace character removed. */
  function StripSpaces(s: string): (r: string)
    ensures NoSpace(r) && |r| <= |s|
  {
    if s == [] then []
    else if IsSpace(s[0]) then StripSpaces(s[1..])
    else [s[0]] + StripSpaces(s[1..])
  }

  lemma StripSpacesOfNoSpace(s: string)
    requires NoSpace(s)
    ensures StripSpaces(s) == s
  {
    if s != [] {
      StripSpacesOfNoSpace(s[1..]);
    }
  }

  lemma {:induction false} StripBlank(s: string)
    requires forall i :: 0 <= i < |s| ==> IsSpace(s[i])
    ensures StripSpaces(s) == []
  {
    if s != [] {
      StripBlank(s[1..]);
    }
  }

  /** A whitespace-free needle found in `s` is still found once all whitespace is removed. */
  lemma ContainsStripped(s: string, needle: string)
    requires NoSpace(needle) && Contains(s, needle)
    ensures Contains(StripSpaces(s), needle)
  {
    var i :| 0 <= i <= |s| - |needle| && IsPrefix(needle, s[i..]);
    var a, c := s[..i], s[i + |needle|..];
    assert s[i..i + |needle|] == needle;
    assert s == a + needle + c;
    StripSpacesAppend(a + needle, c);
    StripSpacesAppend(a, needle);
    StripSpacesOfNoSpace(needle);
    ContainsAt(needle, needle, 0);
    ContainsInfix(StripSpaces(a), needle, StripSpaces(c), needle);
  }

  lemma {:induction false} StripSpacesAppend(a: string, b: string)
    ensures StripSpaces(a + b) == StripSpaces(a) + StripSpaces(b)
  {
    if a != [] {
      var ab := a + b;
      assert ab[0] == a[0] && ab[1..] == a[1..] + b;
      StripSpacesAppend(a[1..], b);
      if !IsSpace(a[0]) {
        assert StripSpaces(ab) == [a[0]] + StripSpaces(a[1..] + b);
      }
    } else {
      assert a + b == b;
    }
  }

  /** `s.replace(/\s+/g, " ")`: every maximal run of whitespace becomes one space. */
  function CollapseSpaces(s: string): (r: string)
    ensures |r| <= |s|
    decreases |s|
  {
    if s == [] then []
    else if IsSpace(s[0]) then [' '] + CollapseSpaces(DropSpaces(s[1..]))
    else [s[0]] + CollapseSpaces(s[1..])
  }

  /** No two whitespace characters in a row, and the only whitespace is the plain space. */
  predicate SingleSpaced(s: string)
  {
    (forall i :: 0 <= i < |s| && IsSpace(s[i]) ==> s[i] == ' ')
    && forall i :: 0 <= i < |s| - 1 ==> !(IsSpace(s[i]) && IsSpace(s[i + 1]))
  }

  lemma {:induction false} CollapseSpacesSingleSpaced(s: string)
    ensures SingleSpaced(CollapseSpaces(s))
    ensures CollapseSpaces(s) != [] && IsSpace(CollapseSpaces(s)[0]) ==> s != [] && IsSpace(s[0])
    decreases |s|
  {
    if s == [] {
    } else if IsSpace(s[0]) {
      var t := DropSpaces(s[1..]);
      CollapseSpacesSingleSpaced(t);
      var r := CollapseSpaces(t);
      assert r != [] ==> !IsSpace(r[0]);
      assert CollapseSpaces(s) == [' '] + r;
    } else {
      CollapseSpacesSingleSpaced(s[1..]);
      assert CollapseSpaces(s) == [s[0]] + CollapseSpaces(s[1..]);
    }
  }

  /** A leading whitespace-free part passes through the collapsing unchanged. */
  lemma {:induction false} CollapsePrefix(w: string, rest: string)
    requires NoSpace(w)
    ensures CollapseSpaces(w + rest) == w + CollapseSpaces(rest)
  {
    if w != [] {
      assert (w + rest)[0] == w[0] && (w + rest)[1..] == w[1..] + rest;
      CollapsePrefix(w[1..], rest);
    } else {
      assert w + rest == rest;
    }
  }

  /** A whitespace-free word at the start survives the collapsing. */
  lemma CollapseKeepsLeadingWord(s: string, needle: string)
    requires NoSpace(needle) && IsPrefix(needle, s)
    ensures Contains(CollapseSpaces(s), needle)
  {
    var rest := s[|needle|..];
    assert s == needle + rest;
    CollapsePrefix(needle, rest);
    var c := needle + CollapseSpaces(rest);
    assert c[0..|needle|] == needle;
    ContainsAt(c, needle, 0);
  }

  /** A non-empty word starting after a leading whitespace run starts within what follows the run. */
  lemma ContainsAfterSpaces(s: string, needle: string, i: nat)
    requires s != [] && needle != [] && !IsSpace(needle[0])
    requires 0 < i <= |s| - |needle| && IsPrefix(needle, s[i..])
    ensures Contains(DropSpaces(s[1..]), needle)
  {
    var t := DropSpaces(s[1..]);
    var d := |s| - 1 - |t|;
    assert s[i] == needle[0];
    assert i >= 1 + d;
    assert t[i - 1 - d..] == s[i..];
  }

  /** A word found past the first character is found in the tail. */
  lemma ContainsInTail(s: string, needle: string, i: nat)
    requires 0 < i <= |s| - |needle| && IsPrefix(needle, s[i..])
    ensures Contains(s[1..], needle)
  {
    assert s[1..][i - 1..] == s[i..];
  }

  /** A whitespace-free substring is still a substring once the whitespace runs are collapsed. */
  lemma {:induction false} CollapseKeepsWord(s: string, needle: string)
    requires NoSpace(needle) && Contains(s, needle)
    ensures Contains(CollapseSpaces(s), needle)
    decreases |s|
  {
    if needle == [] {
      ContainsEmpty(CollapseSpaces(s));
    } else if IsPrefix(needle, s) {
      CollapseKeepsLeadingWord(s, needle);
    } else {
      var i :| 0 <= i <= |s| - |needle| && IsPrefix(needle, s[i..]);
      assert i > 0 by { assert s[0..] == s; }
      if IsSpace(s[0]) {
        var t := DropSpaces(s[1..]);
        ContainsAfterSpaces(s, needle, i);
        CollapseKeepsWord(t, needle);
        ContainsRight([' '], CollapseSpaces(t), needle);
      } else {
        ContainsInTail(s, needle, i);
        CollapseKeepsWord(s[1..], needle);
        ContainsRight([s[0]], CollapseSpaces(s[1..]), needle);
      }
    }
  }

  /** Removing all whitespace gives the same text before and after collapsing. */
  lemma {:induction false} StripCollapse(s: string)
    ensures StripSpaces(CollapseSpaces(s)) == StripSpaces(s)
    decreases |s|
  {
    if s == [] {
    } else if IsSpace(s[0]) {
      var t := DropSpaces(s[1..]);
      StripCollapse(t);
      StripDropSpaces(s[1..]);
    } else {
      StripCollapse(s[1..]);
    }
  }

  lemma {:induction false} StripDropSpaces(s: string)
    ensures StripSpaces(DropSpaces(s)) == StripSpaces(s)
  {
    if s != [] && IsSpace(s[0]) {
      StripDropSpaces(s[1..]);
    }
  }

  /** The maximal leading run of non-whitespace characters. */
  function TakeWord(s: string): (w: string)
    ensures IsPrefix(w, s) && NoSpace(w)
    ensures |w| == |s| || IsSpace(s[|w|])
    ensures s != [] && !IsSpace(s[0]) ==> w != []
  {
    if s == [] || IsSpace(s[0]) then [] else [s[0]] + TakeWord(s[1..])
  }

  /** `s.split(/\s+/).filter(Boolean)`: the maximal non-empty runs of non-whitespace, in order. */
  function Words(s: string): (ws: seq<string>)
    ensures forall k :: 0 <= k < |ws| ==> ws[k] != [] && NoSpace(ws[k])
    decreases |s|
  {
    if s == [] then []
    else if IsSpace(s[0]) then Words(s[1..])
    else
      var w := TakeWord(s);
      [w] + Words(s[|w|..])
  }

  lemma {:induction false} WordsOfBlank(s: string)
    requires forall i :: 0 <= i < |s| ==> IsSpace(s[i])
    ensures Words(s) == []
  {
    if s != [] {
      WordsOfBlank(s[1..]);
    }
  }

  // ---------------------------------------------------------------- split / join

  /** `s.split(sep)` for a one-character separator; `Split("", sep) == [""]`. */
  function Split(s: string, sep: char): (parts: seq<string>)
    ensures |parts| >= 1
    ensures forall k :: 0 <= k < |parts| ==> sep !in parts[k]
    decreases |s|
  {
    if s == [] then [""]
    else if s[0] == sep then [""] + Split(s[1..], sep)
    else
      var rest := Split(s[1..], sep);
      [[s[0]] + rest[0]] + rest[1..]
  }

  /** `parts.join(sep)`. */
  function Join(parts: seq<string>, sep: string): (s: string)
  {
    if parts == [] then ""
    else if |parts| == 1 then parts[0]
    else parts[0] + sep + Join(parts[1..], sep)
  }

  /** A substring of one part of a space-joined list survives in the joined text. */
  lemma {:induction false} JoinContains(parts: seq<string>, k: nat, needle: string)
    requires k < |parts| && Contains(parts[k], needle)
    ensures Contains(Join(parts, " "), needle)
  {
    if |parts| > 1 {
      var rest := Join(parts[1..], " ");
      assert Join(parts, " ") == parts[0] + (" " + rest);
      if k == 0 {
        ContainsLeft(parts[0], " " + rest, needle);
      } else {
        JoinContains(parts[1..], k - 1, needle);
        ContainsRight(" ", rest, needle);
        ContainsRight(parts[0], " " + rest, needle);
      }
    }
  }

  /** Without whitespace, a space-joined list is its first part run together with the rest. */
  lemma StripJoinFirst(parts: seq<string>)
    requires |parts| > 1
    ensures StripSpaces(Join(parts, " ")) == StripSpaces(parts[0]) + StripSpaces(Join(parts[1..], " "))
  {
    var rest := Join(parts[1..], " ");
    assert Join(parts, " ") == parts[0] + " " + rest;
    StripSpacesAppend(parts[0] + " ", rest);
    StripSpacesAppend(parts[0], " ");
    assert StripSpaces(" ") == [];
    assert StripSpaces(parts[0]) + [] == StripSpaces(parts[0]);
  }

  /** Once all whitespace is removed, a space-joined list is the parts with their whitespace removed, run together. */
  lemma {:induction false} StripJoinContains(parts: seq<string>, k: nat, needle: string)
    requires k < |parts| && Contains(StripSpaces(parts[k]), needle)
    ensures Contains(StripSpaces(Join(parts, " ")), needle)
  {
    if |parts| > 1 {
      StripJoinFirst(parts);
      var a, b := StripSpaces(parts[0]), StripSpaces(Join(parts[1..], " "));
      if k == 0 {
        ContainsLeft(a, b, needle);
      } else {
        StripJoinContains(parts[1..], k - 1, needle);
        ContainsRight(a, b, needle);
      }
    }
  }

  /** Splitting a joined path gives back its parts when no part holds the separator. */
  lemma {:induction false} SplitJoin(parts: seq<string>, sep: char)
    requires |parts| >= 1
    requires forall k :: 0 <= k < |parts| ==> sep !in parts[k]
    ensures Split(Join(parts, [sep]), sep) == parts
    decreases |parts|, |parts[0]|
  {
    var p := parts[0];
    if p == [] {
      if |parts| == 1 {
      } else {
        assert Join(parts, [sep]) == [sep] + Join(parts[1..], [sep]);
        SplitJoin(parts[1..], sep);
      }
    } else {
      var parts' := [p[1..]] + parts[1..];
      assert forall k :: 0 <= k < |parts'| ==> sep !in parts'[k] by {
        assert forall c :: c in p[1..] ==> c in p;
      }
      SplitJoin(parts', sep);
      assert Join(parts, [sep]) == [p[0]] + Join(parts', [sep]);
      assert p[0] != sep;
      assert [p[0]] + p[1..] == p;
    }
  }

  /** Joining the parts of a split gives back the string. */
  lemma {:induction false} JoinSplit(s: string, sep: char)
    ensures Join(Split(s, sep), [sep]) == s
    decreases |s|
  {
    if s == [] {
    } else if s[0] == sep {
      JoinSplit(s[1..], sep);
    } else {
      JoinSplit(s[1..], sep);
      var rest := Split(s[1..], sep);
      if |rest| > 1 {
        assert Join(rest, [sep]) == rest[0] + [sep] + Join(rest[1..], [sep]);
      }
    }
  }

  /** A string holding the separator splits into at least two parts. */
  lemma SplitAtSeparator(s: string, sep: char)
    requires sep in s
    ensures |Split(s, sep)| >= 2
  {
    JoinSplit(s, sep);
  }

  // ---------------------------------------------------------------- numbers as text

  function DigitChar(d: nat): (c: char)
    requires d < 10
    ensures IsDigit(c)
  {
    ['0', '1', '2', '3', '4', '5', '6', '7', '8', '9'][d]
  }

  /** Decimal rendering of a natural number (`String(n)`, `${n}`). */
  function NatToString(n: nat): (s: string)
    ensures s != [] && AllDigits(s)
    ensures |s| == 1 <==> n < 10
  {
    if n < 10 then [DigitChar(n)] else NatToString(n / 10) + [DigitChar(n % 10)]
  }

  /** Different numbers have different decimal renderings. */
  lemma {:induction false} NatToStringInjective(a: nat, b: nat)
    requires NatToString(a) == NatToString(b)
    ensures a == b
  {
    if a >= 10 && b >= 10 {
      var sa, sb := NatToString(a), NatToString(b);
      assert sa[..|sa| - 1] == NatToString(a / 10);
      assert sb[..|sb| - 1] == NatToString(b / 10);
      NatToStringInjective(a / 10, b / 10);
      assert DigitChar(a % 10) == sa[|sa| - 1] == DigitChar(b % 10);
    }
  }

  /** `String(i)` for an integer. */
  function IntToString(i: int): (s: string)
    ensures s != []
  {
    if i < 0 then "-" + NatToString(-i) else NatToString(i)
  }

  // ---------------------------------------------------------------- string order

  /** JavaScript's `<` on two strings: lexicographic order of the characters. */
  predicate StrLess(a: string, b: string)
  {
    if a == [] then b != []
    else if b == [] then false
    else if a[0] != b[0] then a[0] < b[0]
    else StrLess(a[1..], b[1..])
  }

  lemma {:induction false} StrLessIrreflexive(a: string)
    ensures !StrLess(a, a)
  {
    if a != [] {
      StrLessIrreflexive(a[1..]);
    }
  }

  lemma {:induction false} StrLessTrichotomy(a: string, b: string)
    ensures StrLess(a, b) || StrLess(b, a) || a == b
    ensures !(StrLess(a, b) && StrLess(b, a))
  {
    if a != [] && b != [] && a[0] == b[0] {
      StrLessTrichotomy(a[1..], b[1..]);
      if a[1..] == b[1..] {
        assert a == [a[0]] + a[1..] && b == [b[0]] + b[1..];
      }
    }
  }

  lemma {:induction false} StrLessTransitive(a: string, b: string, c: string)
    requires StrLess(a, b) && StrLess(b, c)
    ensures StrLess(a, c)
  {
    if a != [] && b != [] && c != [] && a[0] == b[0] && b[0] == c[0] {
      StrLessTransitive(a[1..], b[1..], c[1..]);
    }
  }

  // ---------------------------------------------------------------- filter

  /** `s.filter(p)`: the elements satisfying `p`, in their original order. */
  function Filter<T(!new)>(s: seq<T>, p: T -> bool): (r: seq<T>)
    ensures |r| <= |s|
    ensures forall x :: x in r <==> x in s && p(x)
  {
    if s == [] then [] else (if p(s[0]) then [s[0]] else []) + Filter(s[1..], p)
  }

  /** Filtering distributes over concatenation, so the relative order of kept elements is preserved. */
  lemma {:induction false} FilterAppend<T(!new)>(a: seq<T>, b: seq<T>, p: T -> bool)
    ensures Filter(a + b, p) == Filter(a, p) + Filter(b, p)
  {
    if a != [] {
      var head := if p(a[0]) then [a[0]] else [];
      assert (a + b)[0] == a[0] && (a + b)[1..] == a[1..] + b;
      calc {
        Filter(a + b, p);
        head + Filter(a[1..] + b, p);
      == { FilterAppend(a[1..], b, p); }
        head + (Filter(a[1..], p) + Filter(b, p));
        (head + Filter(a[1..], p)) + Filter(b, p);
        Filter(a, p) + Filter(b, p);
      }
    } else {
      assert a + b == b;
    }
  }

  lemma {:induction false} FilterKeepsAll<T(!new)>(s: seq<T>, p: T -> bool)
    requires forall x :: x in s ==> p(x)
    ensures Filter(s, p) == s
  {
    if s != [] {
      FilterKeepsAll(s[1..], p);
    }
  }

  lemma FilterIdempotent<T(!new)>(s: seq<T>, p: T -> bool)
    ensures Filter(Filter(s, p), p) == Filter(s, p)
  {
    FilterKeepsAll(Filter(s, p), p);
  }

  lemma {:induction false} FilterMultiset<T(!new)>(s: seq<T>, p: T -> bool)
    ensures multiset(Filter(s, p)) <= multiset(s)
  {
    if s != [] {
      FilterMultiset(s[1..], p);
      assert s == [s[0]] + s[1..];
    }
  }

  /** Filtering by `p` and then by `q` keeps what satisfies both, in order. */
  lemma {:induction false} FilterCompose<T(!new)>(s: seq<T>, p: T -> bool, q: T -> bool, pq: T -> bool)
    requires forall x :: x in s ==> pq(x) == (p(x) && q(x))
    ensures Filter(Filter(s, p), q) == Filter(s, pq)
  {
    if s != [] {
      FilterCompose(s[1..], p, q, pq);
      assert Filter(s, p) == (if p(s[0]) then [s[0]] else []) + Filter(s[1..], p);
      FilterAppend(if p(s[0]) then [s[0]] else [], Filter(s[1..], p), q);
    }
  }

  /** Filters that agree on the elements give the same result. */
  lemma {:induction false} FilterExt<T(!new)>(s: seq<T>, p: T -> bool, q: T -> bool)
    requires forall x :: x in s ==> p(x) == q(x)
    ensures Filter(s, p) == Filter(s, q)
  {
    if s != [] {
      FilterExt(s[1..], p, q);
    }
  }

  /** The elements kept and the elements dropped together are the original multiset. */
  lemma {:induction false} FilterPartition<T(!new)>(s: seq<T>, p: T -> bool, notP: T -> bool)
    requires forall x :: x in s ==> notP(x) == !p(x)
    ensures multiset(Filter(s, p)) + multiset(Filter(s, notP)) == multiset(s)
  {
    if s != [] {
      var x, t := s[0], s[1..];
      assert s == [x] + t;
      FilterPartition(t, p, notP);
      var kept, dropped := Filter(t, p), Filter(t, notP);
      if p(x) {
        assert Filter(s, p) == [x] + kept && Filter(s, notP) == dropped;
      } else {
        assert Filter(s, p) == kept && Filter(s, notP) == [x] + dropped;
      }
    }
  }
}
