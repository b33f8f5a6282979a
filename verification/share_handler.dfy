/**
 * The share target: the shared title, text and url are joined into one
 * text, the 15-digit IMEI runs in it are extracted with the global
 * pattern `\b\d{15}\b`, a notification reports how many were found, and
 * "create entry" opens the create form with them.
 */
module ShareHandler {
  import opened Base
  import opened Navigation

  /** The length of an IMEI (3GPP TS 23.003, section 6.2); no check digit is verified. */
  const ImeiLength := 15

  /** `searchParams.get(name) || ""`. */
  function OrEmpty(s: Option<string>): (r: string)
    ensures s.Some? ==> r == s.value
    ensures s.None? ==> r == ""
  {
    if s.None? then "" else s.value
  }

  /** The text searched for IMEIs: title, text and url joined by single spaces, then trimmed. */
  function CombinedText(title: Option<string>, text: Option<string>, url: Option<string>): string
  {
    Trim(OrEmpty(title) + " " + OrEmpty(text) + " " + OrEmpty(url))
  }

  /** `\b\d{15}\b` matches at `i`: fifteen digits, with no word character just before or just after. */
  predicate ImeiAt(s: string, i: nat)
  {
    && i + ImeiLength <= |s|
    && (forall k :: i <= k < i + ImeiLength ==> IsDigit(s[k]))
    && (i == 0 || !IsWordChar(s[i - 1]))
    && (i + ImeiLength == |s| || !IsWordChar(s[i + ImeiLength]))
  }

  /**
   * `s.match(/\b\d{15}\b/g)` from position `i`, with `[]` for no match: a
   * match moves the search past it, a failure moves it on by one.
   */
  function ScanImeis(s: string, i: nat): (r: seq<string>)
    ensures forall k :: 0 <= k < |r| ==> |r[k]| == ImeiLength && AllDigits(r[k])
    decreases |s| - i
  {
    if i + ImeiLength > |s| then []
    else if ImeiAt(s, i) then
      var found := s[i..i + ImeiLength];
      assert forall k :: 0 <= k < |found| ==> IsDigit(found[k]) by {
        forall k | 0 <= k < |found| ensures IsDigit(found[k]) {
          assert found[k] == s[i + k];
        }
      }
      [found] + ScanImeis(s, i + ImeiLength)
    else ScanImeis(s, i + 1)
  }

  /** The reference: every position from `i` on where the pattern matches, in order, with its text. */
  function ImeiRuns(s: string, i: nat): seq<string>
    decreases |s| - i
  {
    if i >= |s| then []
    else (if ImeiAt(s, i) then [s[i..i + ImeiLength]] else []) + ImeiRuns(s, i + 1)
  }

  /** No match starts inside another: the character before such a start is one of the first match's digits. */
  lemma NoMatchInside(s: string, i: nat, j: nat)
    requires ImeiAt(s, i) && i < j < i + ImeiLength
    ensures !ImeiAt(s, j)
  {
    assert IsDigit(s[j - 1]);
  }

  /** Positions inside a match contribute nothing to the reference list. */
  lemma {:induction false} SkipInside(s: string, i: nat, j: nat)
    requires ImeiAt(s, i) && i < j <= i + ImeiLength
    ensures ImeiRuns(s, j) == ImeiRuns(s, i + ImeiLength)
    decreases i + ImeiLength - j
  {
    if j < i + ImeiLength {
      NoMatchInside(s, i, j);
      SkipInside(s, i, j + 1);
    }
  }

  /** Too close to the end for fifteen characters, no position matches. */
  lemma {:induction false} RunsNearEnd(s: string, i: nat)
    requires i + ImeiLength > |s|
    ensures ImeiRuns(s, i) == []
    decreases |s| - i
  {
    if i < |s| {
      RunsNearEnd(s, i + 1);
    }
  }

  /** The global scan finds exactly the matching positions, in order: skipping past a match loses nothing. */
  lemma {:induction false} ScanFindsAllRuns(s: string, i: nat)
    ensures ScanImeis(s, i) == ImeiRuns(s, i)
    decreases |s| - i
  {
    if i + ImeiLength > |s| {
      RunsNearEnd(s, i);
    } else if ImeiAt(s, i) {
      ScanFindsAllRuns(s, i + ImeiLength);
      SkipInside(s, i, i + 1);
    } else {
      ScanFindsAllRuns(s, i + 1);
    }
  }

  /** The reference list holds a text exactly when it is the text of a matching position. */
  lemma {:induction false} RunsSpec(s: string, i: nat, x: string)
    ensures x in ImeiRuns(s, i) <==> exists j :: i <= j && ImeiAt(s, j) && x == s[j..j + ImeiLength]
    decreases |s| - i
  {
    if i < |s| {
      RunsSpec(s, i + 1, x);
      if x in ImeiRuns(s, i + 1) {
        var j :| i + 1 <= j && ImeiAt(s, j) && x == s[j..j + ImeiLength];
      }
      if exists j :: i <= j && ImeiAt(s, j) && x == s[j..j + ImeiLength] {
        var j :| i <= j && ImeiAt(s, j) && x == s[j..j + ImeiLength];
        if j > i {
          assert x in ImeiRuns(s, i + 1);
        }
      }
    }
  }

  /** `combinedText.match(imeiPattern) || []`: the IMEIs found, soundly and completely. */
  function FoundImeis(text: string): (r: seq<string>)
    ensures forall k :: 0 <= k < |r| ==> |r[k]| == ImeiLength && AllDigits(r[k])
  {
    ScanImeis(text, 0)
  }

  /** Every found IMEI is the text of a matching position, and every matching position's text is found. */
  lemma FoundExactly(text: string, x: string)
    ensures x in FoundImeis(text) <==> exists j: nat :: ImeiAt(text, j) && x == text[j..j + ImeiLength]
  {
    ScanFindsAllRuns(text, 0);
    RunsSpec(text, 0, x);
  }

  /** Fifteen digits on their own are one IMEI. */
  lemma FifteenDigits(d: string)
    requires |d| == ImeiLength && AllDigits(d)
    ensures FoundImeis(d) == [d]
  {
    assert ImeiAt(d, 0);
    assert ScanImeis(d, ImeiLength) == [];
    assert d[0..ImeiLength] == d;
  }

  /** Sixteen digits hold no IMEI: no fifteen of them are bounded on both sides. */
  lemma SixteenDigits(d: string)
    requires |d| == ImeiLength + 1 && AllDigits(d)
    ensures FoundImeis(d) == []
  {
    assert !ImeiAt(d, 0) by { assert IsDigit(d[ImeiLength]); }
    assert !ImeiAt(d, 1) by { assert IsDigit(d[0]); }
    assert ScanImeis(d, 2) == [];
    assert ScanImeis(d, 1) == [];
  }

  /** Fifteen digits glued to a letter or underscore on either side hold no IMEI. */
  lemma GluedToWord(d: string, c: char)
    requires |d| == ImeiLength && AllDigits(d) && IsWordChar(c)
    ensures FoundImeis([c] + d) == [] && FoundImeis(d + [c]) == []
  {
    var before, after := [c] + d, d + [c];
    assert !ImeiAt(before, 1) by { assert before[0] == c; }
    if IsDigit(c) {
      assert !ImeiAt(before, 0) by { assert before[ImeiLength] == d[ImeiLength - 1]; }
    } else {
      assert !IsDigit(before[0]);
    }
    assert !ImeiAt(after, 0) by { assert after[ImeiLength] == c; }
    assert !ImeiAt(after, 1) by { assert after[0] == d[0]; }
    assert ScanImeis(before, 2) == [] && ScanImeis(before, 1) == [];
    assert ScanImeis(after, 2) == [] && ScanImeis(after, 1) == [];
  }

  /** What the page stores after processing the shared content. */
  datatype SharedData = SharedData(title: string, text: string, url: string, imeis: seq<string>)

  /** The notification for `n` found IMEIs. */
  function DetectedNotice(n: nat): (r: Notice)
    ensures r.title == "IMEI Detected" && r.color == "green"
  {
    Notice("IMEI Detected", "Found " + NatToString(n) + " IMEI code(s) in shared content", "green")
  }

  /** Processing the share: the stored data, and a notification exactly when at least one IMEI was found. */
  function ProcessShare(title: Option<string>, text: Option<string>, url: Option<string>): (r: (SharedData, Option<Notice>))
    ensures r.0 == SharedData(OrEmpty(title), OrEmpty(text), OrEmpty(url), FoundImeis(CombinedText(title, text, url)))
    ensures r.1.Some? <==> r.0.imeis != []
    ensures r.1.Some? ==> r.1.value == DetectedNotice(|r.0.imeis|)
  {
    var found := FoundImeis(CombinedText(title, text, url));
    var data := SharedData(OrEmpty(title), OrEmpty(text), OrEmpty(url), found);
    (data, if |found| > 0 then Some(DetectedNotice(|found|)) else None)
  }

  /** `handleCreateEntry`: the create form, with the found IMEIs, or [] before anything was processed. */
  function CreateEntry(shared: Option<SharedData>): (r: Route)
    ensures r.path == "/create" && r.notice.None? && r.sharedImeis.Some?
    ensures shared.Some? ==> r.sharedImeis.value == shared.value.imeis
    ensures shared.None? ==> r.sharedImeis.value == []
  {
    Route("/create", Some(if shared.None? then [] else shared.value.imeis), None)
  }

  /** A shared IMEI, alone in the text field, reaches the create form. */
  lemma SharedImeiReachesForm(d: string)
    requires |d| == ImeiLength && AllDigits(d)
    ensures CreateEntry(Some(ProcessShare(None, Some(d), None).0)).sharedImeis == Some([d])
  {
    assert OrEmpty(None) + " " + OrEmpty(Some(d)) + " " + OrEmpty(None) == " " + d + " ";
    TrimPadded(d);
    assert CombinedText(None, Some(d), None) == d;
    FifteenDigits(d);
  }

  /** Single spaces around text with no whitespace are trimmed away. */
  lemma TrimPadded(d: string)
    requires AllDigits(d)
    ensures Trim(" " + d + " ") == d
  {
    var s := " " + d + " ";
    assert s[1..] == d + " ";
    assert forall k :: 0 <= k < |d| ==> !IsSpace(d[k]) by {
      forall k | 0 <= k < |d| ensures !IsSpace(d[k]) { assert IsDigit(d[k]); }
    }
    if d == [] {
      assert DropSpaces(s) == [];
    } else {
      assert DropSpaces(d + " ") == d + " ";
      assert DropSpaces(s) == d + " ";
      assert (d + " ")[..|d|] == d;
      assert DropTrailingSpaces(d + " ") == DropTrailingSpaces(d);
    }
  }
}
