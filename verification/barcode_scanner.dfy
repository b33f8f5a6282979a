/**
 * The barcode scanner dialog: cleaning of scanned and typed codes, the
 * choice of the default camera, the labels of the camera picker, and the
 * dialog's state (scanning, the pending code, the duplicate warning and the
 * codes handed back through `onScan`).
 */
module BarcodeScanner {
  import opened Base

  // ---------------------------------------------------------------- codes

  /**
   * `cleanCode`: every whitespace character removed; a missing value gives
   * "". The `trim()` that follows finds nothing left to remove
   * (`CleanCodeTrimmed`).
   */
  function CleanCode(s: Option<string>): (r: string)
    ensures NoSpace(r)
    ensures s.None? ==> r == ""
    ensures s.Some? ==> |r| <= |s.value|
  {
    match s
    case None => ""
    case Some(t) => StripSpaces(t)
  }

  /** Trimming the cleaned code changes nothing. */
  lemma CleanCodeTrimmed(s: Option<string>)
    ensures Trim(CleanCode(s)) == CleanCode(s)
  {
    TrimNoSpace(CleanCode(s));
  }

  /** A code without whitespace is left as it is. */
  lemma CleanCodeOfClean(t: string)
    requires NoSpace(t)
    ensures CleanCode(Some(t)) == t
  {
    StripSpacesOfNoSpace(t);
  }

  /** Cleaning a cleaned code changes nothing. */
  lemma CleanCodeIdempotent(s: Option<string>)
    ensures CleanCode(Some(CleanCode(s))) == CleanCode(s)
  {
    CleanCodeOfClean(CleanCode(s));
  }

  /** Whitespace typed inside a code does not matter: both spellings clean to the same code. */
  lemma CleanCodeIgnoresSpace(a: string, b: string, c: char)
    requires IsSpace(c)
    ensures CleanCode(Some(a + [c] + b)) == CleanCode(Some(a + b))
  {
    StripBlank([c]);
    StripSpacesAppend(a + [c], b);
    StripSpacesAppend(a, [c]);
    StripSpacesAppend(a, b);
  }

  /** The warning shown for a code the product already has. */
  const DuplicateCodeError := "This code already exists"

  /** A decoded text is taken only when its cleaned form has at least this many characters. */
  const MinDecodedLength := 5

  // ---------------------------------------------------------------- default camera

  datatype Camera = Camera(id: string, labelText: string)

  /** A camera whose lower-cased label mentions "back", "rear" or "environment". */
  predicate IsBackCamera(c: Camera)
  {
    var lower := Lower(c.labelText);
    Contains(lower, "back") || Contains(lower, "rear") || Contains(lower, "environment")
  }

  /** A camera whose lower-cased label mentions neither "ultra" nor "wide". */
  predicate IsMainCamera(c: Camera)
  {
    var lower := Lower(c.labelText);
    !Contains(lower, "ultra") && !Contains(lower, "wide")
  }

  /** `Array.prototype.find`'s index: the first element satisfying `p` (`FindFirstSpec`). */
  function FindFirst<T>(s: seq<T>, p: T -> bool): (r: Option<nat>)
    ensures r.Some? ==> r.value < |s|
  {
    if s == [] then None
    else if p(s[0]) then Some(0)
    else match FindFirst(s[1..], p)
      case None => None
      case Some(k) => Some(k + 1)
  }

  /** `find` returns the first element satisfying `p`, and nothing when none does. */
  lemma {:induction false} FindFirstSpec<T>(s: seq<T>, p: T -> bool)
    ensures var r := FindFirst(s, p);
            && (r.Some? ==> p(s[r.value]) && forall k :: 0 <= k < r.value ==> !p(s[k]))
            && (r.None? ==> forall k :: 0 <= k < |s| ==> !p(s[k]))
  {
    if s != [] && !p(s[0]) {
      FindFirstSpec(s[1..], p);
    }
  }

  /** `cameras.filter(...)` keeping the back cameras, in order (`BackCamerasSpec`). */
  function BackCameras(cameras: seq<Camera>): (r: seq<Camera>)
    ensures forall c :: c in r ==> c in cameras
  {
    if cameras == [] then []
    else (if IsBackCamera(cameras[0]) then [cameras[0]] else []) + BackCameras(cameras[1..])
  }

  /** The back cameras are exactly the cameras whose label says so. */
  lemma {:induction false} BackCamerasSpec(cameras: seq<Camera>)
    ensures forall c :: c in BackCameras(cameras) <==> c in cameras && IsBackCamera(c)
  {
    if cameras != [] {
      BackCamerasSpec(cameras[1..]);
      assert cameras == [cameras[0]] + cameras[1..];
    }
  }

  /** The cameras the default is picked from: the back cameras if there are any, else all of them. */
  function Candidates(cameras: seq<Camera>): (r: seq<Camera>)
    ensures forall c :: c in r ==> c in cameras
    ensures cameras != [] ==> r != []
  {
    var back := BackCameras(cameras);
    if back != [] then back else cameras
  }

  /** The candidates are all back cameras when the list has one, and the whole list otherwise. */
  lemma CandidatesAreBack(cameras: seq<Camera>)
    ensures (exists c :: c in cameras && IsBackCamera(c)) ==> forall c :: c in Candidates(cameras) ==> IsBackCamera(c)
    ensures (forall c :: c in cameras ==> !IsBackCamera(c)) ==> Candidates(cameras) == cameras
  {
    var back := BackCameras(cameras);
    BackCamerasSpec(cameras);
    if back != [] {
      assert back[0] in back;
    }
  }

  /**
   * The camera selected once the cameras are listed: the first candidate
   * that is not an ultra-wide or wide lens, else the first candidate.
   */
  function DefaultCamera(cameras: seq<Camera>): (r: Option<Camera>)
    ensures r.Some? <==> cameras != []
    ensures r.Some? ==> r.value in cameras
  {
    var candidates := Candidates(cameras);
    if cameras == [] then None
    else match FindFirst(candidates, IsMainCamera)
      case Some(k) => Some(candidates[k])
      case None => Some(candidates[0])
  }

  /** The id of the default camera of a non-empty list. */
  function DefaultCameraId(cameras: seq<Camera>): string
    requires cameras != []
  {
    DefaultCamera(cameras).value.id
  }

  /** A back camera is chosen whenever the list has one. */
  lemma DefaultPrefersBack(cameras: seq<Camera>, back: Camera)
    requires back in cameras && IsBackCamera(back)
    ensures DefaultCamera(cameras).Some? && IsBackCamera(DefaultCamera(cameras).value)
  {
    CandidatesAreBack(cameras);
  }

  /**
   * A main lens is chosen whenever a candidate is one, and then it is the
   * first such candidate; otherwise the first candidate is chosen.
   */
  lemma DefaultPrefersMain(cameras: seq<Camera>)
    requires cameras != []
    ensures var d := DefaultCamera(cameras).value;
            var candidates := Candidates(cameras);
            && ((exists c :: c in candidates && IsMainCamera(c)) ==>
                  exists k :: 0 <= k < |candidates| && candidates[k] == d && IsMainCamera(d)
                              && forall j :: 0 <= j < k ==> !IsMainCamera(candidates[j]))
            && (!IsMainCamera(d) ==> d == candidates[0] && forall c :: c in candidates ==> !IsMainCamera(c))
  {
    var candidates := Candidates(cameras);
    FindFirstSpec(candidates, IsMainCamera);
    match FindFirst(candidates, IsMainCamera)
    case Some(k) =>
      assert candidates[k] == DefaultCamera(cameras).value;
    case None =>
  }

  // ---------------------------------------------------------------- camera picker labels

  /** `s.replace(/pat/i, rep)` for a lower-case literal pattern: the first case-insensitive occurrence is replaced. */
  function ReplaceFirstIgnoreCase(s: string, pat: string, rep: string): (r: string)
    ensures !Contains(Lower(s), pat) ==> r == s
    ensures Contains(Lower(s), pat) ==> exists i :: 0 <= i <= |s| - |pat| && Lower(s)[i..i + |pat|] == pat && r == s[..i] + rep + s[i + |pat|..]
  {
    match IndexOf(Lower(s), pat)
    case None => s
    case Some(i) => s[..i] + rep + s[i + |pat|..]
  }

  /** The end of the run of digits that starts at `i`. */
  function DigitRunEnd(s: string, i: nat): (j: nat)
    requires i <= |s|
    ensures i <= j <= |s| && (j == |s| || !IsDigit(s[j]))
    ensures forall k :: i <= k < j ==> IsDigit(s[k])
    decreases |s| - i
  {
    if i < |s| && IsDigit(s[i]) then DigitRunEnd(s, i + 1) else i
  }

  /** The end of the run of whitespace that starts at `i`. */
  function SpaceRunEnd(s: string, i: nat): (j: nat)
    requires i <= |s|
    ensures i <= j <= |s| && (j == |s| || !IsSpace(s[j]))
    ensures forall k :: i <= k < j ==> IsSpace(s[k])
    decreases |s| - i
  {
    if i < |s| && IsSpace(s[i]) then SpaceRunEnd(s, i + 1) else i
  }

  /** The end of a match of `\d+,\s*\d+` starting at `i`, if there is one (greedy runs, as the regular expression takes them). */
  function DigitPairAt(s: string, i: nat): (r: Option<nat>)
    requires i <= |s|
    ensures r.Some? ==> i < r.value <= |s| && ',' in s[i..r.value]
  {
    var j := DigitRunEnd(s, i);
    if j == i || j == |s| || s[j] != ',' then None
    else
      var k := SpaceRunEnd(s, j + 1);
      var l := DigitRunEnd(s, k);
      if l == k then None else assert s[i..l][j - i] == ','; Some(l)
  }

  /** `s.replace(/\d+,\s*\d+/g, "")`, scanning from `i`: every match is dropped, left to right. */
  function RemoveDigitPairs(s: string, i: nat): (r: string)
    requires i <= |s|
    ensures |r| <= |s| - i
    ensures ',' !in s[i..] ==> r == s[i..]
    decreases |s| - i
  {
    if i == |s| then []
    else match DigitPairAt(s, i)
      case Some(l) => RemoveDigitPairs(s, l)
      case None =>
        assert s[i..] == [s[i]] + s[i + 1..];
        [s[i]] + RemoveDigitPairs(s, i + 1)
  }

  /** The end of a match of `\(\s*\)` starting at `i`, if there is one. */
  function EmptyParensAt(s: string, i: nat): (r: Option<nat>)
    requires i < |s|
    ensures r.Some? ==> i < r.value <= |s| && s[i] == '('
  {
    if s[i] != '(' then None
    else
      var k := SpaceRunEnd(s, i + 1);
      if k < |s| && s[k] == ')' then Some(k + 1) else None
  }

  /** `s.replace(/\(\s*\)/g, "")`, scanning from `i`. */
  function RemoveEmptyParens(s: string, i: nat): (r: string)
    requires i <= |s|
    ensures |r| <= |s| - i
    ensures '(' !in s[i..] ==> r == s[i..]
    decreases |s| - i
  {
    if i == |s| then []
    else match EmptyParensAt(s, i)
      case Some(l) => RemoveEmptyParens(s, l)
      case None =>
        assert s[i..] == [s[i]] + s[i + 1..];
        [s[i]] + RemoveEmptyParens(s, i + 1)
  }

  /** The shortening applied to a camera label: "facing back" and "facing front" become "Back" and "Front", "camera2", digit pairs and empty parentheses go, and the result is trimmed. */
  function ShortenLabel(text: string): string
  {
    var a := ReplaceFirstIgnoreCase(text, "facing back", "Back");
    var b := ReplaceFirstIgnoreCase(a, "facing front", "Front");
    var c := ReplaceFirstIgnoreCase(b, "camera2", "");
    var d := RemoveDigitPairs(c, 0);
    var e := RemoveEmptyParens(d, 0);
    Trim(e)
  }

  /** The label used for camera `index` (counted from 0) when it has none: "Camera <index + 1>". */
  function FallbackLabel(index: nat): (r: string)
    ensures |r| > 7 && r[..7] == "Camera "
  {
    "Camera " + NatToString(index + 1)
  }

  /** The label a camera shows in the picker: never empty, the shortened label when that is not empty, else the fallback. */
  function OptionLabel(cam: Camera, index: nat): (r: string)
    ensures r != []
    ensures ShortenLabel(if cam.labelText != "" then cam.labelText else FallbackLabel(index)) != "" ==> r == ShortenLabel(if cam.labelText != "" then cam.labelText else FallbackLabel(index))
    ensures ShortenLabel(if cam.labelText != "" then cam.labelText else FallbackLabel(index)) == "" ==> r == FallbackLabel(index)
  {
    var shortened := ShortenLabel(if cam.labelText != "" then cam.labelText else FallbackLabel(index));
    if shortened != "" then shortened else FallbackLabel(index)
  }

  /** The picker options: each camera's id with its label. */
  function CameraOptions(cameras: seq<Camera>): (r: seq<(string, string)>)
    ensures |r| == |cameras|
    ensures forall i :: 0 <= i < |r| ==> r[i].0 == cameras[i].id && r[i].1 != []
  {
    seq(|cameras|, i requires 0 <= i < |cameras| => (cameras[i].id, OptionLabel(cameras[i], i)))
  }

  /** A needle whose first character occurs in the haystack only at its start, and which is not a prefix there, does not occur. */
  lemma NotContainsByFirstChar(hay: string, needle: string)
    requires needle != [] && !IsPrefix(needle, hay)
    requires forall k :: 0 < k < |hay| ==> hay[k] != needle[0]
    ensures !Contains(hay, needle)
  {
    forall i | 0 <= i <= |hay| - |needle|
      ensures !IsPrefix(needle, hay[i..])
    {
      if i == 0 {
        assert hay[0..] == hay;
      } else {
        assert hay[i..][0] == hay[i];
      }
    }

  }

  /** A label the shortening finds nothing to replace or remove in, and with nothing to trim, is kept as it is. */
  lemma ShortenUnchanged(t: string)
    requires !Contains(Lower(t), "facing back") && !Contains(Lower(t), "facing front") && !Contains(Lower(t), "camera2")
    requires ',' !in t && '(' !in t && Trim(t) == t
    ensures ShortenLabel(t) == t
  {
    assert t[0..] == t;
  }

  /** The lower-cased fallback label is "camera " then digits: no 'f', ',' or '(', and 'c' only at its start. */
  lemma FallbackLowerShape(index: nat)
    ensures var l := Lower(FallbackLabel(index));
            && |l| > 7 && l[0] == 'c' && l[6] == ' ' && IsDigit(l[|l| - 1])
            && forall k :: 0 <= k < |l| ==> l[k] != 'f' && l[k] != ',' && l[k] != '(' && (k > 0 ==> l[k] != 'c')
  {
    var n := NatToString(index + 1);
    var s := FallbackLabel(index);
    var l := Lower(s);
    forall k | 0 <= k < |l|
      ensures l[k] != 'f' && l[k] != ',' && l[k] != '(' && (k > 0 ==> l[k] != 'c')
    {
      if k >= 7 {
        assert s[k] == n[k - 7];
        assert IsDigit(l[k]);
      } else {
        assert l[k] == "camera "[k];
      }
    }
    assert s[|s| - 1] == n[|n| - 1];
  }

  /** A camera without a label shows "Camera <position>", counted from 1: the shortening leaves the fallback alone. */
  lemma UnlabelledCameraOption(cam: Camera, index: nat)
    requires cam.labelText == ""
    ensures OptionLabel(cam, index) == "Camera " + NatToString(index + 1)
  {
    var s := FallbackLabel(index);
    var l := Lower(s);
    FallbackLowerShape(index);
    NotContainsByFirstChar(l, "facing back");
    NotContainsByFirstChar(l, "facing front");
    NotContainsByFirstChar(l, "camera2");
    assert ',' !in s && '(' !in s by {
      forall k | 0 <= k < |s|
        ensures s[k] != ',' && s[k] != '('
      {
        assert l[k] == LowerChar(s[k]);
      }
    }
    assert Trim(s) == s by {
      assert l[0] == LowerChar(s[0]) && l[|s| - 1] == LowerChar(s[|s| - 1]);
    }
    ShortenUnchanged(s);
  }

  // ---------------------------------------------------------------- the dialog

  /** A code that may be handed back through `onScan`: non-empty, whitespace-free and not already on the product. */
  predicate Acceptable(code: string, existingCodes: seq<string>)
  {
    code != "" && NoSpace(code) && code !in existingCodes
  }

  /** Each code was acceptable when it was handed back: new to the product as it then stood. */
  predicate FreshRun(base: seq<string>, codes: seq<string>)
  {
    forall k :: 0 <= k < |codes| ==> Acceptable(codes[k], base + codes[..k])
  }

  /** Handing back a code that is acceptable against the product's current codes keeps the run fresh. */
  lemma FreshRunSnoc(base: seq<string>, codes: seq<string>, code: string)
    requires FreshRun(base, codes) && Acceptable(code, base + codes)
    ensures FreshRun(base, codes + [code])
  {
    forall k | 0 <= k < |codes| + 1
      ensures Acceptable((codes + [code])[k], base + (codes + [code])[..k])
    {
      if k < |codes| {
        assert (codes + [code])[..k] == codes[..k];
      } else {
        assert (codes + [code])[..k] == codes;
      }
    }
  }

  /** The codes of a fresh run are clean, pairwise different, and none was on the product before. */
  lemma FreshRunDistinct(base: seq<string>, codes: seq<string>)
    requires FreshRun(base, codes)
    ensures forall j, k :: 0 <= j < k < |codes| ==> codes[j] != codes[k]
    ensures forall k :: 0 <= k < |codes| ==> codes[k] !in base && codes[k] != "" && NoSpace(codes[k])
  {
    forall j, k | 0 <= j < k < |codes|
      ensures codes[j] != codes[k]
    {
      assert codes[j] in base + codes[..k] by {
        assert (base + codes[..k])[|base| + j] == codes[j];
      }
    }
    forall k | 0 <= k < |codes|
      ensures codes[k] !in base
    {
      assert forall c :: c in base ==> c in base + codes[..k];
    }
  }

  /** A pending code is clean; the only warning is the duplicate warning, shown exactly when a non-empty pending code is already on the product. */
  predicate PendingOk(scannedValue: string, error: string, existingCodes: seq<string>)
  {
    && NoSpace(scannedValue)
    && (error == "" || error == DuplicateCodeError)
    && (scannedValue != "" ==> (error == DuplicateCodeError <==> scannedValue in existingCodes))
  }

  /**
   * The scanner dialog's state; `confirmed` records the codes passed to
   * `onScan`, in order. `existingCodes` is the product's current codes, a
   * prop that grows by each code `onScan` hands to the form, which appends a
   * code the product does not hold; `openedWith` is that list when the
   * dialog opened.
   */
  class ScannerState {
    var scanning: bool
    var scannedValue: string
    var error: string
    var cameraError: bool
    var torch: bool
    var isStarting: bool
    var cameras: seq<Camera>
    var selectedCameraId: Option<string>
    var loadingCameras: bool
    var confirmed: seq<string>
    var existingCodes: seq<string>
    const openedWith: seq<string>

    /**
     * The pending code and its warning agree with the product's current
     * codes, which are the opening codes followed by the codes handed back,
     * each of them new when it was handed back.
     */
    predicate Valid()
      reads this
    {
      && PendingOk(scannedValue, error, existingCodes)
      && existingCodes == openedWith + confirmed
      && FreshRun(openedWith, confirmed)
    }

    /** The dialog opens paused, with no code, while the cameras are listed. */
    constructor (codes: seq<string>)
      ensures openedWith == codes && existingCodes == codes && Valid()
      ensures !scanning && scannedValue == "" && error == "" && loadingCameras && selectedCameraId.None?
      ensures confirmed == [] && cameras == []
      ensures !torch && !isStarting && !cameraError
    {
      openedWith := codes;
      existingCodes := codes;
      scanning := false;
      scannedValue := "";
      error := "";
      cameraError := false;
      torch := false;
      isStarting := false;
      cameras := [];
      selectedCameraId := None;
      loadingCameras := true;
      confirmed := [];
    }

    /** The cameras were listed: a non-empty list selects the default camera and starts scanning. */
    method CamerasLoaded(available: seq<Camera>)
      modifies this
      requires Valid()
      ensures Valid() && !loadingCameras
      ensures available != [] ==> cameras == available && selectedCameraId == Some(DefaultCameraId(available)) && scanning
      ensures available == [] ==> cameras == old(cameras) && selectedCameraId == old(selectedCameraId) && scanning == old(scanning)
      ensures scannedValue == old(scannedValue) && error == old(error) && confirmed == old(confirmed) && existingCodes == old(existingCodes) && cameraError == old(cameraError)
      ensures torch == old(torch) && isStarting == old(isStarting)
    {
      if available != [] {
        cameras := available;
        selectedCameraId := Some(DefaultCameraId(available));
        scanning := true;
      }
      loadingCameras := false;
    }

    /** Listing the cameras failed: the camera error is shown. */
    method CamerasFailed()
      modifies this
      requires Valid()
      ensures Valid() && cameraError && !loadingCameras
      ensures scanning == old(scanning) && scannedValue == old(scannedValue) && error == old(error) && confirmed == old(confirmed) && existingCodes == old(existingCodes)
      ensures selectedCameraId == old(selectedCameraId) && cameras == old(cameras)
      ensures torch == old(torch) && isStarting == old(isStarting)
    {
      cameraError := true;
      loadingCameras := false;
    }

    /**
     * A code was decoded: a cleaned code shorter than five characters is
     * ignored; a longer one becomes the pending code, scanning stops, and the
     * duplicate warning is set exactly when the product already has it.
     */
    method OnDecoded(decodedText: string)
      modifies this
      requires Valid()
      ensures Valid()
      ensures var cleaned := CleanCode(Some(decodedText));
              && (|cleaned| >= MinDecodedLength ==>
                    scannedValue == cleaned && !scanning
                    && error == (if cleaned in existingCodes then DuplicateCodeError else ""))
              && (|cleaned| < MinDecodedLength ==>
                    scannedValue == old(scannedValue) && scanning == old(scanning) && error == old(error))
      ensures confirmed == old(confirmed) && existingCodes == old(existingCodes) && selectedCameraId == old(selectedCameraId) && cameras == old(cameras)
      ensures torch == old(torch) && isStarting == old(isStarting) && cameraError == old(cameraError) && loadingCameras == old(loadingCameras)
    {
      var cleaned := CleanCode(Some(decodedText));
      if |cleaned| >= MinDecodedLength {
        scannedValue := cleaned;
        scanning := false;
        if cleaned in existingCodes {
          error := DuplicateCodeError;
        } else {
          error := "";
        }
      }
    }

    /** The code was typed or edited: the cleaned text becomes the pending code, with the duplicate warning when the product already has it. */
    method HandleManualChange(value: Option<string>)
      modifies this
      requires Valid()
      ensures Valid()
      ensures scannedValue == CleanCode(value)
      ensures error == (if CleanCode(value) in existingCodes then DuplicateCodeError else "")
      ensures scanning == old(scanning) && confirmed == old(confirmed) && existingCodes == old(existingCodes) && selectedCameraId == old(selectedCameraId)
      ensures cameras == old(cameras) && torch == old(torch) && isStarting == old(isStarting) && cameraError == old(cameraError) && loadingCameras == old(loadingCameras)
    {
      var cleaned := CleanCode(value);
      scannedValue := cleaned;
      if cleaned in existingCodes {
        error := DuplicateCodeError;
      } else {
        error := "";
      }
    }

    /** `resetScanner`: no pending code, no warning, scanning again. */
    method ResetScanner()
      modifies this
      requires Valid()
      ensures Valid()
      ensures scannedValue == "" && error == "" && scanning
      ensures confirmed == old(confirmed) && existingCodes == old(existingCodes) && selectedCameraId == old(selectedCameraId) && cameras == old(cameras)
      ensures torch == old(torch) && isStarting == old(isStarting) && cameraError == old(cameraError) && loadingCameras == old(loadingCameras)
    {
      scannedValue := "";
      error := "";
      scanning := true;
    }

    /**
     * `handleConfirm`: a pending code without a warning is handed back, the
     * product gains it, and the scanner is reset; otherwise nothing happens.
     * Only codes new to the product are handed back, so none twice.
     */
    method HandleConfirm()
      modifies this
      requires Valid()
      ensures Valid()
      ensures old(scannedValue) != "" && old(error) == "" ==>
                && confirmed == old(confirmed) + [old(scannedValue)]
                && existingCodes == old(existingCodes) + [old(scannedValue)]
                && Acceptable(old(scannedValue), old(existingCodes)) && old(scannedValue) !in old(confirmed)
                && scannedValue == "" && error == "" && scanning
      ensures !(old(scannedValue) != "" && old(error) == "") ==>
                && confirmed == old(confirmed) && existingCodes == old(existingCodes)
                && scannedValue == old(scannedValue) && error == old(error) && scanning == old(scanning)
      ensures selectedCameraId == old(selectedCameraId) && cameras == old(cameras)
      ensures torch == old(torch) && isStarting == old(isStarting) && cameraError == old(cameraError) && loadingCameras == old(loadingCameras)
    {
      if scannedValue != "" && error == "" {
        var code := scannedValue;
        FreshRunSnoc(openedWith, confirmed, code);
        ResetScanner();
        confirmed := confirmed + [code];
        existingCodes := existingCodes + [code];
      }
    }

    /** `handleCameraChange`: an empty id or the current camera changes nothing; another camera is selected, restarting if scanning. */
    method HandleCameraChange(newCameraId: Option<string>)
      modifies this
      requires Valid()
      ensures Valid()
      ensures newCameraId.None? || newCameraId == Some("") || newCameraId == old(selectedCameraId) ==>
                selectedCameraId == old(selectedCameraId) && isStarting == old(isStarting)
      ensures newCameraId.Some? && newCameraId != Some("") && newCameraId != old(selectedCameraId) ==>
                selectedCameraId == newCameraId && (old(scanning) ==> isStarting) && (!old(scanning) ==> isStarting == old(isStarting))
      ensures scanning == old(scanning) && scannedValue == old(scannedValue) && error == old(error) && confirmed == old(confirmed) && existingCodes == old(existingCodes)
      ensures cameras == old(cameras) && torch == old(torch) && cameraError == old(cameraError) && loadingCameras == old(loadingCameras)
    {
      if newCameraId.None? || newCameraId == Some("") || newCameraId == selectedCameraId {
        return;
      }
      selectedCameraId := newCameraId;
      if scanning {
        isStarting := true;
      }
    }

    /** `toggleScanning`: stops scanning (and the torch) or starts it. */
    method ToggleScanning()
      modifies this
      requires Valid()
      ensures Valid()
      ensures scanning == !old(scanning)
      ensures old(scanning) ==> !torch
      ensures !old(scanning) ==> torch == old(torch)
      ensures scannedValue == old(scannedValue) && error == old(error) && confirmed == old(confirmed) && existingCodes == old(existingCodes) && selectedCameraId == old(selectedCameraId)
      ensures cameras == old(cameras) && isStarting == old(isStarting) && cameraError == old(cameraError) && loadingCameras == old(loadingCameras)
    {
      if scanning {
        scanning := false;
        torch := false;
      } else {
        scanning := true;
      }
    }
  }
}
