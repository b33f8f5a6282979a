/**
 * The deep-link handler: the `data` query parameter is URI-decoded,
 * searched for `web+marvans://<path>`, and the path's first segment picks
 * the route (an entry, the create form with a pre-filled IMEI, the models
 * or IMEI lists, or home).
 */
module ProtocolHandler {
  import opened Base
  import opened Navigation

  const LinkPrefix := "web+marvans://"

  const InvalidLinkNotice := Notice("Invalid Link", "Could not parse the shared link", "red")
  const ErrorNotice := Notice("Error", "Could not process the link", "red")

  /** The notification shown when a scan link pre-fills an IMEI. */
  function ImeiLoadedNotice(imei: string): (r: Notice)
    ensures r.title == "IMEI Loaded" && r.color == "green"
  {
    Notice("IMEI Loaded", "IMEI " + imei + " ready to add", "green")
  }

  /** The characters the regular-expression `.` does not match. */
  predicate IsLineTerminator(c: char)
  {
    c == '\n' || c == '\r' || c == '\U{2028}' || c == '\U{2029}'
  }

  /** The pattern `web\+marvans:\/\/(.+)` can match at `i`: the prefix, then at least one character `.` accepts. */
  predicate MatchAt(s: string, i: nat)
  {
    i + |LinkPrefix| < |s| && s[i..i + |LinkPrefix|] == LinkPrefix && !IsLineTerminator(s[i + |LinkPrefix|])
  }

  /** The leftmost position from `i` on where the pattern matches. */
  function FirstMatch(s: string, i: nat): (r: Option<nat>)
    ensures r.Some? ==> i <= r.value && MatchAt(s, r.value)
    decreases |s| - i
  {
    if i >= |s| then None
    else if MatchAt(s, i) then Some(i)
    else FirstMatch(s, i + 1)
  }

  /** `FirstMatch` finds the leftmost match, and finds none only when there is none. */
  lemma {:induction false} FirstMatchSpec(s: string, i: nat)
    ensures FirstMatch(s, i).None? <==> forall j :: i <= j ==> !MatchAt(s, j)
    ensures FirstMatch(s, i).Some? ==> forall j :: i <= j < FirstMatch(s, i).value ==> !MatchAt(s, j)
    decreases |s| - i
  {
    if i < |s| && !MatchAt(s, i) {
      FirstMatchSpec(s, i + 1);
    }
  }

  /** Where the greedy `.+` stops: the first line terminator at or after `i`, or the end. */
  function LineEnd(s: string, i: nat): (r: nat)
    requires i <= |s|
    ensures i <= r <= |s| && (r == |s| || IsLineTerminator(s[r]))
    ensures forall j :: i <= j < r ==> !IsLineTerminator(s[j])
    decreases |s| - i
  {
    if i == |s| || IsLineTerminator(s[i]) then i else LineEnd(s, i + 1)
  }

  /** `match[1]`: the text the group captures at the leftmost match, or `None` when `match` is null. */
  function LinkPath(decoded: string): (r: Option<string>)
    ensures r.None? <==> FirstMatch(decoded, 0).None?
    ensures r.Some? ==> r.value != [] && forall c :: c in r.value ==> !IsLineTerminator(c)
  {
    match FirstMatch(decoded, 0)
    case None => None
    case Some(i) =>
      var start := i + |LinkPrefix|;
      Some(decoded[start..LineEnd(decoded, start)])
  }

  /**
   * The `switch` on the action, given the path's segments: `entry/<id>`
   * opens the entry, `scan/<imei>` opens the create form with the IMEI
   * and a notification, `create`, `models` and `imei` open those pages,
   * and anything else (an entry link without an id included) goes home.
   */
  function Dispatch(segments: seq<string>): (r: Route)
    requires |segments| >= 1
    ensures r.path in {"/", "/create", "/models", "/imei"} || (|segments| >= 2 && segments[1] != "" && r.path == "/entries/" + segments[1])
    ensures r.path == "/" <==> segments[0] !in {"create", "scan", "models", "imei"} && (segments[0] == "entry" ==> |segments| < 2 || segments[1] == "")
    ensures r.sharedImeis.Some? <==> segments[0] == "scan" && |segments| >= 2 && segments[1] != ""
    ensures r.sharedImeis.Some? ==> r.path == "/create" && r.sharedImeis.value == [segments[1]] && r.notice == Some(ImeiLoadedNotice(segments[1]))
    ensures r.sharedImeis.None? ==> r.notice.None?
  {
    var action, params := segments[0], segments[1..];
    var first := if params == [] then "" else params[0];
    if action == "entry" then
      (if first != "" then GoTo("/entries/" + first) else GoTo("/"))
    else if action == "create" then GoTo("/create")
    else if action == "scan" then
      (if first != "" then Route("/create", Some([first]), Some(ImeiLoadedNotice(first))) else GoTo("/create"))
    else if action == "models" then GoTo("/models")
    else if action == "imei" then GoTo("/imei")
    else GoTo("/")
  }

  /**
   * The effect on `?data=<data>`: a missing parameter is the empty string;
   * a decoding failure (`decode` giving `None` stands for
   * `decodeURIComponent` throwing) goes home with an error; text without a
   * link goes home with "Invalid Link"; otherwise the link's path, split
   * on "/", is dispatched.
   */
  function HandleLink(data: Option<string>, decode: string -> Option<string>): (r: Route)
    ensures decode(if data.None? then "" else data.value).None? ==> r == Route("/", None, Some(ErrorNotice))
    ensures r.notice == Some(InvalidLinkNotice) <==>
              var decoded := decode(if data.None? then "" else data.value);
              decoded.Some? && LinkPath(decoded.value).None?
  {
    var raw := if data.None? then "" else data.value;
    match decode(raw)
    case None => Route("/", None, Some(ErrorNotice))
    case Some(decoded) =>
      match LinkPath(decoded)
      case None => Route("/", None, Some(InvalidLinkNotice))
      case Some(path) => Dispatch(Split(path, '/'))
  }

  /** Text in which the prefix is never followed by a character `.` accepts is an invalid link and goes home. */
  lemma InvalidLinkGoesHome(data: Option<string>, decode: string -> Option<string>, decoded: string)
    requires decode(if data.None? then "" else data.value) == Some(decoded)
    requires forall j :: !MatchAt(decoded, j)
    ensures HandleLink(data, decode) == Route("/", None, Some(InvalidLinkNotice))
  {
    FirstMatchSpec(decoded, 0);
  }

  /** A character absent from every part and from the separator is absent from the joined text. */
  lemma {:induction false} JoinAvoids(parts: seq<string>, sep: char, c: char)
    requires c != sep && forall k :: 0 <= k < |parts| ==> c !in parts[k]
    ensures c !in Join(parts, [sep])
    decreases |parts|
  {
    if |parts| > 1 {
      JoinAvoids(parts[1..], sep, c);
      assert Join(parts, [sep]) == parts[0] + [sep] + Join(parts[1..], [sep]);
    }
  }

  /** A well-formed link without line breaks: its segments contain neither "/" nor a line terminator. */
  predicate PlainSegments(segments: seq<string>)
  {
    && |segments| >= 1
    && segments[0] != ""
    && forall k :: 0 <= k < |segments| ==> '/' !in segments[k] && forall c :: c in segments[k] ==> !IsLineTerminator(c)
  }

  /**
   * The link round trip: a link `web+marvans://` followed by the segments
   * joined with "/" is dispatched on exactly those segments.
   */
  lemma LinkRoundTrip(data: Option<string>, decode: string -> Option<string>, segments: seq<string>)
    requires PlainSegments(segments)
    requires decode(if data.None? then "" else data.value) == Some(LinkPrefix + Join(segments, "/"))
    ensures HandleLink(data, decode) == Dispatch(segments)
  {
    var path := Join(segments, "/");
    JoinedPathPlain(segments);
    PrefixedLinkPath(path);
    SplitJoin(segments, '/');
    assert Split(path, '/') == segments;
  }

  /** Joining plain segments gives a non-empty path without line terminators. */
  lemma JoinedPathPlain(segments: seq<string>)
    requires PlainSegments(segments)
    ensures Join(segments, "/") != []
    ensures forall c :: c in Join(segments, "/") ==> !IsLineTerminator(c)
  {
    var path := Join(segments, "/");
    assert path != [] by {
      if |segments| > 1 {
        assert path == segments[0] + "/" + Join(segments[1..], "/");
      }
    }
    forall c | c in path
      ensures !IsLineTerminator(c)
    {
      if IsLineTerminator(c) {
        JoinAvoids(segments, '/', c);
        assert false;
      }
    }
  }

  /** The capture group of a link that is the prefix followed by a one-line path is that path. */
  lemma PrefixedLinkPath(path: string)
    requires path != [] && forall c :: c in path ==> !IsLineTerminator(c)
    ensures LinkPath(LinkPrefix + path) == Some(path)
  {
    var decoded := LinkPrefix + path;
    assert decoded[|LinkPrefix|] == path[0] && path[0] in path;
    assert MatchAt(decoded, 0);
    assert FirstMatch(decoded, 0) == Some(0);
    forall j | |LinkPrefix| <= j < |decoded|
      ensures !IsLineTerminator(decoded[j])
    {
      assert decoded[j] == path[j - |LinkPrefix|];
      assert decoded[j] in path;
    }
    LineEndNone(decoded, |LinkPrefix|);
    assert decoded[|LinkPrefix|..|decoded|] == path;
  }

  /** With no line terminator from `i` on, the greedy run reaches the end. */
  lemma {:induction false} LineEndNone(s: string, i: nat)
    requires i <= |s| && forall j :: i <= j < |s| ==> !IsLineTerminator(s[j])
    ensures LineEnd(s, i) == |s|
    decreases |s| - i
  {
    if i < |s| {
      LineEndNone(s, i + 1);
    }
  }

  /** `web+marvans://entry/<id>` opens that entry. */
  lemma EntryLink(data: Option<string>, decode: string -> Option<string>, id: string)
    requires id != [] && PlainSegments(["entry", id])
    requires decode(if data.None? then "" else data.value) == Some(LinkPrefix + "entry/" + id)
    ensures HandleLink(data, decode) == GoTo("/entries/" + id)
  {
    assert LinkPrefix + Join(["entry", id], "/") == LinkPrefix + "entry/" + id;
    LinkRoundTrip(data, decode, ["entry", id]);
  }

  /** `web+marvans://scan/<imei>` opens the create form with the IMEI pre-filled and says so. */
  lemma ScanLink(data: Option<string>, decode: string -> Option<string>, imei: string)
    requires imei != [] && PlainSegments(["scan", imei])
    requires decode(if data.None? then "" else data.value) == Some(LinkPrefix + "scan/" + imei)
    ensures HandleLink(data, decode) == Route("/create", Some([imei]), Some(ImeiLoadedNotice(imei)))
  {
    assert LinkPrefix + Join(["scan", imei], "/") == LinkPrefix + "scan/" + imei;
    LinkRoundTrip(data, decode, ["scan", imei]);
  }
}
