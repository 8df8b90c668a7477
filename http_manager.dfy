/** The web front end: the header lines read from a connection, the request
    line of a complete header, the routing of the requested URI, and the
    query string of a fare request (`?o=...&d=...&r=...`). */
module HTTPManager {
  import opened Wrappers
  import opened Text
  import MimeTypes

  // ---------------------------------------------------------------------
  // The query string of a fare request

  /** Origin, destination and railcard named by a fare request. */
  datatype ODR = ODR(origin: string, destination: string, railcard: string)

  /** The query cut at its first two `&` after the leading `?`: exactly three
      segments, the last running to the end of the query. None when the query
      does not start with `?` or has fewer than two `&`. */
  function QuerySegments(url: string): (r: Option<seq<string>>)
    ensures r.Some? ==> |r.value| == 3
  {
    if |url| == 0 || url[0] != '?' then None
    else
      match FindFrom(url, '&', 1)
      case None => None
      case Some(p1) =>
        match FindFrom(url, '&', p1 + 1)
        case None => None
        case Some(p2) => Some([url[1..p1], url[p1 + 1..p2], url[p2 + 1..]])
  }

  /** One `name=value` segment applied: `o`, `d` and `r` set their field;
      any other name, or a segment without `=`, leaves the fields alone. The
      name ends at the first `=`. */
  function Assign(q: ODR, segment: string): ODR
  {
    match FindFrom(segment, '=', 0)
    case None => q
    case Some(e) =>
      var name := segment[..e];
      var value := segment[e + 1..];
      if name == "o" then q.(origin := value)
      else if name == "d" then q.(destination := value)
      else if name == "r" then q.(railcard := value)
      else q
  }

  /** The segments applied in order, so a later one overrides an earlier. */
  function Collect(q: ODR, segments: seq<string>): ODR
    decreases |segments|
  {
    if segments == [] then q
    else Assign(Collect(q, segments[..|segments| - 1]), segments[|segments| - 1])
  }

  /** What `GetODR` reports: the values of the query when it splits into
      three segments and its origin and destination each have four
      characters. */
  function ParseODR(url: string): (r: Option<ODR>)
    ensures r.Some? ==> |r.value.origin| == 4 && |r.value.destination| == 4
  {
    match QuerySegments(url)
    case None => None
    case Some(segments) =>
      var q := Collect(ODR("", "", ""), segments);
      if |q.origin| == 4 && |q.destination| == 4 then Some(q) else None
  }

  /** Reads the origin, destination and railcard from the query; on failure
      the caller's values come back untouched. */
  method GetODR(url: string, origin0: string, destination0: string, railcard0: string)
    returns (success: bool, origin: string, destination: string, railcard: string)
    ensures success <==> ParseODR(url).Some?
    ensures success ==> ODR(origin, destination, railcard) == ParseODR(url).value
    ensures !success ==> origin == origin0 && destination == destination0 && railcard == railcard0
  {
    success := false;
    origin, destination, railcard := origin0, destination0, railcard0;
    if |url| > 0 && url[0] == '?' {
      var pos1 := FindFrom(url, '&', 1);
      if pos1.Some? {
        var pos2 := FindFrom(url, '&', pos1.value + 1);
        if pos2.Some? {
          var nvpairs := [url[1..pos1.value], url[pos1.value + 1..pos2.value], url[pos2.value + 1..]];
          var o, d, r := "", "", "";
          for i := 0 to |nvpairs|
            invariant ODR(o, d, r) == Collect(ODR("", "", ""), nvpairs[..i])
          {
            var s := nvpairs[i];
            var epos := FindFrom(s, '=', 0);
            if epos.Some? {
              var name := s[..epos.value];
              if name == "o" {
                o := s[epos.value + 1..];
              } else if name == "d" {
                d := s[epos.value + 1..];
              } else if name == "r" {
                r := s[epos.value + 1..];
              }
            }
            assert nvpairs[..i + 1][..i] == nvpairs[..i];
          }
          assert nvpairs[..3] == nvpairs;
          if |o| == 4 && |d| == 4 {
            origin, destination, railcard := o, d, r;
            success := true;
          }
        }
      }
    }
  }

  /** The query splits into three segments exactly when it starts with `?`
      and holds two `&` after it. */
  lemma QuerySegmentsIff(url: string)
    ensures QuerySegments(url).Some? <==>
              |url| > 0 && url[0] == '?' &&
              exists i, j :: 1 <= i < j < |url| && url[i] == '&' && url[j] == '&'
  {
    if |url| > 0 && url[0] == '?' && exists i, j :: 1 <= i < j < |url| && url[i] == '&' && url[j] == '&' {
      var i, j :| 1 <= i < j < |url| && url[i] == '&' && url[j] == '&';
      var p1 := FindFrom(url, '&', 1);
      assert p1.Some? && p1.value <= i;
      var p2 := FindFrom(url, '&', p1.value + 1);
      assert p2.Some?;
    }
    if QuerySegments(url).Some? {
      var p1 := FindFrom(url, '&', 1).value;
      var p2 := FindFrom(url, '&', p1 + 1).value;
      assert 1 <= p1 < p2 < |url| && url[p1] == '&' && url[p2] == '&';
    }
  }

  /** Three segments joined by `&` after a `?` split back into the same
      three, whatever the third holds. */
  lemma QuerySplitRoundTrip(s1: string, s2: string, s3: string)
    requires '&' !in s1 && '&' !in s2
    ensures QuerySegments("?" + s1 + "&" + s2 + "&" + s3) == Some([s1, s2, s3])
  {
    var url := "?" + s1 + "&" + s2 + "&" + s3;
    var p1 := 1 + |s1|;
    var p2 := p1 + 1 + |s2|;
    assert url[p1] == '&' && url[p2] == '&';
    assert forall k :: 1 <= k < p1 ==> url[k] == s1[k - 1];
    assert forall k :: p1 + 1 <= k < p2 ==> url[k] == s2[k - p1 - 1];
    assert FindFrom(url, '&', 1) == Some(p1);
    assert FindFrom(url, '&', p1 + 1) == Some(p2);
    assert url[1..p1] == s1 && url[p1 + 1..p2] == s2 && url[p2 + 1..] == s3;
  }

  /** A segment `n=value` for one of the three names sets that field to the
      value, which may itself hold `=`. */
  lemma AssignNamed(q: ODR, n: char, value: string)
    ensures Assign(q, [n, '='] + value) ==
              if n == 'o' then q.(origin := value)
              else if n == 'd' then q.(destination := value)
              else if n == 'r' then q.(railcard := value)
              else q
  {
    var segment := [n, '='] + value;
    if n == '=' {
      assert FindFrom(segment, '=', 0) == Some(0);
      assert segment[..0] != "o" && segment[..0] != "d" && segment[..0] != "r";
    } else {
      assert FindFrom(segment, '=', 0) == Some(1);
      assert segment[..1] == [n] && segment[2..] == value;
    }
  }

  /** A segment without `=` is ignored. */
  lemma SegmentWithoutEquals(q: ODR, segments: seq<string>, segment: string)
    requires '=' !in segment
    ensures Collect(q, segments + [segment]) == Collect(q, segments)
  {
    assert (segments + [segment])[..|segments|] == segments;
    assert FindFrom(segment, '=', 0).None?;
  }

  /** The last segment naming a field decides that field. */
  lemma LaterSegmentWins(q: ODR, segments: seq<string>, n: char, value: string)
    requires n == 'o' || n == 'd' || n == 'r'
    ensures var c := Collect(q, segments + [[n, '='] + value]);
            (n == 'o' ==> c.origin == value) &&
            (n == 'd' ==> c.destination == value) &&
            (n == 'r' ==> c.railcard == value)
  {
    assert (segments + [[n, '='] + value])[..|segments|] == segments;
    AssignNamed(Collect(q, segments), n, value);
  }

  /** The query a client writes, `?o=...&d=...&r=...`, reads back as the
      values written when the origin and destination have four characters;
      the railcard may hold anything, `&` included. */
  lemma FareQueryRoundTrip(o: string, d: string, r: string)
    requires |o| == 4 && |d| == 4 && '&' !in o && '&' !in d
    ensures ParseODR("?o=" + o + "&d=" + d + "&r=" + r) == Some(ODR(o, d, r))
  {
    var s1, s2, s3 := ['o', '='] + o, ['d', '='] + d, ['r', '='] + r;
    assert "?o=" + o + "&d=" + d + "&r=" + r == "?" + s1 + "&" + s2 + "&" + s3;
    assert '&' !in s1 && '&' !in s2;
    QuerySplitRoundTrip(s1, s2, s3);
    var segments := [s1, s2, s3];
    var empty := ODR("", "", "");
    assert segments[..0] == [] && segments[..1] == [s1] && segments[..2] == [s1, s2];
    AssignNamed(empty, 'o', o);
    AssignNamed(empty.(origin := o), 'd', d);
    AssignNamed(ODR(o, d, ""), 'r', r);
    assert Collect(empty, segments[..1]) == ODR(o, "", "");
    assert Collect(empty, segments[..2]) == ODR(o, d, "");
  }

  // ---------------------------------------------------------------------
  // Routing a GET request

  /** What `ProcessGet` does with a URI: a fare request (with the query it
      parsed, normalised, or None for the "Bad request" reply), a file from
      the document root (its path after rewriting, and the content type its
      extension names, "" for none), or nothing. */
  datatype Handling =
    | FareRequest(query: Option<ODR>)
    | StaticFile(path: string, contentType: string)
    | NotHandled

  /** The prefix that marks a fare request. */
  const RJISURI: string := "/PFRJIS"

  /** The longest URI served as a file is one character shorter than this. */
  const MaxFileURI: int := 255

  /** The values as the fare search receives them: upper-cased, with an
      empty railcard replaced by three spaces (no railcard). */
  function NormaliseQuery(q: ODR): (n: ODR)
    ensures |n.origin| == |q.origin| && |n.destination| == |q.destination|
    ensures forall i :: 0 <= i < |n.origin| ==> !IsLower(n.origin[i])
    ensures forall i :: 0 <= i < |n.destination| ==> !IsLower(n.destination[i])
    ensures forall i :: 0 <= i < |n.railcard| ==> !IsLower(n.railcard[i])
    ensures n.railcard != []
    ensures q.railcard == [] ==> n.railcard == "   "
    ensures q.railcard != [] ==> |n.railcard| == |q.railcard|
  {
    var railcard := MakeUpper(q.railcard);
    ODR(MakeUpper(q.origin), MakeUpper(q.destination), if railcard == [] then "   " else railcard)
  }

  /** The content type named by the text after the last `.`, or "" when
      there is no `.`. */
  function ContentType(path: string): string
  {
    match FindLast(path, '.')
    case None => ""
    case Some(p) => MimeTypes.GetMimeType(path[p + 1..])
  }

  /** The routing `ProcessGet` performs before it reads any file. */
  function ProcessGet(uri: string): (h: Handling)
    ensures h.FareRequest? <==> |uri| >= |RJISURI| && uri[..|RJISURI|] == RJISURI
    ensures h.StaticFile? ==> 0 < |uri| < MaxFileURI && uri[0] == '/'
  {
    if |uri| >= |RJISURI| && uri[..|RJISURI|] == RJISURI then
      match ParseODR(uri[|RJISURI|..])
      case None => FareRequest(None)
      case Some(q) => FareRequest(Some(NormaliseQuery(q)))
    else if |uri| > 0 && uri[0] == '/' && |uri| < MaxFileURI then
      var path := if uri == "/fares" then "/index.html" else uri;
      StaticFile(path, ContentType(path))
    else NotHandled
  }

  /** A fare request written by a client reaches the fare search with its
      values normalised. */
  lemma FareRequestRoute(o: string, d: string, r: string)
    requires |o| == 4 && |d| == 4 && '&' !in o && '&' !in d
    ensures ProcessGet(RJISURI + "?o=" + o + "&d=" + d + "&r=" + r) ==
              FareRequest(Some(NormaliseQuery(ODR(o, d, r))))
  {
    var query := "?o=" + o + "&d=" + d + "&r=" + r;
    var uri := RJISURI + query;
    assert RJISURI + "?o=" + o + "&d=" + d + "&r=" + r == uri;
    assert uri[..|RJISURI|] == RJISURI && uri[|RJISURI|..] == query;
    FareQueryRoundTrip(o, d, r);
  }

  /** The content type is that of the text after the last `.`. */
  lemma ContentTypeOfExtension(name: string, ext: string)
    requires '.' !in ext
    ensures ContentType(name + "." + ext) == MimeTypes.GetMimeType(ext)
  {
    var path := name + "." + ext;
    assert path[|name|] == '.';
    assert forall k :: |name| < k < |path| ==> path[k] == ext[k - |name| - 1];
    assert forall k :: |name| < k < |path| ==> path[k] != '.';
    assert FindLast(path, '.') == Some(|name|);
    assert path[|name| + 1..] == ext;
  }

  /** `/fares` is served as `/index.html`. */
  lemma FaresIsIndex()
    ensures ProcessGet("/fares") == StaticFile("/index.html", "text/html")
  {
    assert "/index.html" == "/index" + "." + "html";
    ContentTypeOfExtension("/index", "html");
    MimeTypes.HtmlExtensions("html");
  }

  /** A file is sent with the content type of the text after its last `.`,
      in whatever letter case the URI uses. */
  lemma StaticContentType(name: string, ext: string)
    requires '.' !in ext
    requires var uri := "/" + name + "." + ext;
             |uri| < MaxFileURI && uri != "/fares" && !(|uri| >= |RJISURI| && uri[..|RJISURI|] == RJISURI)
    ensures ProcessGet("/" + name + "." + ext) == StaticFile("/" + name + "." + ext, MimeTypes.GetMimeType(ext))
    ensures MimeTypes.GetMimeType(ext) == MimeTypes.GetMimeType(MakeLower(ext))
  {
    assert "/" + name + "." + ext == ("/" + name) + "." + ext;
    ContentTypeOfExtension("/" + name, ext);
    MimeTypes.LookupIgnoresCase(ext);
  }

  // ---------------------------------------------------------------------
  // The request line

  /** The reply an error sends, with its status code. */
  datatype HTTPError = HTTPException(responseCode: int, message: string)

  /** The URI and protocol of a GET request line. */
  datatype RequestLine = RequestLine(uri: string, protocol: string)

  /** `ProcessCompleteRequest`'s reading of the (trimmed) request line: the
      method is the text before the first space or tab and must be `GET`;
      the URI runs from the next non-blank to the following blank, which must
      exist; the protocol is the rest after the blanks. */
  function SplitRequestLine(line: string): (r: Result<RequestLine, HTTPError>)
    requires IsTrimmed(line)
    ensures r.Err? ==> r.error.responseCode == 400
    ensures r.Ok? ==> |line| > 3 && line[..3] == "GET" && IsBlank(line[3])
    ensures r.Ok? ==> r.value.uri != [] && forall i :: 0 <= i < |r.value.uri| ==> !IsBlank(r.value.uri[i])
    ensures r.Ok? ==> r.value.protocol != [] && !IsBlank(r.value.protocol[0])
  {
    match FindBlankOrNot(line, 0, true)
    case None => Err(HTTPException(400, "Invalid Request Method"))
    case Some(pos) =>
      if line[..pos] != "GET" then Err(HTTPException(400, "Invalid Request Method"))
      else
        assert !IsBlank(line[|line| - 1]);
        match FindBlankOrNot(line, pos, false)
        case None => assert false; Err(HTTPException(400, "Invalid Request Method"))
        case Some(pos2) =>
          match FindBlankOrNot(line, pos2 + 1, true)
          case None => Err(HTTPException(400, "Invalid protocol"))
          case Some(pos3) =>
            match FindBlankOrNot(line, pos3 + 1, false)
            case None => assert false; Err(HTTPException(400, "Invalid protocol"))
            case Some(pos4) => Ok(RequestLine(line[pos2..pos3], line[pos4..]))
  }

  /** A request line written as `GET`, a space, the URI, a space and the
      protocol splits back into the same URI and protocol. */
  lemma RequestLineRoundTrip(uri: string, protocol: string)
    requires uri != [] && forall i :: 0 <= i < |uri| ==> !IsBlank(uri[i])
    requires protocol != [] && !IsBlank(protocol[0]) && !IsSpace(protocol[|protocol| - 1])
    ensures IsTrimmed("GET " + uri + " " + protocol)
    ensures SplitRequestLine("GET " + uri + " " + protocol) == Ok(RequestLine(uri, protocol))
  {
    var line := "GET " + uri + " " + protocol;
    var p3 := 4 + |uri|;
    assert line[..3] == "GET" && line[3] == ' ';
    assert FindBlankOrNot(line, 0, true) == Some(3);
    assert line[4] == uri[0];
    assert FindBlankOrNot(line, 3, false) == Some(4);
    assert forall k :: 4 <= k < p3 ==> line[k] == uri[k - 4];
    assert line[p3] == ' ';
    assert FindBlankOrNot(line, 5, true) == Some(p3);
    assert line[p3 + 1] == protocol[0];
    assert FindBlankOrNot(line, p3 + 1, false) == Some(p3 + 1);
    assert line[4..p3] == uri && line[p3 + 1..] == protocol;
  }

  /** A request line whose first word is not `GET` is refused with 400. */
  lemma OtherMethodsRefused(verb: string, rest: string)
    requires verb != "GET" && forall i :: 0 <= i < |verb| ==> !IsBlank(verb[i])
    requires IsTrimmed(verb + " " + rest)
    ensures SplitRequestLine(verb + " " + rest) == Err(HTTPException(400, "Invalid Request Method"))
  {
    var line := verb + " " + rest;
    assert forall k :: 0 <= k < |verb| ==> line[k] == verb[k];
    assert line[|verb|] == ' ';
    assert FindBlankOrNot(line, 0, true) == Some(|verb|);
    assert line[..|verb|] == verb;
  }

  // ---------------------------------------------------------------------
  // Reading the header from the connection

  /** Every stored header line is trimmed. */
  predicate AllTrimmed(lines: seq<string>)
  {
    forall k :: 0 <= k < |lines| ==> IsTrimmed(lines[k])
  }

  /** `ProcessCompleteRequest` without its effects: the request line is the
      first stored line (an empty header is read as an empty request line)
      and a GET is routed. */
  function CompleteRequest(request: seq<string>): Result<Handling, HTTPError>
    requires AllTrimmed(request)
  {
    var first := if request == [] then "" else request[0];
    match SplitRequestLine(first)
    case Err(e) => Err(e)
    case Ok(rl) => Ok(ProcessGet(rl.uri))
  }

  /** The state `PushData` works on: the stored lines, the line being read,
      whether a header was completed, the handling of every completed
      request, and the error that stopped the reading. */
  datatype Reader = Reader(request: seq<string>, line: string, complete: bool,
                           routed: seq<Handling>, failure: Option<HTTPError>)

  /** One received byte: a carriage return is dropped, a line feed ends the
      line (storing it trimmed, or completing the request when the line is
      empty), anything else extends the line. */
  function Feed(r: Reader, c: char): (n: Reader)
    requires AllTrimmed(r.request)
    ensures AllTrimmed(n.request)
  {
    if r.failure.Some? || c == '\r' then r
    else if c == '\n' then
      if r.line == [] then Finish(r) else EndLine(r)
    else r.(line := r.line + [c])
  }

  /** A line feed after a non-empty line: the line is stored trimmed. */
  function EndLine(r: Reader): (n: Reader)
    requires AllTrimmed(r.request)
    ensures AllTrimmed(n.request)
  {
    var t := Trim(r.line);
    AppendTrimmed(r.request, t);
    r.(request := r.request + [t], line := [])
  }

  lemma AppendTrimmed(lines: seq<string>, s: string)
    requires AllTrimmed(lines) && IsTrimmed(s)
    ensures AllTrimmed(lines + [s])
  {
  }

  /** The blank line: the request is handled, and the stored lines cleared
      unless handling it failed. */
  function Finish(r: Reader): (n: Reader)
    requires AllTrimmed(r.request)
    ensures AllTrimmed(n.request)
  {
    match CompleteRequest(r.request)
    case Err(e) => r.(complete := true, failure := Some(e))
    case Ok(h) => r.(request := [], complete := true, routed := r.routed + [h])
  }

  /** The bytes fed one after another. */
  function FeedAll(r: Reader, input: string): (n: Reader)
    requires AllTrimmed(r.request)
    ensures AllTrimmed(n.request)
    decreases |input|
  {
    if input == [] then r else Feed(FeedAll(r, input[..|input| - 1]), input[|input| - 1])
  }

  /** The state at the start of a call: the stored lines and the handled
      requests carry over, the partial line does not. */
  function Start(request: seq<string>, routed: seq<Handling>): Reader
  {
    Reader(request, "", false, routed, None)
  }

  /** The connection's request handler: the header lines received so far
      and, for each completed request, how it was handled (standing in for
      the response it writes). */
  class HTTPManager {
    var request: seq<string>
    var routed: seq<Handling>

    ghost predicate Valid()
      reads this
    {
      AllTrimmed(request)
    }

    constructor ()
      ensures Valid() && request == [] && routed == []
    {
      request := [];
      routed := [];
    }

    /** Handles the request whose header is complete; the stored lines are
        left for the caller to clear. */
    method ProcessCompleteRequest() returns (error: Option<HTTPError>)
      requires Valid()
      modifies this
      ensures Valid() && request == old(request)
      ensures CompleteRequest(old(request)).Err? ==>
                error == Some(CompleteRequest(old(request)).error) && routed == old(routed)
      ensures CompleteRequest(old(request)).Ok? ==>
                error == None && routed == old(routed) + [CompleteRequest(old(request)).value]
    {
      var first := if request == [] then "" else request[0];
      var rl := SplitRequestLine(first);
      if rl.Err? {
        return Some(rl.error);
      }
      routed := routed + [ProcessGet(rl.value.uri)];
      error := None;
    }

    /** Takes a chunk of bytes from the connection. Returns true when it
        held the blank line that ends a header; an error from handling the
        request stops the reading and leaves the stored lines as they were. */
    method PushData(input: string) returns (result: Result<bool, HTTPError>)
      requires Valid()
      modifies this
      ensures Valid()
      ensures var n := FeedAll(Start(old(request), old(routed)), input);
              request == n.request && routed == n.routed &&
              result == if n.failure.Some? then Err(n.failure.value) else Ok(n.complete)
    {
      ghost var start := Start(request, routed);
      var res := false;
      var line := "";
      for i := 0 to |input|
        invariant Valid()
        invariant FeedAll(start, input[..i]) == Reader(request, line, res, routed, None)
      {
        var b := input[i];
        FeedNext(start, input, i);
        if b == '\r' {
        } else if b == '\n' {
          if |line| == 0 {
            res := true;
            var error := ProcessCompleteRequest();
            if error.Some? {
              FailureEndsInput(start, input, i + 1);
              return Err(error.value);
            }
            request := [];
          } else {
            request := request + [Trim(line)];
            line := "";
          }
        } else {
          line := line + [b];
        }
      }
      assert input[..|input|] == input;
      result := Ok(res);
    }
  }

  // ---------------------------------------------------------------------
  // Properties of the header reader

  /** Feeding two pieces is feeding the first, then the second. */
  lemma {:induction false} FeedAllAppend(r: Reader, a: string, b: string)
    requires AllTrimmed(r.request)
    ensures FeedAll(r, a + b) == FeedAll(FeedAll(r, a), b)
    decreases |b|
  {
    if b == [] {
      assert a + b == a;
    } else {
      var b' := b[..|b| - 1];
      assert (a + b)[..|a + b| - 1] == a + b';
      assert (a + b)[|a + b| - 1] == b[|b| - 1];
      FeedAllAppend(r, a, b');
    }
  }

  /** After an error nothing more is read. */
  lemma {:induction false} FailureStays(r: Reader, s: string)
    requires AllTrimmed(r.request) && r.failure.Some?
    ensures FeedAll(r, s) == r
    decreases |s|
  {
    if s != [] {
      FailureStays(r, s[..|s| - 1]);
    }
  }

  /** Reading one more byte of the input is one more Feed. */
  lemma FeedNext(r: Reader, input: string, i: nat)
    requires AllTrimmed(r.request) && i < |input|
    ensures FeedAll(r, input[..i + 1]) == Feed(FeedAll(r, input[..i]), input[i])
  {
    assert input[..i + 1][..i] == input[..i];
  }

  /** Once a prefix of the input has failed, the rest of it is not read. */
  lemma FailureEndsInput(r: Reader, input: string, i: nat)
    requires AllTrimmed(r.request) && i <= |input|
    requires FeedAll(r, input[..i]).failure.Some?
    ensures FeedAll(r, input) == FeedAll(r, input[..i])
  {
    var a, b := input[..i], input[i..];
    SplitAt(input, i);
    FeedAllAppend(r, a, b);
    FailureStays(FeedAll(r, a), b);
  }

  lemma SplitAt(s: string, i: nat)
    requires i <= |s|
    ensures s[..i] + s[i..] == s
  {
  }

  /** Carriage returns make no difference anywhere in the input. */
  lemma CarriageReturnIgnored(r: Reader, a: string, b: string)
    requires AllTrimmed(r.request)
    ensures FeedAll(r, a + "\r" + b) == FeedAll(r, a + b)
  {
    FeedAllAppend(r, a + "\r", b);
    FeedAllAppend(r, a, b);
    assert (a + "\r")[..|a|] == a;
  }

  /** Bytes after the last line feed only extend the partial line, which is
      not kept between calls: the stored lines, the handled requests and the
      result are those of the input up to that line feed. */
  lemma {:induction false} TrailingBytesDiscarded(r: Reader, a: string, tail: string)
    requires AllTrimmed(r.request) && '\n' !in tail
    ensures var n, m := FeedAll(r, a + tail), FeedAll(r, a);
            n.request == m.request && n.routed == m.routed &&
            n.complete == m.complete && n.failure == m.failure
    decreases |tail|
  {
    if tail == [] {
      assert a + tail == a;
    } else {
      var t' := tail[..|tail| - 1];
      assert (a + tail)[..|a + tail| - 1] == a + t';
      assert (a + tail)[|a + tail| - 1] == tail[|tail| - 1];
      assert tail[|tail| - 1] in tail;
      TrailingBytesDiscarded(r, a, t');
    }
  }

  /** Text with no line breaks extends the partial line. */
  lemma {:induction false} LineAccumulates(r: Reader, text: string)
    requires AllTrimmed(r.request) && r.failure.None?
    requires '\r' !in text && '\n' !in text
    ensures FeedAll(r, text) == r.(line := r.line + text)
    decreases |text|
  {
    if text == [] {
      assert r.line + text == r.line;
    } else {
      var t' := text[..|text| - 1];
      assert text[|text| - 1] in text;
      assert forall c :: c in t' ==> c in text;
      LineAccumulates(r, t');
      assert r.line + t' + [text[|text| - 1]] == r.line + text;
    }
  }

  /** Header lines written one after another, each ended by CR LF. */
  function HeaderText(lines: seq<string>): string
    decreases |lines|
  {
    if lines == [] then "" else HeaderText(lines[..|lines| - 1]) + lines[|lines| - 1] + "\r\n"
  }

  /** A line a client may send: non-empty, trimmed, without line breaks. */
  predicate HeaderLine(l: string)
  {
    l != [] && IsTrimmed(l) && '\r' !in l && '\n' !in l
  }

  /** Lines a client may send. */
  predicate HeaderLines(lines: seq<string>)
    ensures HeaderLines(lines) ==> AllTrimmed(lines)
  {
    forall k :: 0 <= k < |lines| ==> HeaderLine(lines[k])
  }

  /** CR LF after a line: the carriage return is dropped and the line feed
      ends the line. */
  lemma LineEnd(r: Reader)
    requires AllTrimmed(r.request)
    ensures FeedAll(r, "\r\n") == Feed(r, '\n')
  {
    var crlf := "\r\n";
    assert crlf[..1] == "\r" && "\r"[..0] == [];
    assert FeedAll(r, "\r") == Feed(r, '\r');
  }

  /** One written line, CR LF included, is stored as it was written. */
  lemma OneLineStored(r: Reader, l: string)
    requires AllTrimmed(r.request) && r.failure.None? && r.line == []
    requires HeaderLine(l)
    ensures FeedAll(r, l + "\r\n") == r.(request := r.request + [l])
  {
    FeedAllAppend(r, l, "\r\n");
    LineAccumulates(r, l);
    var r1 := r.(line := l);
    assert r.line + l == l;
    LineEnd(r1);
    TrimIdentity(l);
  }

  /** Written header lines are stored, in order, as they were written. */
  lemma {:induction false} HeaderLinesStored(r: Reader, lines: seq<string>)
    requires AllTrimmed(r.request) && r.failure.None? && r.line == []
    requires HeaderLines(lines)
    ensures FeedAll(r, HeaderText(lines)) == r.(request := r.request + lines)
    decreases |lines|
  {
    if lines == [] {
      assert r.request + lines == r.request;
    } else {
      var init := lines[..|lines| - 1];
      var l := lines[|lines| - 1];
      assert HeaderLines(init) by {
        assert forall k :: 0 <= k < |init| ==> init[k] == lines[k];
      }
      HeaderLinesStored(r, init);
      assert init + [l] == lines;
      NextLineStored(r, init, l);
    }
  }

  /** The induction step of `HeaderLinesStored`: one more line. */
  lemma NextLineStored(r: Reader, init: seq<string>, l: string)
    requires AllTrimmed(r.request) && AllTrimmed(init) && r.failure.None? && r.line == []
    requires HeaderLine(l)
    requires FeedAll(r, HeaderText(init)) == r.(request := r.request + init)
    ensures FeedAll(r, HeaderText(init + [l])) == r.(request := r.request + (init + [l]))
  {
    var r1 := r.(request := r.request + init);
    HeaderTextSnoc(init + [l]);
    assert (init + [l])[..|init|] == init;
    StoreAfter(r, HeaderText(init), l, r1);
    SnocAssociates(r.request, init, l);
  }

  lemma HeaderTextSnoc(lines: seq<string>)
    requires lines != []
    ensures HeaderText(lines) == HeaderText(lines[..|lines| - 1]) + (lines[|lines| - 1] + "\r\n")
  {
  }

  lemma SnocAssociates(a: seq<string>, init: seq<string>, l: string)
    ensures a + init + [l] == a + (init + [l])
  {
  }

  /** A further line after text already read. */
  lemma StoreAfter(r: Reader, text: string, l: string, r1: Reader)
    requires AllTrimmed(r.request) && AllTrimmed(r1.request)
    requires FeedAll(r, text) == r1 && r1.failure.None? && r1.line == [] && HeaderLine(l)
    ensures FeedAll(r, text + (l + "\r\n")) == r1.(request := r1.request + [l])
  {
    FeedAllAppend(r, text, l + "\r\n");
    OneLineStored(r1, l);
  }

  /** A complete header (its lines, then an empty line) received from the
      start of a request: the request is handled as its first line says,
      the stored lines are cleared and the call reports a complete header. */
  lemma HeaderCompletes(routed: seq<Handling>, lines: seq<string>)
    requires HeaderLines(lines)
    ensures CompleteRequest(lines).Ok? ==>
              FeedAll(Start([], routed), HeaderText(lines) + "\r\n") ==
                Reader([], "", true, routed + [CompleteRequest(lines).value], None)
    ensures CompleteRequest(lines).Err? ==>
              FeedAll(Start([], routed), HeaderText(lines) + "\r\n") ==
                Reader(lines, "", true, routed, Some(CompleteRequest(lines).error))
  {
    var r := Start([], routed);
    HeaderLinesStored(r, lines);
    assert [] + lines == lines;
    FeedAllAppend(r, HeaderText(lines), "\r\n");
    var r1 := r.(request := lines);
    assert "\r\n"[..1] == "\r" && "\r"[..0] == [];
    assert FeedAll(r1, "\r\n") == Feed(Feed(r1, '\r'), '\n');
  }

  /** A GET request for a URI, sent as a complete header, is routed as
      `ProcessGet` routes that URI. */
  lemma GetRequestRouted(routed: seq<Handling>, uri: string, protocol: string, more: seq<string>)
    requires uri != [] && forall i :: 0 <= i < |uri| ==> !IsBlank(uri[i])
    requires protocol != [] && !IsBlank(protocol[0]) && !IsSpace(protocol[|protocol| - 1])
    requires '\r' !in uri && '\n' !in uri && '\r' !in protocol && '\n' !in protocol
    requires HeaderLines(more)
    ensures var lines := ["GET " + uri + " " + protocol] + more;
            FeedAll(Start([], routed), HeaderText(lines) + "\r\n") ==
              Reader([], "", true, routed + [ProcessGet(uri)], None)
  {
    var first := "GET " + uri + " " + protocol;
    var lines := [first] + more;
    RequestLineRoundTrip(uri, protocol);
    RequestLineIsHeaderLine(uri, protocol);
    assert HeaderLines(lines) by {
      assert forall k :: 1 <= k < |lines| ==> lines[k] == more[k - 1];
    }
    assert CompleteRequest(lines) == Ok(ProcessGet(uri));
    HeaderCompletes(routed, lines);
  }

  lemma RequestLineIsHeaderLine(uri: string, protocol: string)
    requires uri != [] && protocol != [] && !IsBlank(protocol[0]) && !IsSpace(protocol[|protocol| - 1])
    requires forall i :: 0 <= i < |uri| ==> !IsBlank(uri[i])
    requires '\r' !in uri && '\n' !in uri && '\r' !in protocol && '\n' !in protocol
    ensures HeaderLine("GET " + uri + " " + protocol)
  {
    RequestLineRoundTrip(uri, protocol);
    assert '\r' !in "GET " && '\n' !in "GET " && '\r' !in " " && '\n' !in " ";
  }
}
