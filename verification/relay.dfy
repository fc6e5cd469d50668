/**
 The relay's per-request decision: from an inbound GET or POST, build the
 telemetry record, decide whether to forward it downstream, and answer the
 weather-station console with a 200 response.
 */
module Relay {
  import opened Wrappers
  import PyInt
  import Utf8
  import Records
  import Text

  /** The only GET path whose query is treated as telemetry. */
  const IngestionPath := "/data/report"
  /** Downstream collector the record is re-sent to. */
  const ForwardUrl := "http://127.0.0.1:46000/data/report"
  /** Seconds the forward call may take. */
  const ForwardTimeout: real := 5.0
  const ContentType := "text/plain; charset=utf-8"
  /** The answer to a probe and to a forwarded record. */
  const Ok := "OK"
  /** The answer to an empty record. */
  const OkEmpty := "OK: empty"
  /** The largest byte count the body stream's `read` accepts: `sys.maxsize` on a 64-bit build. */
  const MaxReadSize := 0x7FFF_FFFF_FFFF_FFFF

  /**
   One inbound request: the HTTP method, the request target as sent on the
   request line (before the base class rewrites it into `self.path`), the
   Content-Length header if present, and the bytes the body stream would
   yield.
   */
  datatype Request = Request(
    command: string,
    target: string,
    contentLength: Option<string>,
    stream: seq<Utf8.byte>)

  /** The path and query components the URL parser splits from a request target. */
  datatype Target = Target(path: string, query: string)

  /**
   The library behaviour the relay relies on: the URL parser (which may
   raise on a malformed target), the query-string parser, the lossy UTF-8
   decoder of the body, and the query-string encoder of the forwarded record.
   */
  datatype Library = Library(
    splitTarget: string -> Result<Target>,
    parseQuery: string -> Records.Multimap,
    decodeBody: seq<Utf8.byte> -> string,
    encodeQuery: Records.Record -> string)

  /** The header values `send_response` takes from its surroundings: the server's version string and the current date. */
  datatype Env = Env(serverVersion: string, date: string)

  /** What the downstream call came to: a status, or an exception of any kind. */
  datatype ForwardResult = Status(code: int) | Error(reason: string)

  /** The one outbound GET the relay makes for a non-empty record. */
  datatype ForwardCall = ForwardCall(
    url: string,
    verb: string,
    timeout: real,
    params: Records.Record,
    result: ForwardResult)

  datatype Response = Response(status: int, headers: seq<(string, string)>, body: seq<Utf8.byte>)

  /**
   The end of one request: a response written to the console together with
   the forward attempt if one was made; an exception raised before any
   response was written; or a method the handler has no `do_` method for,
   which the server base class answers with its 501 error page.
   */
  datatype Outcome =
    | Replied(response: Response, forward: Option<ForwardCall>)
    | Raised(error: string)
    | NotImplemented(command: string)

  /** `s.lstrip("/")`: the text after the run of leading slashes. */
  function StripLeadingSlashes(s: string): (r: string)
    ensures |r| <= |s| && r == s[|s| - |r|..]
    ensures |r| > 0 ==> r[0] != '/'
    ensures forall i :: 0 <= i < |s| - |r| ==> s[i] == '/'
  {
    if |s| > 0 && s[0] == '/' then StripLeadingSlashes(s[1..]) else s
  }

  /**
   `self.path` as the server base class leaves it after parsing the request
   line: a target that starts with "//" has its run of leading slashes
   reduced to one, so that it cannot be read as a scheme-relative URL; any
   other target is kept as sent.
   */
  function RequestPath(target: string): (p: string)
    ensures !(|target| >= 2 && target[0] == '/' && target[1] == '/') ==> p == target
    ensures |target| >= 2 && target[0] == '/' && target[1] == '/' ==>
              && 0 < |p| < |target| && p[0] == '/'
              && p[1..] == target[|target| - |p| + 1..]
              && (|p| > 1 ==> p[1] != '/')
              && forall i :: 0 <= i <= |target| - |p| ==> target[i] == '/'
  {
    if |target| >= 2 && target[0] == '/' && target[1] == '/' then "/" + StripLeadingSlashes(target)
    else target
  }

  /** The value of the first header called `name`. */
  function HeaderValue(headers: seq<(string, string)>, name: string): (r: Option<string>)
    ensures r.Some? ==> exists i :: 0 <= i < |headers| && headers[i] == (name, r.value)
    ensures r.None? ==> forall i :: 0 <= i < |headers| ==> headers[i].0 != name
  {
    if |headers| == 0 then None
    else if headers[0].0 == name then Some(headers[0].1)
    else HeaderValue(headers[1..], name)
  }

  /** The headers `send_response` and `_write_ok` send, in order. */
  function OkHeaders(env: Env, length: string): (h: seq<(string, string)>)
    ensures HeaderValue(h, "Server") == Some(env.serverVersion)
    ensures HeaderValue(h, "Date") == Some(env.date)
    ensures HeaderValue(h, "Content-Type") == Some(ContentType)
    ensures HeaderValue(h, "Content-Length") == Some(length)
  {
    var h := [("Server", env.serverVersion), ("Date", env.date),
              ("Content-Type", ContentType), ("Content-Length", length)];
    var h1, h2, h3 := h[1..], h[2..], h[3..];
    assert h1[1..] == h2 && h2[1..] == h3 && h3 == [("Content-Length", length)];
    assert |"Server"| == 6 && |"Date"| == 4 && |"Content-Type"| == 12 && |"Content-Length"| == 14;
    assert HeaderValue(h2, "Content-Type") == Some(ContentType);
    assert HeaderValue(h3, "Content-Length") == Some(length);
    assert HeaderValue(h2, "Content-Length") == Some(length);
    assert HeaderValue(h1, "Content-Type") == Some(ContentType);
    assert HeaderValue(h1, "Content-Length") == Some(length);
    h
  }

  /**
   The relay's `_write_ok`: a 200 text response carrying the server and
   date headers, whose body is the message in UTF-8 and whose
   Content-Length reads back as the body's byte count.
   */
  function WriteOk(msg: string, env: Env): (r: Response)
    ensures r.status == 200
    ensures HeaderValue(r.headers, "Server") == Some(env.serverVersion)
    ensures HeaderValue(r.headers, "Date") == Some(env.date)
    ensures HeaderValue(r.headers, "Content-Type") == Some(ContentType)
    ensures HeaderValue(r.headers, "Content-Length") == Some(PyInt.NatToString(|r.body|))
    ensures |PyInt.NatToString(|r.body|)| <= PyInt.MaxStrDigits ==>
              PyInt.ParseInt(HeaderValue(r.headers, "Content-Length").value) == Success(|r.body|)
    ensures Utf8.Decode(r.body) == Some(msg)
  {
    var body := Utf8.Encode(msg);
    PyInt.ParseIntOfNatToString(|body|);
    Utf8.DecodeEncode(msg);
    Response(200, OkHeaders(env, PyInt.NatToString(|body|)), body)
  }

  /**
   The POST body length: `int(header or "0")`, where a missing header reads
   as "0"; a text `int` rejects is the ValueError it raises.
   */
  function DeclaredLength(contentLength: Option<string>): (r: Result<int>)
    ensures contentLength == None || contentLength == Some("") ==> r == Success(0)
    ensures contentLength.Some? && contentLength.value != "" ==> r == PyInt.ParseInt(contentLength.value)
  {
    PyInt.ParseIntOfNatToString(0);
    var text := match contentLength
      case None => "0"
      case Some(h) => if h == "" then "0" else h;
    PyInt.ParseInt(text)
  }

  /**
   The body stream's `read(n)` on a buffered reader: at most `n` bytes from
   the front, or all of them for `n == -1`. A count outside the C `ssize_t`
   range raises OverflowError while it is converted; any other count below
   -1 raises ValueError.
   */
  function StreamRead(stream: seq<Utf8.byte>, n: int): (r: Result<seq<Utf8.byte>>)
    ensures r.Failure? <==> n > MaxReadSize || n < -1
    ensures r.Success? ==> r.value <= stream
    ensures r.Success? && n >= 0 ==> |r.value| == if n < |stream| then n else |stream|
    ensures n == -1 ==> r == Success(stream)
  {
    if n > MaxReadSize || n < -MaxReadSize - 1 then Failure("OverflowError: cannot fit 'int' into an index-sized integer")
    else if n < -1 then Failure("ValueError: read length must be non-negative or -1")
    else if n == -1 then Success(stream)
    else Success(stream[..if n < |stream| then n else |stream|])
  }

  /** The POST body text: the decoded bytes of `read(length)`, or "" without a read when `length <= 0`. */
  function BodyText(stream: seq<Utf8.byte>, length: int, lib: Library): (r: Result<string>)
    ensures length <= 0 ==> r == Success("")
    ensures r.Failure? <==> length > MaxReadSize
    ensures 0 < length <= MaxReadSize ==>
              r == Success(lib.decodeBody(stream[..if length < |stream| then length else |stream|]))
  {
    if length > 0 then
      match StreamRead(stream, length)
      case Failure(e) => Failure(e)
      case Success(bytes) => Success(lib.decodeBody(bytes))
    else Success("")
  }

  /**
   Answers a parsed record: "OK: empty" without a forward for an empty
   record, else one forward of the record and "OK" whatever it came to.
   */
  function Respond(data: Records.Record, lib: Library, env: Env, fwd: ForwardResult): (o: Outcome)
    ensures o.Replied?
    ensures o.forward.Some? <==> |data| > 0
    ensures o.forward.Some? ==> o.forward.value.params == data && o.forward.value.result == fwd
    ensures o.response == WriteOk(if |data| == 0 then OkEmpty else Ok, env)
  {
    if |data| == 0 then
      Replied(WriteOk(OkEmpty, env), None)
    else
      var call := ForwardCall(ForwardUrl + "?" + lib.encodeQuery(data), "GET", ForwardTimeout, data, fwd);
      Replied(WriteOk(Ok, env), Some(call))
  }

  /**
   The relay's `_handle`. `fwd` is what the downstream call would come to;
   it is recorded in the forward attempt and nowhere else.
   */
  function Handle(req: Request, lib: Library, env: Env, fwd: ForwardResult): (o: Outcome)
    ensures !o.NotImplemented?
    ensures o.Replied? ==> o.response.status == 200
    ensures o.Replied? ==> o.response == WriteOk(Ok, env) || o.response == WriteOk(OkEmpty, env)
    ensures o.Replied? && o.forward.Some? ==> o.response == WriteOk(Ok, env) && |o.forward.value.params| > 0
    ensures o.Raised? <==>
              || (req.command == "GET" && lib.splitTarget(RequestPath(req.target)).Failure?)
              || (req.command == "POST" && DeclaredLength(req.contentLength).Failure?)
              || (req.command == "POST" && DeclaredLength(req.contentLength).Success?
                  && DeclaredLength(req.contentLength).value > MaxReadSize)
    ensures o.Replied? && o.forward.Some? ==>
              || req.command == "POST"
              || (req.command == "GET" && lib.splitTarget(RequestPath(req.target)).Success?
                  && lib.splitTarget(RequestPath(req.target)).value.path == IngestionPath)
  {
    if req.command == "GET" then
      match lib.splitTarget(RequestPath(req.target))
      case Failure(e) => Raised(e)
      case Success(t) =>
        if t.path != IngestionPath then
          Replied(WriteOk(Ok, env), None)
        else
          Respond(Records.Flatten(lib.parseQuery(t.query)), lib, env, fwd)
    else if req.command == "POST" then
      match DeclaredLength(req.contentLength)
      case Failure(e) => Raised(e)
      case Success(length) =>
        match BodyText(req.stream, length, lib)
        case Failure(e) => Raised(e)
        case Success(text) => Respond(Records.Flatten(lib.parseQuery(text)), lib, env, fwd)
    else
      Replied(WriteOk(Ok, env), None)
  }

  /**
   The server's dispatch to `do_GET` and `do_POST`, the only two methods the
   relay defines: any other command never reaches `_handle` and is answered
   501 by the base class.
   */
  function Serve(req: Request, lib: Library, env: Env, fwd: ForwardResult): (o: Outcome)
    ensures o.NotImplemented? <==> req.command != "GET" && req.command != "POST"
    ensures o.NotImplemented? ==> o.command == req.command
    ensures o.Replied? ==> o.response.status == 200
    ensures o.Replied? ==> req.command == "GET" || req.command == "POST"
  {
    if req.command == "GET" || req.command == "POST" then Handle(req, lib, env, fwd)
    else NotImplemented(req.command)
  }

  /** Within `_handle`, a method other than GET or POST is answered "OK" with no forward. */
  lemma OtherMethodIsProbe(req: Request, lib: Library, env: Env, fwd: ForwardResult)
    requires req.command != "GET" && req.command != "POST"
    ensures Handle(req, lib, env, fwd) == Replied(WriteOk(Ok, env), None)
  {
  }

  /**
   A GET off the ingestion path is answered "OK" with no forward, whatever
   its query and whatever the query parser would make of it.
   */
  lemma GetOffPathIsProbe(req: Request, lib: Library, env: Env, fwd: ForwardResult)
    requires req.command == "GET"
    requires lib.splitTarget(RequestPath(req.target)).Success? && lib.splitTarget(RequestPath(req.target)).value.path != IngestionPath
    ensures Handle(req, lib, env, fwd) == Replied(WriteOk(Ok, env), None)
  {
  }

  /** A GET on the ingestion path answers and forwards its flattened query; its headers and body play no part. */
  lemma GetOnPathUsesQuery(req: Request, lib: Library, env: Env, fwd: ForwardResult, query: string)
    requires req.command == "GET" && lib.splitTarget(RequestPath(req.target)) == Success(Target(IngestionPath, query))
    ensures Handle(req, lib, env, fwd) == Respond(Records.Flatten(lib.parseQuery(query)), lib, env, fwd)
  {
  }

  /**
   The forwarded parameters of a GET carry exactly the keys the query
   parser found, in its order, each with its values joined by commas.
   */
  lemma ForwardKeepsQueryKeys(req: Request, lib: Library, env: Env, fwd: ForwardResult, query: string)
    requires req.command == "GET" && lib.splitTarget(RequestPath(req.target)) == Success(Target(IngestionPath, query))
    requires |lib.parseQuery(query)| > 0
    ensures Handle(req, lib, env, fwd).Replied? && Handle(req, lib, env, fwd).forward.Some?
    ensures |Handle(req, lib, env, fwd).forward.value.params| == |lib.parseQuery(query)|
    ensures forall i :: 0 <= i < |lib.parseQuery(query)| ==>
      Handle(req, lib, env, fwd).forward.value.params[i] ==
      (lib.parseQuery(query)[i].0, Text.Join(Records.Comma, lib.parseQuery(query)[i].1))
  {
    Records.FlattenIsJoin(lib.parseQuery(query));
  }

  /** Rewriting a target twice gives what rewriting it once gives: `self.path` never starts with "//". */
  lemma RequestPathIdempotent(target: string)
    ensures RequestPath(RequestPath(target)) == RequestPath(target)
  {
  }

  /**
   A target of the form "/" + `rest`, where `rest` is itself a path with a
   single leading slash, reaches the URL parser as `rest`.
   */
  lemma RequestPathOfDoubled(rest: string)
    requires |rest| > 0 && rest[0] == '/' && (|rest| == 1 || rest[1] != '/')
    ensures RequestPath("/" + rest) == rest
  {
  }

  /**
   A GET of `//data/report?…` is handled as `/data/report?…`: it is ingested
   and its query forwarded, rather than read as the host `data` and
   answered as a probe.
   */
  lemma DoubleSlashTargetIsIngested(req: Request, rest: string, lib: Library, env: Env, fwd: ForwardResult, query: string)
    requires req.command == "GET" && req.target == "/" + rest
    requires |rest| > 1 && rest[0] == '/' && rest[1] != '/'
    requires lib.splitTarget(rest) == Success(Target(IngestionPath, query))
    ensures Handle(req, lib, env, fwd) == Respond(Records.Flatten(lib.parseQuery(query)), lib, env, fwd)
  {
    RequestPathOfDoubled(rest);
  }

  /** A POST is handled the same whatever its target: the path check applies to GET only. */
  lemma PostIgnoresTarget(req: Request, target: string, lib: Library, env: Env, fwd: ForwardResult)
    requires req.command == "POST"
    ensures Handle(req.(target := target), lib, env, fwd) == Handle(req, lib, env, fwd)
  {
  }

  /**
   A POST whose Content-Length is missing, empty or at most zero reads no
   body: its record is whatever the parser makes of "", which for the
   standard parser is empty, giving "OK: empty" and no forward.
   */
  lemma PostWithoutLengthIsEmpty(req: Request, lib: Library, env: Env, fwd: ForwardResult)
    requires req.command == "POST"
    requires req.contentLength == None || req.contentLength == Some("")
             || (DeclaredLength(req.contentLength).Success? && DeclaredLength(req.contentLength).value <= 0)
    ensures Handle(req, lib, env, fwd) == Respond(Records.Flatten(lib.parseQuery("")), lib, env, fwd)
    ensures lib.parseQuery("") == [] ==> Handle(req, lib, env, fwd) == Replied(WriteOk(OkEmpty, env), None)
  {
  }

  /**
   A POST with a positive Content-Length that the stream accepts reads that
   many bytes, fewer if the stream ends first, and handles their decoded text.
   */
  lemma PostReadsDeclaredLength(req: Request, lib: Library, env: Env, fwd: ForwardResult, length: int)
    requires req.command == "POST"
    requires DeclaredLength(req.contentLength) == Success(length) && 0 < length <= MaxReadSize
    ensures var n := if length < |req.stream| then length else |req.stream|;
            Handle(req, lib, env, fwd) == Respond(Records.Flatten(lib.parseQuery(lib.decodeBody(req.stream[..n]))), lib, env, fwd)
  {
  }

  /** A Content-Length above `sys.maxsize` makes the read overflow: nothing is answered or forwarded. */
  lemma OversizedLengthRaises(req: Request, lib: Library, env: Env, fwd: ForwardResult, length: int)
    requires req.command == "POST"
    requires DeclaredLength(req.contentLength) == Success(length) && length > MaxReadSize
    ensures Handle(req, lib, env, fwd).Raised?
  {
  }

  /** A Content-Length that is not an integer literal raises before any response, and nothing is forwarded. */
  lemma NonNumericLengthRaises(req: Request, lib: Library, env: Env, fwd: ForwardResult)
    requires req.command == "POST" && req.contentLength == Some("abc")
    ensures Handle(req, lib, env, fwd).Raised?
  {
    var text := "abc";
    assert forall i :: 0 <= i < |text| ==> !PyInt.IsDigit(text[i]);
    PyInt.NoDigitNoInt(text);
    assert DeclaredLength(req.contentLength).Failure?;
  }

  /**
   An empty record is answered "OK: empty" with no forward; a non-empty one
   is forwarded exactly once, as a GET of the forward URL with the record as
   its parameters, and answered "OK".
   */
  lemma RespondForwardsNonEmptyRecord(data: Records.Record, lib: Library, env: Env, fwd: ForwardResult)
    ensures |data| == 0 ==> Respond(data, lib, env, fwd) == Replied(WriteOk(OkEmpty, env), None)
    ensures |data| > 0 ==>
      Respond(data, lib, env, fwd) ==
      Replied(WriteOk(Ok, env), Some(ForwardCall(ForwardUrl + "?" + lib.encodeQuery(data), "GET", ForwardTimeout, data, fwd)))
  {
  }

  /** The outcome with the recorded result of its forward attempt, if any, replaced by `fwd`. */
  function WithForwardResult(o: Outcome, fwd: ForwardResult): (r: Outcome)
    ensures r.Replied? == o.Replied?
    ensures r.Replied? ==> r.response == o.response && r.forward.Some? == o.forward.Some?
  {
    match o
    case Replied(response, Some(call)) => Replied(response, Some(call.(result := fwd)))
    case _ => o
  }

  /**
   The console's view does not depend on the downstream call: two runs that
   differ only in what the forward came to write the same response and
   attempt the same forward.
   */
  lemma ResponseIgnoresForwardResult(req: Request, lib: Library, env: Env, fwd1: ForwardResult, fwd2: ForwardResult)
    ensures Handle(req, lib, env, fwd2) == WithForwardResult(Handle(req, lib, env, fwd1), fwd2)
  {
    if req.command == "GET" && lib.splitTarget(RequestPath(req.target)).Success? {
      var query := lib.splitTarget(RequestPath(req.target)).value.query;
      RespondForwardsNonEmptyRecord(Records.Flatten(lib.parseQuery(query)), lib, env, fwd1);
      RespondForwardsNonEmptyRecord(Records.Flatten(lib.parseQuery(query)), lib, env, fwd2);
    } else if req.command == "POST" && DeclaredLength(req.contentLength).Success? {
      var text := BodyText(req.stream, DeclaredLength(req.contentLength).value, lib);
      if text.Success? {
        RespondForwardsNonEmptyRecord(Records.Flatten(lib.parseQuery(text.value)), lib, env, fwd1);
        RespondForwardsNonEmptyRecord(Records.Flatten(lib.parseQuery(text.value)), lib, env, fwd2);
      }
    }
  }

  /** For an ASCII message, the Content-Length `_write_ok` sends is `str` of the message's length. */
  lemma AsciiLengthHeader(msg: string, env: Env)
    requires forall i :: 0 <= i < |msg| ==> msg[i] as int < 0x80
    ensures HeaderValue(WriteOk(msg, env).headers, "Content-Length") == Some(PyInt.NatToString(|msg|))
  {
    Utf8.EncodeAscii(msg);
  }

  /** "OK" is sent with Content-Length "2". */
  lemma OkAnswerLength(env: Env)
    ensures HeaderValue(WriteOk(Ok, env).headers, "Content-Length") == Some("2")
  {
    assert Ok[0] == 'O' && Ok[1] == 'K';
    AsciiLengthHeader(Ok, env);
    assert PyInt.NatToString(2) == "2";
  }

  /** "OK: empty" is sent with Content-Length "9". */
  lemma EmptyAnswerLength(env: Env)
    ensures HeaderValue(WriteOk(OkEmpty, env).headers, "Content-Length") == Some("9")
  {
    assert forall i :: 0 <= i < |OkEmpty| ==> OkEmpty[i] as int < 0x80;
    AsciiLengthHeader(OkEmpty, env);
    assert PyInt.NatToString(9) == "9";
  }
}
