# Ecowitt relay — Dafny model

A model of the request handling of `ecowitt-forwarder.py`. This is a small HTTP relay.
It takes weather-station uploads from an Ecowitt console, either as a GET query string
or as a form-encoded POST body. It re-sends the same key/value pairs as one GET to a
WeeWX Interceptor. Every response `_handle` writes has status 200. A few malformed
requests raise an exception in the handler before any response is written, and a method
other than GET or POST is refused by the server base class with 501. Both cases are
modelled below.

The model has six modules:

- `Records` (`records.dfy`) is `_flatten`. The query parser's multimap is a sequence of
  (key, value list) entries with distinct keys, in the order the keys first arrived.
  `_flatten` turns it into a flat record with the same keys in the same order. A key with a
  single value keeps that value. A key with any other number of values gets them joined
  with `,`.
- `Relay` (`relay.dfy`) models these pieces of the source:
  - `EcowittRelay._handle`, as `Handle`;
  - the two steps `_handle` takes to get a POST body: `DeclaredLength`, which is
    `int(headers.get("Content-Length", "0") or "0")`, and `BodyText`, which reads the
    body stream and decodes it (reading is `StreamRead`);
  - the empty/non-empty decision and the forward attempt, as `Respond`;
  - `_write_ok`, as `WriteOk`;
  - the dispatch through `do_GET` and `do_POST`, as `Serve`.

  A request ends in one of three ways:
  - `Replied`: a response is written, together with at most one forward attempt;
  - `Raised`: an exception is raised before any response is written;
  - `NotImplemented`: the method has no `do_` handler, and the base class answers 501.
- `PyInt` (`pyint.dfy`) is Python's `int(text)` in base 10 and `str(n)`. The relay parses
  Content-Length with the first and writes it with the second. `int()` refuses a literal of
  more than 4300 digits, as CPython does by default from 3.11 on (and from 3.7.14, 3.8.14,
  3.9.14 and 3.10.7 in the older lines).
- `Utf8` (`utf8.dfy`) is `str.encode("utf-8")`. It comes with a strict decoder as its
  inverse.
- `Text` (`text.dfy`) is `",".join` and its inverse, `split`.
- `Wrappers` (`wrappers.dfy`) holds `Option` and `Result`.

`Handle` takes the library behaviour it depends on as parameters, in a `Library` value:
- the URL parser (`urlparse`), which yields the path and query of `self.path` or raises.
  `self.path` is the request target after the base class's rewrite (`RequestPath`): a
  target that starts with `//` has its leading slashes reduced to one, so
  `GET //data/report?…` is ingested like `GET /data/report?…`;
- the query-string parser (`parse_qs`);
- the lossy body decoder (`decode("utf-8", errors="replace")`);
- the query-string encoder (`urlencode`).

The `Server` and `Date` header values that `send_response` adds come from an `Env`
parameter. `Server` is the library's version string, and `Date` comes from the clock.

The outcome of the downstream `urlopen` call is a parameter of type `ForwardResult`: either
a status, or an exception of any kind. `Handle` records this result in the forward attempt
and nowhere else. `ResponseIgnoresForwardResult` proves that the response never depends on
it.

The handler raises, and writes no response, in three cases:
- `urlparse` raises on a GET's `self.path`;
- `int()` rejects a POST's Content-Length (`ecowitt-forwarder.py:57`). A non-numeric header
  is not read as zero, as `NonNumericLengthRaises` shows.
- the length is above `sys.maxsize`, so `rfile.read` overflows (`ecowitt-forwarder.py:58`).

A missing header, an empty header, or a parsed length of at most zero reads as an empty
body.

## Model

| member | source | states |
|---|---|---|
| Records.Flatten | ecowitt-forwarder.py:33-42 | the flat record has the multimap's keys in the same order, no more and no fewer; a key with one value maps to that value unchanged |
| Records.FlattenIsJoin | ecowitt-forwarder.py:37-41 | every key maps to its values joined by commas: the one-value special case agrees with joining |
| Records.FlattenSplits | ecowitt-forwarder.py:39-41 | no value is lost and the order is kept: when no value has a comma, splitting a key's string at the commas gives back its value list |
| Records.FlattenRepeatedKey | ecowitt-forwarder.py:39-41 | the values `["1", "2"]` under one key flatten to `"1,2"` |
| Records.FlattenMergesCommaValues | ecowitt-forwarder.py:41 | a single value `"1,2"` and the two values `"1"`, `"2"` flatten to the same record |
| Text.Join | ecowitt-forwarder.py:41 | `sep.join(parts)` is as long as the parts plus one separator between each pair of neighbours, and it starts with the first part |
| Text.SplitJoin | ecowitt-forwarder.py:41 | splitting the join of a non-empty list of parts gives the parts back, when no part contains the separator (empty parts allowed) |
| Text.JoinSplit | ecowitt-forwarder.py:41 | joining the pieces of a split gives the original string back |
| Relay.Handle | ecowitt-forwarder.py:45-82 | any written response has status 200 and the body "OK" or "OK: empty". A forward comes only from a POST, or from a GET whose parsed `self.path` has the path `/data/report`, and only with a non-empty record and the answer "OK". An exception is raised exactly when the URL parser rejects a GET's `self.path`, `int()` rejects a POST's Content-Length, or that length exceeds `sys.maxsize` |
| Relay.RequestPath | ecowitt-forwarder.py:48 | the `self.path` that `urlparse` is given: a target starting with `//` loses all its leading slashes but one (the result never starts with `//`, keeps the text after the slashes, and drops only slashes); any other target is unchanged |
| Relay.RequestPathIdempotent | ecowitt-forwarder.py:48 | rewriting `self.path` again changes nothing |
| Relay.RequestPathOfDoubled | ecowitt-forwarder.py:48 | `"/" + p` becomes `p` for a path `p` with exactly one leading slash |
| Relay.DoubleSlashTargetIsIngested | ecowitt-forwarder.py:47-53 | a GET of `//data/report?…` is parsed as `/data/report?…`, so its query is flattened and handled, not answered as a probe |
| Relay.Serve | ecowitt-forwarder.py:84-88 | only GET and POST reach `_handle`; any other command is answered 501 by the base class, so a 200 answer always comes from a GET or a POST |
| Relay.OtherMethodIsProbe | ecowitt-forwarder.py:60-62 | `_handle` itself answers a method other than GET or POST with "OK" and no forward |
| Relay.GetOffPathIsProbe | ecowitt-forwarder.py:47-52 | a GET whose parsed path is not exactly `/data/report` gets "OK" and no forward, whatever its query is and whatever the query parser would do with it |
| Relay.GetOnPathUsesQuery | ecowitt-forwarder.py:47-53 | a GET on `/data/report` is answered from the flattened parse of its query alone |
| Relay.ForwardKeepsQueryKeys | ecowitt-forwarder.py:53-77 | a GET on `/data/report` with a non-empty parsed query is forwarded with exactly the parsed keys, in the parser's order, each mapped to its comma-joined values |
| Relay.PostIgnoresTarget | ecowitt-forwarder.py:47-59 | a POST is handled the same whatever its target, because the path check applies only to GET |
| Relay.DeclaredLength | ecowitt-forwarder.py:57 | a missing or empty Content-Length reads as length 0; any other header text is what `int()` makes of it, including its ValueError |
| Relay.StreamRead | ecowitt-forwarder.py:58 | `rfile.read(n)` returns a prefix of the stream: `min(n, available)` bytes for n ≥ 0 and everything for n = -1; it raises exactly when n is above `sys.maxsize` or below -1 (OverflowError outside the C `ssize_t` range, ValueError for the other negative counts) |
| Relay.BodyText | ecowitt-forwarder.py:58 | a length of at most 0 gives "" without a read; a positive length up to `sys.maxsize` gives the decoded first `min(length, available)` bytes; a larger length fails |
| Relay.PostWithoutLengthIsEmpty | ecowitt-forwarder.py:57-67 | a POST whose Content-Length is missing, empty or at most zero reads no body and handles the parse of ""; when that parse is empty, the answer is "OK: empty" and there is no forward |
| Relay.PostReadsDeclaredLength | ecowitt-forwarder.py:57-59 | a POST with a length in 1..`sys.maxsize` handles the decoded text of that many bytes of the body stream, or of fewer bytes when the stream ends first |
| Relay.OversizedLengthRaises | ecowitt-forwarder.py:57-58 | a POST whose Content-Length parses above `sys.maxsize` raises, with no response and no forward |
| Relay.NonNumericLengthRaises | ecowitt-forwarder.py:57 | a POST with Content-Length "abc" raises before any response, so it is not treated as zero |
| Relay.Respond | ecowitt-forwarder.py:64-82 | a forward is attempted exactly when the record is non-empty; the attempt carries that record and the downstream result; the answer is "OK: empty" for an empty record and "OK" otherwise |
| Relay.RespondForwardsNonEmptyRecord | ecowitt-forwarder.py:64-82 | an empty record gets "OK: empty" and no forward; a non-empty record gets exactly one GET of the forward URL with the encoded record and a 5-second timeout, and the answer "OK" |
| Relay.ResponseIgnoresForwardResult | ecowitt-forwarder.py:72-82 | the downstream result (a status or any exception) changes only the result recorded in the forward attempt: the response and the attempted call are the same whatever it is |
| Relay.WriteOk | ecowitt-forwarder.py:94-100 | status 200; the Server and Date headers `send_response` adds; Content-Type text/plain in UTF-8; a Content-Length that `int()` reads back as the body's byte count; a body that decodes as UTF-8 back to the message |
| Relay.AsciiLengthHeader | ecowitt-forwarder.py:95-98 | for an ASCII message, the Content-Length header is `str` of the message's character count |
| Relay.OkAnswerLength | ecowitt-forwarder.py:95-98 | "OK" is sent with Content-Length "2" |
| Relay.EmptyAnswerLength | ecowitt-forwarder.py:95-98 | "OK: empty" is sent with Content-Length "9" |
| Utf8.Encode | ecowitt-forwarder.py:95 | UTF-8 takes between one and four bytes per character |
| Utf8.DecodeEncode | ecowitt-forwarder.py:95 | strict UTF-8 decoding of `s.encode("utf-8")` gives `s` back |
| Utf8.EncodeAscii | ecowitt-forwarder.py:95 | an ASCII message is encoded as one byte per character, and each byte is the character's code |
| PyInt.ParseInt | ecowitt-forwarder.py:57 | `int(text)` succeeds only on a text that contains a digit, and gives a negative number only when the text contains a minus sign; its value on `str(n)` and `"-" + str(n)`, and its refusal of digit-free text, are the three lemmas below |
| PyInt.NatToString | ecowitt-forwarder.py:98 | `str(n)` is a non-empty run of decimal digits with no leading zero except for 0 itself; `ParseIntOfNatToString` shows `int()` reads it back as `n` |
| PyInt.ParseIntOfNatToString | ecowitt-forwarder.py:98 | `int(str(n)) == n` whenever `str(n)` has at most 4300 digits, and `int()` raises beyond that; so the Content-Length `_write_ok` writes parses back as the length |
| PyInt.ParseIntOfNegated | ecowitt-forwarder.py:57-58 | `int("-" + str(n)) == -n` up to 4300 digits, and `int()` raises beyond that: a negative Content-Length parses, and the `length > 0` test turns it into an empty body |
| PyInt.NoDigitNoInt | ecowitt-forwarder.py:57 | `int()` fails on any text that contains no digit |

## Left out

- The HTTP server, socket I/O, thread-per-connection concurrency and `main` (`ecowitt-forwarder.py:102-113`) are plumbing, so they are not modelled.
- Relay.OtherMethodIsProbe: the branch it describes (`ecowitt-forwarder.py:60-62`) is unreachable in the running relay. `_handle` is only called from `do_GET` and `do_POST`, and `Serve` shows that every other method is answered 501 before `_handle` runs. The lemma describes `_handle` alone.
- The outbound `urlopen` call and its timeout handling are network I/O. Their outcome is the `ForwardResult` parameter. The timeout value (5.0 seconds) is recorded in the forward attempt.
- The internals of `urlparse`, `parse_qs`, `urlencode` and `decode("utf-8", errors="replace")` are standard-library behaviour. Their results, or for `urlparse` its exception, are inputs through the fields of `Library`. One consequence: "an empty Content-Length gives OK: empty" holds only under the hypothesis that the parser maps "" to an empty multimap. That is what `parse_qs` does, and `PostWithoutLengthIsEmpty` states it as a hypothesis.
- The text of the `Server` header (`BaseHTTP/0.6` followed by the Python version) and the clock behind the `Date` header come from the `Env` parameter. The status line and the 501 error page of the base class are not modelled, nor are its 400, 414 and 431 answers to malformed request lines and headers, nor HTTP/0.9 requests, for which the base class writes the body with no status line and no headers.
- `log_message`, the log lines and the sorted key list (`ecowitt-forwarder.py:65`, `69`, `77`, `79`, `90-92`) are stdout side effects and are not modelled.
- Records.Flatten: the `str(v)` branch for a value that is not a list (`ecowitt-forwarder.py:41`) cannot be reached from `parse_qs` output. The `Multimap` type holds only lists.
- PyInt.ParseInt: covers `int()` on ASCII text only. The text may have ASCII white space around it, an optional sign, and digits with single underscores between them. `int()` also accepts non-ASCII decimal digits and non-ASCII white space, and the model rejects those. The 4300-digit bound is CPython's default from 3.11 on, and from 3.7.14, 3.8.14, 3.9.14 and 3.10.7; it can be changed at run time, and releases before those have no bound.
- Relay.WriteOk: its Content-Length read-back is stated only for bodies whose length has at most 4300 digits. `str()` raises beyond that too, and `PyInt.NatToString` does not model this. The relay only sends 2- and 9-byte bodies.
- Relay.Handle: a Content-Length up to `sys.maxsize` is read as asked. The reading layer allocates a buffer of that size up front, and for a large value that can raise MemoryError. That depends on the machine and is not modelled. `MaxReadSize` assumes a 64-bit build.
- What happens after an uncaught exception is not modelled. `socketserver` prints a traceback and closes the connection. The model stops at `Raised`.
- A client that sends more body bytes than its Content-Length: the bytes left over stay in the connection. The model ignores them.
