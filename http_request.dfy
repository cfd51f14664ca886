/** The request-building and response-filtering rules of `Common::HttpRequest`
    (HttpRequest.cpp), for both builds: the web build hands a flattened
    header list to `WebAdapter_FetchSync`, the native build hands curl one
    header line per header and collects the body through a write callback.

    The transfer itself is an input: on the web, how the XMLHttpRequest
    behaved; natively, whether `curl_easy_perform` succeeded, the chunks
    curl delivered and the response code. */
module HttpRequest {
  import opened Wrappers
  import opened Bytes
  import WebAdapter
  import CStrings

  /** One entry of `Headers`: a name and an optional value. */
  datatype Header = Header(name: string, value: Option<string>)

  datatype Method = GET | POST

  datatype AllowedReturnCodes = OkOnly | All

  /** What a transport delivered: nothing usable, or a status and a body. */
  datatype Transfer = TransportError | Received(status: int, body: seq<Byte>)

  /** A progress callback: (dlnow, dltotal, ulnow, ultotal) to "carry on". */
  type ProgressFn = (real, real, real, real) -> bool

  /** The prefix the web build puts in front of every URL. */
  const CorsProxy: string := "https://cors-proxy.htmldriven.com/?url="

  /** 2^32 and 2^64: `u32` and `size_t`. */
  const U32Modulus: int := 0x1_0000_0000
  const U64Modulus: int := 0x1_0000_0000_0000_0000

  function Verb(m: Method): (s: string)
  {
    match m
    case POST => "POST"
    case GET => "GET"
  }

  // ---------------------------------------------------------------------
  // Native build: one curl header line per header

  /** The curl header line for one header: `name:` with no value (curl then
      removes that header), `name;` with an empty value (curl then sends it
      empty), `name: value` otherwise. */
  function HeaderLine(h: Header): (line: string)
  {
    match h.value
    case None => h.name + ":"
    case Some(v) => if v == [] then h.name + ";" else h.name + ": " + v
  }

  /** A name curl can tell apart from what follows it. */
  predicate PlainName(name: string)
  {
    forall i :: 0 <= i < |name| ==> name[i] != ':' && name[i] != ';'
  }

  /** Index of the first ':' or ';' of `s`, or |s|. */
  function Separator(s: string): (k: nat)
    ensures k <= |s|
    ensures forall i :: 0 <= i < k ==> s[i] != ':' && s[i] != ';'
    ensures k < |s| ==> s[k] == ':' || s[k] == ';'
  {
    if s == [] || s[0] == ':' || s[0] == ';' then 0 else 1 + Separator(s[1..])
  }

  /** Reads a header back from a curl header line. */
  function ParseHeaderLine(line: string): Option<Header>
  {
    var k := Separator(line);
    if k == |line| then None
    else if line[k] == ';' then (if k + 1 == |line| then Some(Header(line[..k], Some(""))) else None)
    else if k + 1 == |line| then Some(Header(line[..k], None))
    else if k + 2 < |line| && line[k + 1] == ' ' then Some(Header(line[..k], Some(line[k + 2..])))
    else None
  }

  /** The three line forms are read back to the header they came from, so
      no two headers with plain names give the same line. */
  lemma HeaderLineRoundTrip(h: Header)
    requires PlainName(h.name)
    ensures ParseHeaderLine(HeaderLine(h)) == Some(h)
  {
    var line := HeaderLine(h);
    assert line[..|h.name|] == h.name;
    SeparatorAfter(h.name, line[|h.name|..]);
    assert h.name + line[|h.name|..] == line;
    match h.value
    case None =>
    case Some(v) =>
      if v != [] {
        assert line[|h.name| + 2..] == v;
      }
  }

  lemma {:induction false} SeparatorAfter(name: string, rest: string)
    requires PlainName(name)
    requires rest != [] && (rest[0] == ':' || rest[0] == ';')
    ensures Separator(name + rest) == |name|
    decreases |name|
  {
    if name != [] {
      assert (name + rest)[1..] == name[1..] + rest;
      SeparatorAfter(name[1..], rest);
    }
  }

  lemma HeaderLineInjective(h1: Header, h2: Header)
    requires PlainName(h1.name) && PlainName(h2.name)
    requires HeaderLine(h1) == HeaderLine(h2)
    ensures h1 == h2
  {
    HeaderLineRoundTrip(h1);
    HeaderLineRoundTrip(h2);
  }

  /** The loop that builds the `curl_slist`: one line per header, in order. */
  method BuildHeaderList(headers: seq<Header>) returns (list: seq<string>)
    ensures |list| == |headers|
    ensures forall i :: 0 <= i < |headers| ==> list[i] == HeaderLine(headers[i])
  {
    list := [];
    for i := 0 to |headers|
      invariant |list| == i
      invariant forall k :: 0 <= k < i ==> list[k] == HeaderLine(headers[k])
    {
      list := list + [HeaderLine(headers[i])];
    }
  }

  /** `CurlWriteCallback`: curl hands over `size * nmemb` bytes; they are
      appended to the end of the buffer and their count is returned (which
      tells curl that all of them were taken). */
  method CurlWriteCallback(buffer: ByteVector, data: seq<Byte>, size: nat, nmemb: nat) returns (taken: nat)
    requires size * nmemb < U64Modulus && |data| == size * nmemb
    modifies buffer
    ensures buffer.items == old(buffer.items) + data
    ensures taken == size * nmemb == |data|
  {
    var actualSize := (size * nmemb) % U64Modulus;
    buffer.Append(data[..actualSize]);
    assert data[..actualSize] == data;
    return actualSize;
  }

  /** `CurlProgressCallback`: nonzero, which makes curl abort, exactly when
      the user callback says not to carry on. */
  function CurlProgress(callback: ProgressFn, dlnow: real, dltotal: real, ulnow: real, ultotal: real): (r: int)
    ensures r == 0 || r == 1
    ensures r != 0 <==> !callback(dlnow, dltotal, ulnow, ultotal)
  {
    if callback(dlnow, dltotal, ulnow, ultotal) then 0 else 1
  }

  function Concat(chunks: seq<seq<Byte>>): seq<Byte>
  {
    if chunks == [] then [] else Concat(chunks[..|chunks| - 1]) + chunks[|chunks| - 1]
  }

  /** The status filter both builds apply after the transfer. */
  function Decide(t: Transfer, codes: AllowedReturnCodes): (r: Option<seq<Byte>>)
    ensures t.TransportError? ==> r.None?
    ensures r.Some? ==> t.Received? && r.value == t.body
    ensures t.Received? ==> (r.Some? <==> codes == All || t.status == 200)
  {
    match t
    case TransportError => None
    case Received(status, body) =>
      if codes == All then Some(body)
      else if status != 200 then None
      else Some(body)
  }

  /** `Ok_Only` accepts less than `All` and never a different body, and the
      two agree on a 200 status. */
  lemma OkOnlyRefinesAll(t: Transfer)
    ensures Decide(t, OkOnly).Some? ==> Decide(t, All) == Decide(t, OkOnly)
    ensures t.Received? && t.status == 200 ==> Decide(t, OkOnly) == Decide(t, All)
    ensures t.Received? && t.status != 200 ==> Decide(t, OkOnly).None? && Decide(t, All).Some?
  {
  }

  /** The native `Fetch`: builds the header lines, lets curl deliver the
      body chunk by chunk through the write callback, and filters the
      result. `performOk` is `curl_easy_perform` returning `CURLE_OK`. */
  method FetchCurl(headers: seq<Header>, chunks: seq<seq<Byte>>, performOk: bool,
                   responseCode: int, codes: AllowedReturnCodes)
    returns (lines: seq<string>, response: Option<seq<Byte>>)
    requires forall i :: 0 <= i < |chunks| ==> |chunks[i]| < U64Modulus
    ensures |lines| == |headers| && forall i :: 0 <= i < |headers| ==> lines[i] == HeaderLine(headers[i])
    ensures response == Decide(if performOk then Received(responseCode, Concat(chunks)) else TransportError, codes)
  {
    lines := BuildHeaderList(headers);
    var buffer := new ByteVector();
    for i := 0 to |chunks|
      invariant buffer.items == Concat(chunks[..i])
    {
      assert chunks[..i + 1][..i] == chunks[..i];
      var _ := CurlWriteCallback(buffer, chunks[i], 1, |chunks[i]|);
    }
    assert chunks[..|chunks|] == chunks;
    if !performOk {
      return lines, None;
    }
    if codes == All {
      return lines, Some(buffer.items);
    }
    if responseCode != 200 {
      return lines, None;
    }
    response := Some(buffer.items);
  }

  // ---------------------------------------------------------------------
  // Web build: the flattened header list

  function ValueOrEmpty(v: Option<string>): string
  {
    match v
    case None => ""
    case Some(s) => s
  }

  /** `header_pack`: name, value, name, value, ..., then a null pointer; a
      missing value is passed as an empty string. */
  function HeaderPack(headers: seq<Header>): (pack: seq<WebAdapter.CString>)
    ensures |pack| == 2 * |headers| + 1 && pack[|pack| - 1] == WebAdapter.Null
  {
    if headers == [] then [WebAdapter.Null]
    else [WebAdapter.Str(headers[0].name), WebAdapter.Str(ValueOrEmpty(headers[0].value))] + HeaderPack(headers[1..])
  }

  /** The pack alternates names and values, and its only null entry is the
      terminator. */
  lemma {:induction false} HeaderPackShape(headers: seq<Header>)
    ensures forall i :: 0 <= i < |headers| ==>
      && HeaderPack(headers)[2 * i] == WebAdapter.Str(headers[i].name)
      && HeaderPack(headers)[2 * i + 1] == WebAdapter.Str(ValueOrEmpty(headers[i].value))
    ensures forall j :: 0 <= j < 2 * |headers| ==> HeaderPack(headers)[j].Str?
    decreases |headers|
  {
    if headers != [] {
      HeaderPackShape(headers[1..]);
      var pack := HeaderPack(headers);
      var rest := HeaderPack(headers[1..]);
      assert forall j :: 2 <= j < |pack| ==> pack[j] == rest[j - 2];
      forall i | 1 <= i < |headers|
        ensures pack[2 * i] == WebAdapter.Str(headers[i].name)
        ensures pack[2 * i + 1] == WebAdapter.Str(ValueOrEmpty(headers[i].value))
      {
        assert headers[1..][i - 1] == headers[i];
        assert pack[2 * i] == rest[2 * (i - 1)];
        assert pack[2 * i + 1] == rest[2 * (i - 1) + 1];
      }
    }
  }

  /** The method that fills `header_pack` with `push_back`. */
  method PackHeaders(headers: seq<Header>) returns (pack: seq<WebAdapter.CString>)
    ensures pack == HeaderPack(headers)
  {
    ghost var full := HeaderPack(headers);
    HeaderPackShape(headers);
    pack := [];
    for i := 0 to |headers|
      invariant |pack| == 2 * i
      invariant forall k :: 0 <= k < 2 * i ==> pack[k] == full[k]
    {
      pack := pack + [WebAdapter.Str(headers[i].name)];
      pack := pack + [WebAdapter.Str(ValueOrEmpty(headers[i].value))];
    }
    pack := pack + [WebAdapter.Null];
  }

  /** No NUL in any name or value: what `c_str()` passes is what
      `UTF8ToString` reads. */
  ghost predicate NulFree(headers: seq<Header>)
  {
    forall i :: 0 <= i < |headers| ==> '\0' !in headers[i].name && '\0' !in ValueOrEmpty(headers[i].value)
  }

  /** The (name, value) pairs the browser should receive. */
  function HeaderPairs(headers: seq<Header>): (r: seq<(string, string)>)
    ensures |r| == |headers|
  {
    if headers == [] then [] else [(headers[0].name, ValueOrEmpty(headers[0].value))] + HeaderPairs(headers[1..])
  }

  /** The pack round trip: the JavaScript header loop, run on what the C++
      side packed, sets exactly the headers that were packed, in order, a
      missing value as an empty one. */
  lemma {:induction false} HeaderPackRoundTrip(headers: seq<Header>)
    requires NulFree(headers)
    ensures WebAdapter.Null in HeaderPack(headers)
    ensures WebAdapter.HeaderCalls(HeaderPack(headers)) == HeaderPairs(headers)
    decreases |headers|
  {
    var pack := HeaderPack(headers);
    assert pack[|pack| - 1] == WebAdapter.Null;
    if headers != [] {
      var first := [WebAdapter.Str(headers[0].name), WebAdapter.Str(ValueOrEmpty(headers[0].value))];
      HeaderPackRoundTrip(headers[1..]);
      CStrings.ReadCStringWhole(headers[0].name);
      CStrings.ReadCStringWhole(ValueOrEmpty(headers[0].value));
      WebAdapter.CallsFromShift(first, HeaderPack(headers[1..]), 0);
    }
  }

  /** `HttpRequest::Impl` in the web build. */
  class WebImpl {
    /** `m_fetch_timeout_ms`: the millisecond count stored in a `u32`. */
    const fetchTimeoutMs: nat
    /** `m_fetch_ultotal`: the size of the last request's payload. */
    var fetchUltotal: real
    /** `m_callback`; None is an empty `std::function`. */
    const callback: Option<ProgressFn>

    constructor (timeoutMs: int, callback: Option<ProgressFn>)
      ensures fetchTimeoutMs == timeoutMs % U32Modulus && fetchTimeoutMs < U32Modulus
      ensures this.callback == callback && fetchUltotal == 0.0
    {
      fetchTimeoutMs := timeoutMs % U32Modulus;
      this.callback := callback;
      fetchUltotal := 0.0;
    }

    /** The web build always has a usable transport. */
    predicate IsValid()
    {
      true
    }

    /** `FetchProgressCallback`: nonzero, which makes the listener abort,
        exactly when the user callback says not to carry on; the upload
        progress passed is the whole payload, sent and total. Calling an
        empty `std::function` throws, so a callback must be set. */
    function FetchProgress(dlnow: real, dltotal: real): (r: int)
      requires callback.Some?
      reads this
      ensures WebAdapter.AbortsOn(r) <==> !callback.value(dlnow, dltotal, fetchUltotal, fetchUltotal)
      ensures r == CurlProgress(callback.value, dlnow, dltotal, fetchUltotal, fetchUltotal)
    {
      if callback.value(dlnow, dltotal, fetchUltotal, fetchUltotal) then 0 else 1
    }

    /** The web `Fetch`: packs the headers, records the payload size for the
        progress callback, runs the synchronous fetch through the proxy and
        filters the result. `payload` is None for the null payload pointer
        of a GET. Nothing catches the exception `setRequestHeader` throws on
        a rejected header: it leaves `Fetch` as a Failure carrying that
        header. */
    method Fetch(url: string, m: Method, headers: seq<Header>, payload: Option<seq<Byte>>,
                 codes: AllowedReturnCodes, xhr: WebAdapter.Xhr)
      returns (req: Option<WebAdapter.Request>, response: Result<Option<seq<Byte>>, (string, string)>)
      modifies this
      ensures fetchUltotal == (if payload.Some? then |payload.value| else 0) as real
      ensures req.None? <==> xhr.openThrows
      ensures req.Some? ==>
        && req.value.verb == Verb(m)
        && req.value.url == CStrings.ReadCString(CorsProxy + url)
        && req.value.timeoutMs == fetchTimeoutMs
        && req.value.headers == WebAdapter.Accepted(WebAdapter.HeaderCalls(HeaderPack(headers)), xhr.rejectsHeader)
        && req.value.body == payload
      ensures NulFree(headers) && req.Some? ==>
        req.value.headers == WebAdapter.Accepted(HeaderPairs(headers), xhr.rejectsHeader)
      ensures var calls := WebAdapter.HeaderCalls(HeaderPack(headers));
        response.Failure? <==> !xhr.openThrows && exists k :: 0 <= k < |calls| && calls[k] in xhr.rejectsHeader
      ensures NulFree(headers) ==> (response.Failure? <==>
        !xhr.openThrows && exists k :: 0 <= k < |headers| && HeaderPairs(headers)[k] in xhr.rejectsHeader)
      ensures NulFree(headers) && response.Failure? ==> response.error in HeaderPairs(headers)
      ensures response.Success? ==> response.value == Decide(
        if xhr.openThrows || xhr.sendThrows || xhr.readyState != WebAdapter.Done || xhr.response.None?
        then TransportError else Received(xhr.status, xhr.response.value), codes)
    {
      var pack := PackHeaders(headers);
      fetchUltotal := (if payload.Some? then |payload.value| else 0) as real;
      var verb := Verb(m);
      CStrings.ReadCStringWhole(verb);
      var end;
      req, end := WebAdapter.FetchSync(verb, CorsProxy + url, Some(pack), fetchTimeoutMs, payload, xhr);
      WebAdapter.AcceptedAll(WebAdapter.HeaderCalls(pack), xhr.rejectsHeader);
      if NulFree(headers) {
        HeaderPackRoundTrip(headers);
      }
      if end.Threw? {
        return req, Failure(end.rejected);
      }
      if end.code < 0 {
        return req, Success(None);
      }
      var buffer := end.out.value;
      if codes == All {
        return req, Success(Some(buffer));
      }
      if end.code != 200 {
        return req, Success(None);
      }
      response := Success(Some(buffer));
    }
  }
}
