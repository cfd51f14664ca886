/** The JavaScript side of the web build's host services (WebAdapter.js):
    the synchronous fetch, the one-shot table of pseudo-signal handlers and
    the cached user agent.

    What the browser does is an input: `Xhr` says how the XMLHttpRequest
    behaved, and the navigator's user agent is a parameter. */
module WebAdapter {
  import opened Wrappers
  import opened Bytes
  import opened CStrings

  /** One entry of a `const char**` list in the heap: a null pointer, or a
      pointer to the characters of a string. */
  datatype CString = Null | Str(chars: string)

  /** The `setRequestHeader(name, value)` calls the header loop makes for a
      list, from position j on: entries are read in pairs up to the first
      null entry, and a name whose value is the terminator sets nothing. */
  function CallsFrom(list: seq<CString>, j: nat): (r: seq<(string, string)>)
    decreases |list| - j
  {
    if j + 1 >= |list| || list[j].Null? || list[j + 1].Null? then []
    else [(ReadCString(list[j].chars), ReadCString(list[j + 1].chars))] + CallsFrom(list, j + 2)
  }

  lemma AppendCall<T>(calls: seq<T>, call: T, rest: seq<T>)
    ensures calls + ([call] + rest) == (calls + [call]) + rest
  {
  }

  /** Entries before position j do not affect the calls from j on. */
  lemma {:induction false} CallsFromShift(p: seq<CString>, q: seq<CString>, j: nat)
    ensures CallsFrom(p + q, |p| + j) == CallsFrom(q, j)
    decreases |q| - j
  {
    if j + 1 < |q| {
      assert (p + q)[|p| + j] == q[j] && (p + q)[|p| + j + 1] == q[j + 1];
      CallsFromShift(p, q, j + 2);
    }
  }

  /** The calls the whole list makes. */
  function HeaderCalls(list: seq<CString>): (r: seq<(string, string)>)
  {
    CallsFrom(list, 0)
  }

  /** The calls a header list makes; a null list pointer makes none. */
  function ListCalls(headerList: Option<seq<CString>>): seq<(string, string)>
  {
    if headerList.Some? then HeaderCalls(headerList.value) else []
  }

  /** The calls `setRequestHeader` completes when it throws on the pairs in
      `rejects` (a name that is not an HTTP token, a value the browser
      refuses): the calls before the first rejected one. */
  function Accepted(calls: seq<(string, string)>, rejects: iset<(string, string)>): seq<(string, string)>
  {
    if calls == [] || calls[0] in rejects then []
    else [calls[0]] + Accepted(calls[1..], rejects)
  }

  /** The completed calls are a prefix of the calls, none of them rejected,
      and the call after them, if any, is the rejected one that threw. */
  lemma {:induction false} AcceptedStops(calls: seq<(string, string)>, rejects: iset<(string, string)>)
    ensures Accepted(calls, rejects) <= calls
    ensures forall k :: 0 <= k < |Accepted(calls, rejects)| ==> Accepted(calls, rejects)[k] !in rejects
    ensures |Accepted(calls, rejects)| < |calls| ==> calls[|Accepted(calls, rejects)|] in rejects
    decreases |calls|
  {
    if calls != [] && calls[0] !in rejects {
      AcceptedStops(calls[1..], rejects);
    }
  }

  /** Every call completes exactly when the browser rejects none of them. */
  lemma {:induction false} AcceptedAll(calls: seq<(string, string)>, rejects: iset<(string, string)>)
    ensures Accepted(calls, rejects) == calls <==> forall k :: 0 <= k < |calls| ==> calls[k] !in rejects
    decreases |calls|
  {
    AcceptedStops(calls, rejects);
    if calls != [] && calls[0] !in rejects {
      AcceptedAll(calls[1..], rejects);
      assert forall k :: 1 <= k < |calls| ==> calls[k] == calls[1..][k - 1];
    }
  }

  /** Calls none of which is rejected, followed by nothing or by a rejected
      call, are exactly the completed ones. */
  lemma {:induction false} AcceptedUpTo(calls: seq<(string, string)>, pending: seq<(string, string)>,
                                        rejects: iset<(string, string)>)
    requires forall k :: 0 <= k < |calls| ==> calls[k] !in rejects
    requires pending == [] || pending[0] in rejects
    ensures Accepted(calls + pending, rejects) == calls
    decreases |calls|
  {
    if calls == [] {
      assert calls + pending == pending;
    } else {
      assert (calls + pending)[0] == calls[0];
      assert (calls + pending)[1..] == calls[1..] + pending;
      AcceptedUpTo(calls[1..], pending, rejects);
    }
  }

  /** The calls from position j of a list whose entries j and j + 1 are
      strings: the first pair, then the calls from j + 2. */
  lemma CallsFromPair(list: seq<CString>, j: nat)
    requires j + 1 < |list| && list[j].Str? && list[j + 1].Str?
    ensures CallsFrom(list, j) == [(ReadCString(list[j].chars), ReadCString(list[j + 1].chars))] + CallsFrom(list, j + 2)
  {
  }

  lemma NextParity(i: nat)
    ensures ((i + 1) % 2 == 1) == (i % 2 != 1)
  {
  }

  /** The header loop of `FetchSync`: walks the list with a counter `i`
      until the first null entry; an even position holds a name, which is
      kept in `headerName`, an odd one the value set under that name. A null
      list pointer sets no header. The list must be terminated, as the loop
      reads until it meets the null entry. `setRequestHeader` throws on a
      pair in `rejects`, and the exception ends the loop: `rejected` is
      that pair. */
  method SetRequestHeaders(headerList: Option<seq<CString>>, rejects: iset<(string, string)>)
    returns (calls: seq<(string, string)>, rejected: Option<(string, string)>)
    requires headerList.Some? ==> Null in headerList.value
    ensures calls == Accepted(ListCalls(headerList), rejects)
    ensures rejected.None? <==> calls == ListCalls(headerList)
    ensures rejected.Some? ==> |calls| < |ListCalls(headerList)| && rejected.value == ListCalls(headerList)[|calls|]
  {
    calls := [];
    rejected := None;
    if headerList.None? {
      return;
    }
    var list := headerList.value;
    ghost var all := HeaderCalls(list);
    assert all == ListCalls(headerList);
    ghost var pending := all;
    ghost var end :| 0 <= end < |list| && list[end] == Null;
    var i := 0;
    var headerName := "";
    ghost var odd := false;
    while list[i].Str?
      invariant 0 <= i <= end
      invariant all == calls + pending
      invariant forall k :: 0 <= k < |calls| ==> calls[k] !in rejects
      invariant odd == (i % 2 == 1)
      invariant !odd ==> pending == CallsFrom(list, i)
      invariant odd ==>
        0 < i && list[i - 1].Str? && headerName == ReadCString(list[i - 1].chars) && pending == CallsFrom(list, i - 1)
      decreases end - i
    {
      if i % 2 == 1 {
        var call := (headerName, ReadCString(list[i].chars));
        CallsFromPair(list, i - 1);
        if call in rejects {
          AcceptedUpTo(calls, pending, rejects);
          return calls, Some(call);
        }
        AppendCall(calls, call, CallsFrom(list, i + 1));
        calls := calls + [call];
        pending := CallsFrom(list, i + 1);
      } else {
        headerName := ReadCString(list[i].chars);
      }
      NextParity(i);
      i := i + 1;
      odd := !odd;
    }
    assert pending == [];
    AcceptedUpTo(calls, pending, rejects);
    assert calls + [] == calls;
  }

  /** How the browser's synchronous XMLHttpRequest behaved. */
  datatype Xhr = Xhr(
    openThrows: bool,                        // xhr.open threw
    rejectsHeader: iset<(string, string)>,    // the pairs xhr.setRequestHeader throws on
    sendThrows: bool,                        // xhr.send threw
    readyState: int,                         // xhr.readyState after send
    response: Option<seq<Byte>>,             // xhr.response: None is null, else the ArrayBuffer
    status: nat)                             // xhr.status

  /** `XMLHttpRequest.DONE` */
  const Done: int := 4

  /** What the XMLHttpRequest was given once it had been opened: the verb,
      URL and timeout, the headers set, and `body`, the payload `send` is
      handed. When a rejected header throws, `send` is never reached and
      `body` is only what it would have been given. */
  datatype Request = Request(
    verb: string, url: string, timeoutMs: nat,
    headers: seq<(string, string)>, body: Option<seq<Byte>>)

  /** How `FetchSync` ends: it returns a status with the bytes written to
      the output pointers, or the exception `setRequestHeader` threw on a
      header pair escapes from it. */
  datatype FetchEnd = Returned(code: int, out: Option<seq<Byte>>) | Threw(rejected: (string, string))

  /** `FetchSync`: the request it opens (None when `open` threw) and how it
      ends. It returns -1 on failure, else the status and the response
      bytes. A response is a failure only when it is null: an empty
      ArrayBuffer is an object, so it passes the `!res` test and yields an
      empty body. The header loop runs outside both `try` blocks, so a
      rejected header escapes as an exception. */
  method FetchSync(verb: string, url: string, headerList: Option<seq<CString>>, timeoutMs: nat,
                   payload: Option<seq<Byte>>, xhr: Xhr)
    returns (req: Option<Request>, end: FetchEnd)
    requires headerList.Some? ==> Null in headerList.value
    ensures req.None? <==> xhr.openThrows
    ensures req.Some? ==> req.value == Request(ReadCString(verb), ReadCString(url), timeoutMs,
      Accepted(ListCalls(headerList), xhr.rejectsHeader), payload)
    ensures end.Threw? <==> !xhr.openThrows && Accepted(ListCalls(headerList), xhr.rejectsHeader) != ListCalls(headerList)
    ensures end.Threw? ==>
      var sent := Accepted(ListCalls(headerList), xhr.rejectsHeader);
      |sent| < |ListCalls(headerList)| && end.rejected == ListCalls(headerList)[|sent|]
    ensures end.Returned? ==>
      (end.code < 0 <==> xhr.openThrows || xhr.sendThrows || xhr.readyState != Done || xhr.response.None?)
    ensures end.Returned? && end.code < 0 ==> end.code == -1 && end.out == None
    ensures end.Returned? && end.code >= 0 ==> end.code == xhr.status && end.out == xhr.response
  {
    req := None;
    if xhr.openThrows {
      return req, Returned(-1, None);
    }
    var headers, rejected := SetRequestHeaders(headerList, xhr.rejectsHeader);
    AcceptedStops(ListCalls(headerList), xhr.rejectsHeader);
    req := Some(Request(ReadCString(verb), ReadCString(url), timeoutMs, headers, payload));
    if rejected.Some? {
      return req, Threw(rejected.value);
    }
    if xhr.sendThrows {
      return req, Returned(-1, None);
    }
    if xhr.readyState != Done {
      return req, Returned(-1, None);
    }
    if xhr.response.None? {
      return req, Returned(-1, None);
    }
    end := Returned(xhr.status, xhr.response);
  }

  /** The progress listener aborts the transfer when the callback's result is
      truthy, that is nonzero. */
  predicate AbortsOn(callbackResult: int)
  {
    callbackResult != 0
  }

  /** The pseudo-signals the page can raise. */
  const SIGINT: int := 2
  const SIGTERM: int := 15

  /** A `SetSignalHandler(sig, ptr)` call. */
  datatype Registration = Registration(sig: int, handlerFuncPtr: nat)

  /** The handler of `sig` in a table: 0 when none (a missing entry and the
      wrapper of a null pointer are both falsy). */
  function HandlerOf(table: map<int, nat>, sig: int): nat
  {
    if sig in table then table[sig] else 0
  }

  /** The table after a sequence of registrations. */
  function Registered(table: map<int, nat>, regs: seq<Registration>): map<int, nat>
    decreases |regs|
  {
    if regs == [] then table
    else Registered(table[regs[0].sig := regs[0].handlerFuncPtr], regs[1..])
  }

  /** The table after `_call(sig)`, `during` being what the handler itself
      registers while it runs: the slot of `sig` is cleared last. */
  function AfterCall(table: map<int, nat>, sig: int, during: seq<Registration>): (t: map<int, nat>)
    ensures HandlerOf(t, sig) == 0
  {
    (if HandlerOf(table, sig) != 0 then Registered(table, during) else table)[sig := 0]
  }

  /** A registration only changes the entry it names. */
  lemma {:induction false} RegisteredOthers(table: map<int, nat>, regs: seq<Registration>, s: int)
    requires forall k :: 0 <= k < |regs| ==> regs[k].sig != s
    ensures HandlerOf(Registered(table, regs), s) == HandlerOf(table, s)
    decreases |regs|
  {
    if regs != [] {
      RegisteredOthers(table[regs[0].sig := regs[0].handlerFuncPtr], regs[1..], s);
    }
  }

  /** Raising a signal is one-shot: after the call its slot is empty, even if
      the handler registered itself again, so an immediate second raise calls
      nothing; and a signal the handler does not touch keeps its handler. */
  lemma CallIsOneShot(table: map<int, nat>, sig: int, during: seq<Registration>, other: int)
    requires other != sig
    requires forall k :: 0 <= k < |during| ==> during[k].sig != other
    ensures HandlerOf(AfterCall(table, sig, during), sig) == 0
    ensures AfterCall(AfterCall(table, sig, during), sig, during) == AfterCall(table, sig, during)
    ensures HandlerOf(AfterCall(table, sig, during), other) == HandlerOf(table, other)
  {
    RegisteredOthers(table, during, other);
  }

  /** `$SignalHandlers` */
  class SignalHandlers {
    var handlers: map<int, nat>

    constructor ()
      ensures handlers == map[]
    {
      handlers := map[];
    }

    /** `WebAdapter_SetSignalHandler`: replaces the entry of `sig` only. */
    method SetSignalHandler(sig: int, handlerFuncPtr: nat)
      modifies this
      ensures handlers == old(handlers)[sig := handlerFuncPtr]
      ensures HandlerOf(handlers, sig) == handlerFuncPtr
      ensures forall s :: s != sig ==> HandlerOf(handlers, s) == HandlerOf(old(handlers), s)
    {
      handlers := handlers[sig := handlerFuncPtr];
    }

    /** `_call(sig)`: calls the handler, if one is set, with `sig`
        (`invoked` is the handler called), then empties the slot. */
    method Call(sig: int, during: seq<Registration>) returns (invoked: Option<nat>)
      modifies this
      ensures invoked == (if HandlerOf(old(handlers), sig) != 0 then Some(HandlerOf(old(handlers), sig)) else None)
      ensures handlers == AfterCall(old(handlers), sig, during)
    {
      var h := HandlerOf(handlers, sig);
      invoked := None;
      if h != 0 {
        invoked := Some(h);
        for k := 0 to |during|
          invariant handlers == Registered(old(handlers), during[..k])
        {
          assert during[..k + 1] == during[..k] + [during[k]];
          RegisteredSnoc(old(handlers), during[..k], during[k]);
          SetSignalHandler(during[k].sig, during[k].handlerFuncPtr);
        }
        assert during[..|during|] == during;
      }
      handlers := handlers[sig := 0];
    }

    /** `Module['raise_SIGINT']` */
    method RaiseSigint(during: seq<Registration>) returns (invoked: Option<nat>)
      modifies this
      ensures invoked == (if HandlerOf(old(handlers), SIGINT) != 0 then Some(HandlerOf(old(handlers), SIGINT)) else None)
      ensures handlers == AfterCall(old(handlers), SIGINT, during)
    {
      invoked := Call(SIGINT, during);
    }

    /** `Module['raise_SIGTERM']` */
    method RaiseSigterm(during: seq<Registration>) returns (invoked: Option<nat>)
      modifies this
      ensures invoked == (if HandlerOf(old(handlers), SIGTERM) != 0 then Some(HandlerOf(old(handlers), SIGTERM)) else None)
      ensures handlers == AfterCall(old(handlers), SIGTERM, during)
    {
      invoked := Call(SIGTERM, during);
    }
  }

  lemma {:induction false} RegisteredSnoc(table: map<int, nat>, regs: seq<Registration>, r: Registration)
    ensures Registered(table, regs + [r]) == Registered(table, regs)[r.sig := r.handlerFuncPtr]
    decreases |regs|
  {
    if regs != [] {
      assert (regs + [r])[1..] == regs[1..] + [r];
      RegisteredSnoc(table[regs[0].sig := regs[0].handlerFuncPtr], regs[1..], r);
    }
  }

  /** The placeholder reported outside a browser. */
  const UndefinedUserAgent: string := "Undefined User Agent"

  /** The user agent computed on the first call: the navigator's when running
      in a browser that reports a non-empty one, else the placeholder. */
  function UserAgentFor(isWeb: bool, navigatorUserAgent: string): (ua: string)
    ensures ua != []
    ensures isWeb && navigatorUserAgent != [] ==> ua == navigatorUserAgent
    ensures !(isWeb && navigatorUserAgent != []) ==> ua == UndefinedUserAgent
  {
    if isWeb && navigatorUserAgent != [] then navigatorUserAgent else UndefinedUserAgent
  }

  /** `_WebAdapter_GetUserAgent.uaPtr` */
  class UserAgentCache {
    var uaPtr: Option<string>

    constructor ()
      ensures uaPtr == None
    {
      uaPtr := None;
    }

    /** `WebAdapter_GetUserAgent`: computes and caches the user agent on the
        first call; every later call returns the cached value, whatever the
        environment then says. */
    method GetUserAgent(isWeb: bool, navigatorUserAgent: string) returns (ua: string)
      modifies this
      ensures old(uaPtr).Some? ==> ua == old(uaPtr).value && uaPtr == old(uaPtr)
      ensures old(uaPtr).None? ==> ua == UserAgentFor(isWeb, navigatorUserAgent) && uaPtr == Some(ua)
    {
      if uaPtr.None? {
        uaPtr := Some(UserAgentFor(isWeb, navigatorUserAgent));
      }
      ua := uaPtr.value;
    }
  }

  /** Two calls on a fresh cache agree, and agree with the first call's
      environment. */
  method UserAgentIsCached(isWeb1: bool, ua1: string, isWeb2: bool, ua2: string) returns (first: string, second: string)
    ensures first == second == UserAgentFor(isWeb1, ua1)
  {
    var cache := new UserAgentCache();
    first := cache.GetUserAgent(isWeb1, ua1);
    second := cache.GetUserAgent(isWeb2, ua2);
  }
}
