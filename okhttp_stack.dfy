/**
 * The OkHttp-backed Volley `HttpStack`: it turns a Volley request into an
 * OkHttp request (headers, verb and body), hands that to the network through
 * a lazily built, shared client, and turns the OkHttp response back into a
 * status line and a header list.
 *
 * OkHttp's own builders are represented by what this adapter asks of them:
 * `addHeader` appends, `header` replaces every header of the same name, and
 * the verb calls (`get()`, `post(body)`, ...) become a `Dispatch` value.
 * Whether two header names are "the same" is decided by OkHttp; here it is
 * the parameter `sameName`.
 */
module OkHttpAdapter {
  import opened Wrappers
  import opened Volley

  /** `RequestBody.create(MediaType.parse(contentType), content)`. */
  datatype RequestBody = RequestBody(contentType: string, content: Bytes)

  /**
   * The single builder call the method switch makes: the verb it sets and the
   * body it passes along. `verb == None` means no call at all, so the
   * builder keeps its default verb.
   */
  datatype Dispatch = Dispatch(verb: Option<string>, body: Option<RequestBody>)

  /** The exceptions this adapter raises itself, plus I/O failure of the call. */
  datatype StackError =
    | UnknownMethodType   // IllegalStateException("Unknown method type.")
    | UnknownProtocol     // IllegalAccessError("Unkwown protocol")
    | TransportFailure    // IOException from `execute()`

  /**
   * OkHttp's `Protocol` enum. `OtherProtocol` stands for every constant the
   * adapter's switch does not list (later OkHttp versions add some).
   */
  datatype Protocol = HTTP_1_0 | HTTP_1_1 | SPDY_3 | HTTP_2 | OtherProtocol(name: string)

  /** Apache's `ProtocolVersion(protocol, major, minor)`. */
  datatype ProtocolVersion = ProtocolVersion(protocol: string, major: int, minor: int)

  /** The OkHttp request the builder produces. */
  datatype OkRequest = OkRequest(url: string, headers: seq<Header>, verb: string, body: Option<RequestBody>)

  /** A response header as OkHttp reports it; the adapter checks the name for `null`. */
  type RawHeader = (Option<string>, string)

  /** The parts of an OkHttp `Response` the adapter reads (the body stream is left out). */
  datatype RawResponse = RawResponse(protocol: Protocol, code: int, message: string, headers: seq<RawHeader>)

  /** Apache's `BasicStatusLine`. */
  datatype StatusLine = StatusLine(version: ProtocolVersion, code: int, reason: string)

  /** The Apache `BasicHttpResponse` handed back to Volley (its entity is left out). */
  datatype HttpResponse = HttpResponse(status: StatusLine, headers: seq<Header>)

  /** Header-name equality, as OkHttp's header builder decides it. */
  type NameEq = (string, string) -> bool

  /** The verb a fresh OkHttp `Request.Builder` starts with. */
  const DEFAULT_VERB: string := "GET"

  // ---------------------------------------------------------------------------
  // Method dispatch
  // ---------------------------------------------------------------------------

  /** The method codes the dispatch switch has a case for (Volley's codes are contiguous). */
  predicate IsKnownMethod(m: int) {
    DEPRECATED_GET_OR_POST <= m <= PATCH
  }

  /** Reference table from an HTTP verb back to the Volley method code it stands for. */
  function MethodCodeOf(verb: string): Option<int> {
    if verb == "GET" then Some(GET)
    else if verb == "POST" then Some(POST)
    else if verb == "PUT" then Some(PUT)
    else if verb == "DELETE" then Some(DELETE)
    else if verb == "HEAD" then Some(HEAD)
    else if verb == "OPTIONS" then Some(OPTIONS)
    else if verb == "TRACE" then Some(TRACE)
    else if verb == "PATCH" then Some(PATCH)
    else None
  }

  /**
   * `createRequestBody`: the request's body with its content type; a missing
   * body becomes an empty one for POST (OkHttp refuses a null POST body) and
   * stays missing for every other method.
   */
  function CreateRequestBody(r: Request): (b: Option<RequestBody>)
    ensures b.None? <==> r.body.None? && r.methodCode != POST
    ensures b.Some? ==> b.value == RequestBody(r.bodyContentType, r.body.GetOr([]))
  {
    if r.body.None? then
      if r.methodCode == POST then Some(RequestBody(r.bodyContentType, [])) else None
    else
      Some(RequestBody(r.bodyContentType, r.body.value))
  }

  /**
   * `setConnectionParametersForRequest`: the switch over the method code.
   * Each case makes one builder call; an unlisted code throws before any
   * request is built.
   */
  function SetConnectionParametersForRequest(r: Request): (d: Result<Dispatch, StackError>)
    ensures d.Failure? <==> !IsKnownMethod(r.methodCode)
    ensures d.Failure? ==> d.error == UnknownMethodType
    // every verb set names the method it was chosen for
    ensures d.Success? && d.value.verb.Some? ==>
              MethodCodeOf(d.value.verb.value) == Some(if r.methodCode == DEPRECATED_GET_OR_POST then POST else r.methodCode)
    ensures d.Success? && r.methodCode != DEPRECATED_GET_OR_POST ==> d.value.verb.Some?
    // bodiless verbs ignore whatever body the request carries
    ensures r.methodCode in {GET, DELETE, HEAD, OPTIONS, TRACE} ==> d.Success? && d.value.body.None?
    // POST, PUT and PATCH pass on the body createRequestBody resolves
    ensures r.methodCode in {POST, PUT, PATCH} ==> d.Success? && d.value.body == CreateRequestBody(r)
    // the deprecated code posts the post body when there is one, and otherwise sets no verb
    ensures r.methodCode == DEPRECATED_GET_OR_POST ==>
              && d.Success?
              && (d.value.verb.Some? <==> r.postBody.Some?)
              && d.value.body == (if r.postBody.Some? then Some(RequestBody(r.postBodyContentType, r.postBody.value)) else None)
  {
    if r.methodCode == DEPRECATED_GET_OR_POST then
      if r.postBody.Some? then
        Success(Dispatch(Some("POST"), Some(RequestBody(r.postBodyContentType, r.postBody.value))))
      else
        Success(Dispatch(None, None))
    else if r.methodCode == GET then Success(Dispatch(Some("GET"), None))
    else if r.methodCode == DELETE then Success(Dispatch(Some("DELETE"), None))
    else if r.methodCode == POST then Success(Dispatch(Some("POST"), CreateRequestBody(r)))
    else if r.methodCode == PUT then Success(Dispatch(Some("PUT"), CreateRequestBody(r)))
    else if r.methodCode == HEAD then Success(Dispatch(Some("HEAD"), None))
    else if r.methodCode == OPTIONS then Success(Dispatch(Some("OPTIONS"), None))
    else if r.methodCode == TRACE then Success(Dispatch(Some("TRACE"), None))
    else if r.methodCode == PATCH then Success(Dispatch(Some("PATCH"), CreateRequestBody(r)))
    else Failure(UnknownMethodType)
  }

  // ---------------------------------------------------------------------------
  // Protocol of the response
  // ---------------------------------------------------------------------------

  /** Reference table from a protocol version back to the OkHttp protocol it names. */
  function ProtocolOf(v: ProtocolVersion): Option<Protocol> {
    if v == ProtocolVersion("HTTP", 1, 0) then Some(HTTP_1_0)
    else if v == ProtocolVersion("HTTP", 1, 1) then Some(HTTP_1_1)
    else if v == ProtocolVersion("SPDY", 3, 1) then Some(SPDY_3)
    else if v == ProtocolVersion("HTTP", 2, 0) then Some(HTTP_2)
    else None
  }

  /**
   * `parseProtocol`: the four listed protocols each map to the one version
   * that names them back; any other protocol throws.
   */
  function ParseProtocol(p: Protocol): (r: Result<ProtocolVersion, StackError>)
    ensures r.Failure? <==> p.OtherProtocol?
    ensures r.Failure? ==> r.error == UnknownProtocol
    ensures r.Success? ==> ProtocolOf(r.value) == Some(p)
  {
    match p
    case HTTP_1_0 => Success(ProtocolVersion("HTTP", 1, 0))
    case HTTP_1_1 => Success(ProtocolVersion("HTTP", 1, 1))
    case SPDY_3 => Success(ProtocolVersion("SPDY", 3, 1))
    case HTTP_2 => Success(ProtocolVersion("HTTP", 2, 0))
    case OtherProtocol(_) => Failure(UnknownProtocol)
  }

  // ---------------------------------------------------------------------------
  // Request headers: OkHttp's header list operations
  // ---------------------------------------------------------------------------

  /** `Headers.Builder.removeAll(name)`: drops every header whose name is the same as `name`. */
  function RemoveAll(hs: seq<Header>, name: string, sameName: NameEq): (r: seq<Header>)
    decreases |hs|
  {
    if hs == [] then []
    else (if sameName(name, hs[0].0) then [] else [hs[0]]) + RemoveAll(hs[1..], name, sameName)
  }

  /** The headers whose name is the same as `name`, in order (what `headers(name)` reads). */
  function Matching(hs: seq<Header>, name: string, sameName: NameEq): (r: seq<Header>)
    decreases |hs|
  {
    if hs == [] then []
    else (if sameName(name, hs[0].0) then [hs[0]] else []) + Matching(hs[1..], name, sameName)
  }

  /** `Request.Builder.header(name, value)`: replaces every same-named header by one. */
  function SetHeader(hs: seq<Header>, name: string, value: string, sameName: NameEq): (r: seq<Header>)
    ensures |r| > 0 && r[|r| - 1] == (name, value)
  {
    RemoveAll(hs, name, sameName) + [(name, value)]
  }

  /** `header(name, value)` applied for each additional header in turn. */
  function SetAll(hs: seq<Header>, additional: seq<Header>, sameName: NameEq): (r: seq<Header>)
    decreases |additional|
  {
    if additional == [] then hs
    else
      var last := additional[|additional| - 1];
      SetHeader(SetAll(hs, additional[..|additional| - 1], sameName), last.0, last.1, sameName)
  }

  /** True iff some additional header has the same name as `name`. */
  predicate Overridden(name: string, additional: seq<Header>, sameName: NameEq) {
    exists j :: 0 <= j < |additional| && sameName(additional[j].0, name)
  }

  /** The headers of `hs`, in order, whose name no additional header shares. */
  function KeepUnmatched(hs: seq<Header>, additional: seq<Header>, sameName: NameEq): (r: seq<Header>)
    decreases |hs|
  {
    if hs == [] then []
    else
      (if Overridden(hs[0].0, additional, sameName) then [] else [hs[0]])
      + KeepUnmatched(hs[1..], additional, sameName)
  }

  /** The properties of OkHttp's name equality the header lemmas rely on. */
  ghost predicate IsNameEquivalence(sameName: NameEq) {
    && (forall a :: sameName(a, a))
    && (forall a, b :: sameName(a, b) == sameName(b, a))
  }

  /**
   * The header loops of `performRequest`: every caller header is appended
   * with `addHeader`, then every additional header is set with `header`.
   */
  method AssembleHeaders(callerHeaders: seq<Header>, additionalHeaders: seq<Header>, sameName: NameEq)
    returns (hs: seq<Header>)
    ensures hs == SetAll(callerHeaders, additionalHeaders, sameName)
  {
    hs := [];
    var i := 0;
    while i < |callerHeaders|
      invariant 0 <= i <= |callerHeaders|
      invariant hs == callerHeaders[..i]
    {
      hs := hs + [(callerHeaders[i].0, callerHeaders[i].1)];
      i := i + 1;
    }
    assert callerHeaders[..i] == callerHeaders;
    var j := 0;
    while j < |additionalHeaders|
      invariant 0 <= j <= |additionalHeaders|
      invariant hs == SetAll(callerHeaders, additionalHeaders[..j], sameName)
    {
      SetAllStep(callerHeaders, additionalHeaders, j, sameName);
      hs := SetHeader(hs, additionalHeaders[j].0, additionalHeaders[j].1, sameName);
      j := j + 1;
    }
    assert additionalHeaders[..j] == additionalHeaders;
  }

  /** Setting one more additional header extends the prefix already set. */
  lemma SetAllStep(hs: seq<Header>, additional: seq<Header>, j: nat, sameName: NameEq)
    requires j < |additional|
    ensures SetAll(hs, additional[..j + 1], sameName)
            == SetHeader(SetAll(hs, additional[..j], sameName), additional[j].0, additional[j].1, sameName)
  {
    assert additional[..j + 1][..j] == additional[..j];
  }

  /** `removeAll(name)` keeps exactly the headers whose name differs from `name`. */
  lemma {:induction false} RemoveAllMembers(hs: seq<Header>, name: string, sameName: NameEq)
    ensures forall h :: h in RemoveAll(hs, name, sameName) <==> h in hs && !sameName(name, h.0)
    decreases |hs|
  {
    if hs != [] {
      RemoveAllMembers(hs[1..], name, sameName);
      assert forall h :: h in hs <==> h == hs[0] || h in hs[1..];
    }
  }

  /** `headers(name)` reads exactly the headers whose name is the same as `name`. */
  lemma {:induction false} MatchingMembers(hs: seq<Header>, name: string, sameName: NameEq)
    ensures forall h :: h in Matching(hs, name, sameName) <==> h in hs && sameName(name, h.0)
    decreases |hs|
  {
    if hs != [] {
      MatchingMembers(hs[1..], name, sameName);
      assert forall h :: h in hs <==> h == hs[0] || h in hs[1..];
    }
  }

  /** After `header(name, value)` the headers are the new one and the old ones of other names. */
  lemma SetHeaderMembers(hs: seq<Header>, name: string, value: string, sameName: NameEq)
    ensures forall h :: h in SetHeader(hs, name, value, sameName) <==> h == (name, value) || (h in hs && !sameName(name, h.0))
  {
    RemoveAllMembers(hs, name, sameName);
  }

  /** Every header after the additional-header loop is a caller header or an additional header. */
  lemma {:induction false} SetAllMembers(hs: seq<Header>, additional: seq<Header>, sameName: NameEq)
    ensures forall h :: h in SetAll(hs, additional, sameName) ==> h in hs || h in additional
    decreases |additional|
  {
    if additional != [] {
      var prefix := additional[..|additional| - 1];
      var last := additional[|additional| - 1];
      SetAllMembers(hs, prefix, sameName);
      SetHeaderMembers(SetAll(hs, prefix, sameName), last.0, last.1, sameName);
      assert forall h :: h in prefix ==> h in additional;
    }
  }

  /** The unmatched headers are exactly those no additional header overrides. */
  lemma {:induction false} KeepUnmatchedMembers(hs: seq<Header>, additional: seq<Header>, sameName: NameEq)
    ensures forall h :: h in KeepUnmatched(hs, additional, sameName) <==> h in hs && !Overridden(h.0, additional, sameName)
    decreases |hs|
  {
    if hs != [] {
      KeepUnmatchedMembers(hs[1..], additional, sameName);
      assert forall h :: h in hs <==> h == hs[0] || h in hs[1..];
    }
  }

  lemma {:induction false} RemoveAllAppend(a: seq<Header>, b: seq<Header>, name: string, sameName: NameEq)
    ensures RemoveAll(a + b, name, sameName) == RemoveAll(a, name, sameName) + RemoveAll(b, name, sameName)
    decreases |a|
  {
    if a == [] {
      assert a + b == b;
    } else {
      var head := if sameName(name, a[0].0) then [] else [a[0]];
      assert (a + b)[0] == a[0];
      assert (a + b)[1..] == a[1..] + b;
      RemoveAllAppend(a[1..], b, name, sameName);
      assert RemoveAll(a + b, name, sameName) == head + (RemoveAll(a[1..], name, sameName) + RemoveAll(b, name, sameName));
      assert RemoveAll(a, name, sameName) == head + RemoveAll(a[1..], name, sameName);
    }
  }

  lemma {:induction false} MatchingAppend(a: seq<Header>, b: seq<Header>, name: string, sameName: NameEq)
    ensures Matching(a + b, name, sameName) == Matching(a, name, sameName) + Matching(b, name, sameName)
    decreases |a|
  {
    if a == [] {
      assert a + b == b;
    } else {
      var head := if sameName(name, a[0].0) then [a[0]] else [];
      assert (a + b)[0] == a[0];
      assert (a + b)[1..] == a[1..] + b;
      MatchingAppend(a[1..], b, name, sameName);
      assert Matching(a + b, name, sameName) == head + (Matching(a[1..], name, sameName) + Matching(b, name, sameName));
      assert Matching(a, name, sameName) == head + Matching(a[1..], name, sameName);
    }
  }

  lemma {:induction false} KeepUnmatchedAppend(a: seq<Header>, b: seq<Header>, additional: seq<Header>, sameName: NameEq)
    ensures KeepUnmatched(a + b, additional, sameName)
         == KeepUnmatched(a, additional, sameName) + KeepUnmatched(b, additional, sameName)
    decreases |a|
  {
    if a == [] {
      assert a + b == b;
    } else {
      var head := if Overridden(a[0].0, additional, sameName) then [] else [a[0]];
      assert (a + b)[0] == a[0];
      assert (a + b)[1..] == a[1..] + b;
      KeepUnmatchedAppend(a[1..], b, additional, sameName);
      assert KeepUnmatched(a + b, additional, sameName) == head + (KeepUnmatched(a[1..], additional, sameName) + KeepUnmatched(b, additional, sameName));
      assert KeepUnmatched(a, additional, sameName) == head + KeepUnmatched(a[1..], additional, sameName);
    }
  }

  /** Selecting one name and removing another commute. */
  lemma {:induction false} MatchingRemoveAll(hs: seq<Header>, removed: string, name: string, sameName: NameEq)
    ensures Matching(RemoveAll(hs, removed, sameName), name, sameName)
         == RemoveAll(Matching(hs, name, sameName), removed, sameName)
    decreases |hs|
  {
    if hs != [] {
      var head := if sameName(removed, hs[0].0) then [] else [hs[0]];
      MatchingAppend(head, RemoveAll(hs[1..], removed, sameName), name, sameName);
      var sel := if sameName(name, hs[0].0) then [hs[0]] else [];
      RemoveAllAppend(sel, Matching(hs[1..], name, sameName), removed, sameName);
      MatchingRemoveAll(hs[1..], removed, name, sameName);
    }
  }

  /** After `removeAll(name)` no header of that name is left. */
  lemma {:induction false} RemovedNameNotMatching(hs: seq<Header>, name: string, sameName: NameEq)
    ensures Matching(RemoveAll(hs, name, sameName), name, sameName) == []
    decreases |hs|
  {
    if hs != [] {
      var head := if sameName(name, hs[0].0) then [] else [hs[0]];
      MatchingAppend(head, RemoveAll(hs[1..], name, sameName), name, sameName);
      RemovedNameNotMatching(hs[1..], name, sameName);
    }
  }

  /** Removing one more name from the unmatched headers is the same as one more additional header. */
  lemma {:induction false} KeepUnmatchedExtend(hs: seq<Header>, additional: seq<Header>, h: Header, sameName: NameEq)
    ensures RemoveAll(KeepUnmatched(hs, additional, sameName), h.0, sameName)
         == KeepUnmatched(hs, additional + [h], sameName)
    decreases |hs|
  {
    if hs != [] {
      var x := hs[0];
      var ext := additional + [h];
      assert ext[|additional|] == h;
      assert forall j :: 0 <= j < |additional| ==> ext[j] == additional[j];
      assert Overridden(x.0, ext, sameName) <==> Overridden(x.0, additional, sameName) || sameName(h.0, x.0) by {
        if Overridden(x.0, ext, sameName) {
          var j :| 0 <= j < |ext| && sameName(ext[j].0, x.0);
          if j < |additional| {
            assert sameName(additional[j].0, x.0);
          }
        }
        if Overridden(x.0, additional, sameName) {
          var j :| 0 <= j < |additional| && sameName(additional[j].0, x.0);
          assert sameName(ext[j].0, x.0);
        }
        if sameName(h.0, x.0) {
          assert sameName(ext[|additional|].0, x.0);
        }
      }
      var head := if Overridden(x.0, additional, sameName) then [] else [x];
      RemoveAllAppend(head, KeepUnmatched(hs[1..], additional, sameName), h.0, sameName);
      KeepUnmatchedExtend(hs[1..], additional, h, sameName);
    }
  }

  lemma {:induction false} KeepUnmatchedAll(hs: seq<Header>, additional: seq<Header>, sameName: NameEq)
    requires forall h :: h in hs ==> !Overridden(h.0, additional, sameName)
    ensures KeepUnmatched(hs, additional, sameName) == hs
    decreases |hs|
  {
    if hs != [] {
      assert hs[0] in hs;
      assert forall h :: h in hs[1..] ==> h in hs;
      KeepUnmatchedAll(hs[1..], additional, sameName);
    }
  }

  lemma {:induction false} KeepUnmatchedNone(hs: seq<Header>, additional: seq<Header>, sameName: NameEq)
    requires forall h :: h in hs ==> Overridden(h.0, additional, sameName)
    ensures KeepUnmatched(hs, additional, sameName) == []
    decreases |hs|
  {
    if hs != [] {
      assert hs[0] in hs;
      assert forall h :: h in hs[1..] ==> h in hs;
      KeepUnmatchedNone(hs[1..], additional, sameName);
    }
  }

  /**
   * Shape of the assembled headers: the caller headers no additional header
   * overrides, in their order (duplicates kept), followed by what the
   * additional headers alone would produce.
   */
  lemma {:induction false} MergedHeadersShape(callerHeaders: seq<Header>, additional: seq<Header>, sameName: NameEq)
    ensures SetAll(callerHeaders, additional, sameName)
         == KeepUnmatched(callerHeaders, additional, sameName) + SetAll([], additional, sameName)
    decreases |additional|
  {
    if additional == [] {
      KeepUnmatchedAll(callerHeaders, additional, sameName);
    } else {
      var prefix := additional[..|additional| - 1];
      var last := additional[|additional| - 1];
      assert prefix + [last] == additional;
      MergedHeadersShape(callerHeaders, prefix, sameName);
      RemoveAllAppend(KeepUnmatched(callerHeaders, prefix, sameName), SetAll([], prefix, sameName), last.0, sameName);
      KeepUnmatchedExtend(callerHeaders, prefix, last, sameName);
    }
  }

  /**
   * Caller headers whose names no additional header shares come through with
   * their values and relative order unchanged, duplicates included.
   */
  lemma CallerHeadersKept(callerHeaders: seq<Header>, additional: seq<Header>, sameName: NameEq)
    requires IsNameEquivalence(sameName)
    ensures KeepUnmatched(SetAll(callerHeaders, additional, sameName), additional, sameName)
         == KeepUnmatched(callerHeaders, additional, sameName)
  {
    var kept := KeepUnmatched(callerHeaders, additional, sameName);
    var own := SetAll([], additional, sameName);
    MergedHeadersShape(callerHeaders, additional, sameName);
    KeepUnmatchedMembers(callerHeaders, additional, sameName);
    SetAllMembers([], additional, sameName);
    KeepUnmatchedAppend(kept, own, additional, sameName);
    KeepUnmatchedAll(kept, additional, sameName);
    forall h | h in own
      ensures Overridden(h.0, additional, sameName)
    {
      var j :| 0 <= j < |additional| && additional[j] == h;
      assert sameName(additional[j].0, h.0);
    }
    KeepUnmatchedNone(own, additional, sameName);
  }

  /**
   * An additional header that no later additional header shares a name with
   * is, after assembly, the only header of that name.
   */
  lemma {:induction false} AdditionalHeaderWins(callerHeaders: seq<Header>, additional: seq<Header>, k: nat, sameName: NameEq)
    requires IsNameEquivalence(sameName)
    requires k < |additional|
    requires forall j :: k < j < |additional| ==> !sameName(additional[j].0, additional[k].0)
    ensures Matching(SetAll(callerHeaders, additional, sameName), additional[k].0, sameName) == [additional[k]]
    decreases |additional|
  {
    var prefix := additional[..|additional| - 1];
    var last := additional[|additional| - 1];
    var before := SetAll(callerHeaders, prefix, sameName);
    assert SetAll(callerHeaders, additional, sameName) == SetHeader(before, last.0, last.1, sameName);
    if k == |additional| - 1 {
      SetHeaderMatchesItself(before, last, sameName);
    } else {
      assert prefix[k] == additional[k];
      AdditionalHeaderWins(callerHeaders, prefix, k, sameName);
      SetHeaderKeepsOther(before, last, additional[k], sameName);
    }
  }

  /** Right after `header(name, value)`, that header is the only one of its name. */
  lemma SetHeaderMatchesItself(before: seq<Header>, h: Header, sameName: NameEq)
    requires sameName(h.0, h.0)
    ensures Matching(SetHeader(before, h.0, h.1, sameName), h.0, sameName) == [h]
  {
    MatchingAppend(RemoveAll(before, h.0, sameName), [h], h.0, sameName);
    RemovedNameNotMatching(before, h.0, sameName);
  }

  /** `header` with another name leaves the only header of a name in place. */
  lemma SetHeaderKeepsOther(before: seq<Header>, h: Header, x: Header, sameName: NameEq)
    requires Matching(before, x.0, sameName) == [x]
    requires !sameName(h.0, x.0) && !sameName(x.0, h.0)
    ensures Matching(SetHeader(before, h.0, h.1, sameName), x.0, sameName) == [x]
  {
    MatchingAppend(RemoveAll(before, h.0, sameName), [h], x.0, sameName);
    MatchingRemoveAll(before, h.0, x.0, sameName);
  }

  /**
   * With additional header names pairwise different under `sameName` (for
   * the keys of a map compared ignoring case, when no two keys differ only in
   * case; `AdditionalHeaderWins` is the general statement),
   * each additional header is the one and only header of its name.
   */
  lemma DistinctAdditionalHeadersWin(callerHeaders: seq<Header>, additional: seq<Header>, sameName: NameEq)
    requires IsNameEquivalence(sameName)
    requires forall i, j :: 0 <= i < j < |additional| ==> !sameName(additional[i].0, additional[j].0)
    ensures forall k :: 0 <= k < |additional| ==>
              Matching(SetAll(callerHeaders, additional, sameName), additional[k].0, sameName) == [additional[k]]
  {
    forall k | 0 <= k < |additional|
      ensures Matching(SetAll(callerHeaders, additional, sameName), additional[k].0, sameName) == [additional[k]]
    {
      forall j | k < j < |additional|
        ensures !sameName(additional[j].0, additional[k].0)
      {
        assert !sameName(additional[k].0, additional[j].0);
      }
      AdditionalHeaderWins(callerHeaders, additional, k, sameName);
    }
  }

  // ---------------------------------------------------------------------------
  // Response headers
  // ---------------------------------------------------------------------------

  /** The response headers whose name is not `null`, in their original order. */
  function NamedHeaders(raw: seq<RawHeader>): (hs: seq<Header>)
    ensures |hs| <= |raw|
    ensures forall h :: h in hs <==> (Some(h.0), h.1) in raw
    decreases |raw|
  {
    if raw == [] then []
    else
      var last := raw[|raw| - 1];
      NamedHeaders(raw[..|raw| - 1]) + (if last.0.Some? then [(last.0.value, last.1)] else [])
  }

  /** Copying distributes over concatenation: the copy keeps the original order. */
  lemma {:induction false} NamedHeadersAppend(a: seq<RawHeader>, b: seq<RawHeader>)
    ensures NamedHeaders(a + b) == NamedHeaders(a) + NamedHeaders(b)
    decreases |b|
  {
    if b == [] {
      assert a + b == a;
    } else {
      var prefix := b[..|b| - 1];
      assert (a + b)[..|a + b| - 1] == a + prefix;
      assert (a + b)[|a + b| - 1] == b[|b| - 1];
      NamedHeadersAppend(a, prefix);
    }
  }

  /** The response-header loop of `performRequest`. */
  method CopyResponseHeaders(raw: seq<RawHeader>) returns (hs: seq<Header>)
    ensures hs == NamedHeaders(raw)
  {
    hs := [];
    var i := 0;
    while i < |raw|
      invariant 0 <= i <= |raw|
      invariant hs == NamedHeaders(raw[..i])
    {
      assert raw[..i + 1][..i] == raw[..i];
      var name, value := raw[i].0, raw[i].1;
      if name.Some? {
        hs := hs + [(name.value, value)];
      }
      i := i + 1;
    }
    assert raw[..i] == raw;
  }

  // ---------------------------------------------------------------------------
  // The whole exchange
  // ---------------------------------------------------------------------------

  /** The OkHttp request `performRequest` builds, or the exception that stops it first. */
  function BuildOkRequest(r: Request, additional: seq<Header>, sameName: NameEq): (b: Result<OkRequest, StackError>)
    ensures b.Failure? <==> !IsKnownMethod(r.methodCode)
    ensures b.Success? ==> b.value.url == r.url
  {
    match SetConnectionParametersForRequest(r)
    case Failure(e) => Failure(e)
    case Success(d) =>
      Success(OkRequest(r.url, SetAll(r.headers, additional, sameName), d.verb.GetOr(DEFAULT_VERB), d.body))
  }

  /** The Apache response built from an OkHttp response, or the protocol error. */
  function NormalizeResponse(raw: RawResponse): (r: Result<HttpResponse, StackError>)
    ensures r.Failure? <==> raw.protocol.OtherProtocol?
    ensures r.Success? ==>
              && ProtocolOf(r.value.status.version) == Some(raw.protocol)
              && r.value.status.code == raw.code
              && r.value.status.reason == raw.message
              && r.value.headers == NamedHeaders(raw.headers)
  {
    match ParseProtocol(raw.protocol)
    case Failure(e) => Failure(e)
    case Success(v) => Success(HttpResponse(StatusLine(v, raw.code, raw.message), NamedHeaders(raw.headers)))
  }

  /**
   * What `performRequest` returns, with the network as a function from the
   * request sent to the response received (`None` for an `IOException`).
   */
  function Exchange(r: Request, additional: seq<Header>, sameName: NameEq, network: OkRequest -> Option<RawResponse>)
    : (res: Result<HttpResponse, StackError>)
    ensures res == Failure(UnknownMethodType) <==> !IsKnownMethod(r.methodCode)
    ensures res == Failure(TransportFailure) <==>
              IsKnownMethod(r.methodCode) && network(BuildOkRequest(r, additional, sameName).value).None?
    ensures res.Success? ==>
              && IsKnownMethod(r.methodCode)
              && var raw := network(BuildOkRequest(r, additional, sameName).value);
                 raw.Some? && !raw.value.protocol.OtherProtocol?
                 && res.value.status.code == raw.value.code
                 && res.value.headers == NamedHeaders(raw.value.headers)
  {
    match BuildOkRequest(r, additional, sameName)
    case Failure(e) => Failure(e)
    case Success(sent) =>
      match network(sent)
      case None => Failure(TransportFailure)
      case Some(raw) => NormalizeResponse(raw)
  }

  /** An unknown method code fails before anything reaches the network. */
  lemma UnknownMethodNeverSent(r: Request, additional: seq<Header>, sameName: NameEq,
                               network1: OkRequest -> Option<RawResponse>, network2: OkRequest -> Option<RawResponse>)
    requires !IsKnownMethod(r.methodCode)
    ensures Exchange(r, additional, sameName, network1) == Failure(UnknownMethodType)
    ensures Exchange(r, additional, sameName, network1) == Exchange(r, additional, sameName, network2)
  {
  }

  /** A deprecated-code request without a post body goes out as a bodiless GET. */
  lemma DeprecatedWithoutBodyIsGet(r: Request, additional: seq<Header>, sameName: NameEq)
    requires r.methodCode == DEPRECATED_GET_OR_POST && r.postBody.None?
    ensures BuildOkRequest(r, additional, sameName)
         == Success(OkRequest(r.url, SetAll(r.headers, additional, sameName), "GET", None))
  {
  }

  /** A POST always goes out with a body: the request's own, or an empty one. */
  lemma PostAlwaysHasBody(r: Request, additional: seq<Header>, sameName: NameEq)
    requires r.methodCode == POST
    ensures BuildOkRequest(r, additional, sameName).Success?
    ensures BuildOkRequest(r, additional, sameName).value.verb == "POST"
    ensures BuildOkRequest(r, additional, sameName).value.body == Some(RequestBody(r.bodyContentType, r.body.GetOr([])))
  {
  }

  /** OkHttp's client; only the three timeouts it is built with are modelled. */
  class OkHttpClient {
    const connectTimeoutMs: int
    const readTimeoutMs: int
    const writeTimeoutMs: int

    constructor (timeoutMs: int)
      ensures connectTimeoutMs == timeoutMs && readTimeoutMs == timeoutMs && writeTimeoutMs == timeoutMs
    {
      connectTimeoutMs, readTimeoutMs, writeTimeoutMs := timeoutMs, timeoutMs, timeoutMs;
    }
  }

  /** The stack: it owns the lazily built client. */
  class OkHttpStack {
    var client: OkHttpClient?
    /** How many clients this stack has built. */
    ghost var constructions: nat

    /** A client is built at most once, and exactly when the field is set. */
    ghost predicate Valid()
      reads this
    {
      constructions == (if client == null then 0 else 1)
    }

    constructor ()
      ensures Valid() && client == null
    {
      client := null;
      constructions := 0;
    }

    /**
     * `getClient`: builds the client with the given timeout on the first
     * call and returns that same client on every later call, whatever
     * timeout they pass.
     */
    method GetClient(timeoutMs: int) returns (c: OkHttpClient)
      requires Valid()
      modifies this
      ensures Valid() && client == c
      ensures old(client) == null ==>
                fresh(c) && c.connectTimeoutMs == timeoutMs && c.readTimeoutMs == timeoutMs && c.writeTimeoutMs == timeoutMs
      ensures old(client) != null ==> c == old(client) && constructions == old(constructions)
    {
      if client == null {
        client := new OkHttpClient(timeoutMs);
        constructions := constructions + 1;
      }
      c := client;
    }

    /**
     * `performRequest`: makes sure the client exists, builds the OkHttp
     * request, sends it and converts the response.
     */
    method PerformRequest(request: Request, additionalHeaders: seq<Header>, sameName: NameEq,
                          network: OkRequest -> Option<RawResponse>)
      returns (r: Result<HttpResponse, StackError>)
      requires Valid()
      modifies this
      ensures Valid() && client != null
      ensures old(client) != null ==> client == old(client)
      ensures old(client) == null ==>
                fresh(client) && client.connectTimeoutMs == request.timeoutMs
                && client.readTimeoutMs == request.timeoutMs && client.writeTimeoutMs == request.timeoutMs
      ensures r == Exchange(request, additionalHeaders, sameName, network)
    {
      var c := GetClient(request.timeoutMs);
      var headers := AssembleHeaders(request.headers, additionalHeaders, sameName);
      var dispatch := SetConnectionParametersForRequest(request);
      if dispatch.Failure? {
        return Failure(dispatch.error);
      }
      var sent := OkRequest(request.url, headers, dispatch.value.verb.GetOr(DEFAULT_VERB), dispatch.value.body);
      var received := network(sent);
      if received.None? {
        return Failure(TransportFailure);
      }
      var raw := received.value;
      var version := ParseProtocol(raw.protocol);
      if version.Failure? {
        return Failure(version.error);
      }
      var responseHeaders := CopyResponseHeaders(raw.headers);
      r := Success(HttpResponse(StatusLine(version.value, raw.code, raw.message), responseHeaders));
    }
  }

  /** Two `getClient` calls with different timeouts return the one client built by the first. */
  method LaterTimeoutIgnored(stack: OkHttpStack, firstTimeoutMs: int, laterTimeoutMs: int)
    returns (first: OkHttpClient, later: OkHttpClient)
    requires stack.Valid()
    modifies stack
    ensures stack.Valid() && first == later
    ensures old(stack.client) == null ==>
              && later.connectTimeoutMs == firstTimeoutMs
              && later.readTimeoutMs == firstTimeoutMs
              && later.writeTimeoutMs == firstTimeoutMs
    ensures old(stack.client) != null ==> first == old(stack.client)
  {
    first := stack.GetClient(firstTimeoutMs);
    later := stack.GetClient(laterTimeoutMs);
  }
}
