/**
 * The multipart upload request: a Volley POST whose body is an OkHttp
 * multipart/form-data body built from parts added one call at a time.
 *
 * OkHttp's `MultipartBody.Builder` is represented by its part list, which
 * only ever grows at the end. How OkHttp writes that list to bytes (the
 * boundary, the framing) is not visible here: it is the parameter `writeTo`.
 */
module Multipart {
  import opened Wrappers
  import opened Volley

  const MEDIA_TYPE_JPEG: string := "image/jpeg"
  const MEDIA_TYPE_PNG: string := "image/png"
  const MEDIA_TYPE_TEXT_PLAIN: string := "text/plain"

  /** The start of the disposition `addStringParam` writes, up to the field name. */
  const DISPOSITION_PREFIX: string := "form-data; name=\""

  /** OkHttp's multipart subtypes; a new builder starts as `MIXED`. */
  datatype MultipartType = MIXED | ALTERNATIVE | DIGEST | PARALLEL | FORM

  /** A file to attach, known by its path. */
  datatype File = File(path: string)

  /** `RequestBody.create(mediaType, ...)` over a string or over a file. */
  datatype PartBody =
    | StringBody(contentType: string, text: string)
    | FileBody(contentType: string, file: File)

  /**
   * A part of the multipart body: `addPart(headers, body)` gives the headers
   * verbatim; `addFormDataPart(name, filename, body)` lets OkHttp write the
   * disposition from the field name and file name.
   */
  datatype Part =
    | HeadedPart(headers: seq<Header>, body: PartBody)
    | FormDataPart(name: string, filename: string, body: PartBody)

  /** What `MultipartBody.Builder.build()` captures: the subtype and the parts so far. */
  datatype MultipartBody = MultipartBody(kind: MultipartType, parts: seq<Part>)

  /** The disposition written for a text field: the key goes in verbatim, without escaping. */
  function Disposition(key: string): string {
    DISPOSITION_PREFIX + key + "\""
  }

  /** Reads a field name back out of a disposition of the `Disposition` shape. */
  function DispositionName(disposition: string): Option<string> {
    var n := |DISPOSITION_PREFIX|;
    if n < |disposition| && disposition[..n] == DISPOSITION_PREFIX && disposition[|disposition| - 1] == '"'
    then Some(disposition[n..|disposition| - 1])
    else None
  }

  /**
   * The form field a part belongs to, as `DispositionName` parses it: the
   * fixed prefix and the last quote are stripped. A form-data receiver parses
   * parameters instead, so a key holding `"` can read differently there.
   */
  function FieldName(p: Part): Option<string> {
    match p
    case FormDataPart(name, _, _) => Some(name)
    case HeadedPart(hs, _) =>
      if |hs| == 1 && hs[0].0 == "Content-Disposition" then DispositionName(hs[0].1) else None
  }

  /** The file name a part carries, if any. */
  function FileName(p: Part): Option<string> {
    match p
    case FormDataPart(_, filename, _) => Some(filename)
    case HeadedPart(_, _) => None
  }

  /** The text a part carries, if it is a string part. */
  function TextValue(p: Part): Option<string> {
    match p.body
    case StringBody(_, text) => Some(text)
    case FileBody(_, _) => None
  }

  /**
   * The part `addStringParam(key, value)` adds: one `Content-Disposition`
   * header and a `text/plain` body holding the value.
   */
  function TextPart(key: string, value: string): Part {
    HeadedPart([("Content-Disposition", Disposition(key))], StringBody(MEDIA_TYPE_TEXT_PLAIN, value))
  }

  /**
   * A text part reads back, as `DispositionName` parses it, as the field
   * `key` holding `value` as plain text, for every key: the key is written
   * with no escaping and recovered by stripping the fixed prefix and the
   * closing quote.
   */
  lemma TextPartReadsBack(key: string, value: string)
    ensures FieldName(TextPart(key, value)) == Some(key)
    ensures FileName(TextPart(key, value)) == None
    ensures TextValue(TextPart(key, value)) == Some(value)
    ensures TextPart(key, value).body.contentType == MEDIA_TYPE_TEXT_PLAIN
  {
    var d := Disposition(key);
    var n := |DISPOSITION_PREFIX|;
    assert d[..n] == DISPOSITION_PREFIX;
    assert d[n..|d| - 1] == key;
  }

  /**
   * The part `addAttachment(contentType, key, file)` adds: the field name is
   * always "file"; `key` only becomes the file name.
   */
  function AttachmentPart(contentType: string, key: string, file: File): (p: Part)
    ensures FieldName(p) == Some("file")
    ensures FileName(p) == Some(key)
    ensures TextValue(p) == None
    ensures p.body == FileBody(contentType, file)
  {
    FormDataPart("file", key, FileBody(contentType, file))
  }

  /** The text parts for map entries, in the given iteration order. */
  function EntryParts(entries: seq<(string, string)>): (ps: seq<Part>)
    ensures |ps| == |entries|
    decreases |entries|
  {
    if entries == [] then []
    else
      var last := entries[|entries| - 1];
      EntryParts(entries[..|entries| - 1]) + [TextPart(last.0, last.1)]
  }

  /** The i-th entry gives the i-th part: its key is the field name, its value the text. */
  lemma {:induction false} EntryPartAt(entries: seq<(string, string)>, i: nat)
    requires i < |entries|
    ensures EntryParts(entries)[i] == TextPart(entries[i].0, entries[i].1)
    ensures FieldName(EntryParts(entries)[i]) == Some(entries[i].0)
    ensures TextValue(EntryParts(entries)[i]) == Some(entries[i].1)
    decreases |entries|
  {
    var prefix := entries[..|entries| - 1];
    if i < |prefix| {
      EntryPartAt(prefix, i);
      assert prefix[i] == entries[i];
    } else {
      TextPartReadsBack(entries[i].0, entries[i].1);
    }
  }

  /**
   * `entries` lists every entry of `m` exactly once, in some order: the
   * order a `HashMap` iterates in, which is unspecified.
   */
  ghost predicate IsIterationOrder(entries: seq<(string, string)>, m: map<string, string>) {
    && |entries| == |m|
    && (forall i :: 0 <= i < |entries| ==> entries[i].0 in m && m[entries[i].0] == entries[i].1)
    && DistinctKeys(entries)
    && KeysOf(entries) == m.Keys
  }

  /** No key is listed twice. */
  ghost predicate DistinctKeys(entries: seq<(string, string)>) {
    forall i, j :: 0 <= i < j < |entries| ==> entries[i].0 != entries[j].0
  }

  /** The keys an entry sequence lists. */
  ghost function KeysOf(entries: seq<(string, string)>): set<string> {
    set e | e in entries :: e.0
  }

  /** `entries` lists, once each, the entries of `m` whose keys are not in `rest`. */
  ghost predicate PartialIteration(entries: seq<(string, string)>, rest: set<string>, m: map<string, string>) {
    && rest <= m.Keys
    && |entries| + |rest| == |m|
    && (forall i :: 0 <= i < |entries| ==> entries[i].0 in m && m[entries[i].0] == entries[i].1)
    && DistinctKeys(entries)
    && KeysOf(entries) + rest == m.Keys
    && KeysOf(entries) !! rest
  }

  /** Visiting one more key of `rest` keeps the iteration partial and adds that entry's text part. */
  lemma IterationStep(entries: seq<(string, string)>, rest: set<string>, m: map<string, string>, key: string)
    requires PartialIteration(entries, rest, m) && key in rest
    ensures PartialIteration(entries + [(key, m[key])], rest - {key}, m)
    ensures EntryParts(entries + [(key, m[key])]) == EntryParts(entries) + [TextPart(key, m[key])]
  {
    var next := entries + [(key, m[key])];
    EntryStep(entries, (key, m[key]));
    MoveKey(KeysOf(entries), rest, m.Keys, key);
    forall i | 0 <= i < |next|
      ensures next[i].0 in m && m[next[i].0] == next[i].1
    {
      if i < |entries| {
        assert next[i] == entries[i];
      }
    }
  }

  /** Moving a key from the keys still to visit to the keys visited keeps the two a partition. */
  lemma MoveKey(visited: set<string>, rest: set<string>, all: set<string>, key: string)
    requires visited + rest == all && visited !! rest && key in rest
    ensures (visited + {key}) + (rest - {key}) == all && (visited + {key}) !! (rest - {key})
    ensures |rest - {key}| == |rest| - 1
  {
  }

  /** The loop state of `addStringParams`: the keys visited so far have added their parts after `base`. */
  ghost predicate AddProgress(base: seq<Part>, parts: seq<Part>, entries: seq<(string, string)>,
                              rest: set<string>, m: map<string, string>) {
    PartialIteration(entries, rest, m) && parts == base + EntryParts(entries)
  }

  /** One loop step of `addStringParams`: the next key's part lands after the parts already added. */
  lemma AddStringParamsStep(base: seq<Part>, parts: seq<Part>, entries: seq<(string, string)>,
                            rest: set<string>, m: map<string, string>, key: string)
    requires AddProgress(base, parts, entries, rest, m) && key in rest
    ensures AddProgress(base, parts + [TextPart(key, m[key])], entries + [(key, m[key])], rest - {key}, m)
    ensures |rest - {key}| < |rest|
  {
    IterationStep(entries, rest, m, key);
    AppendAssociates(base, EntryParts(entries), [TextPart(key, m[key])]);
  }

  /** Before the loop of `addStringParams` nothing is visited and nothing added. */
  lemma AddStringParamsStart(base: seq<Part>, m: map<string, string>)
    ensures AddProgress(base, base, [], m.Keys, m)
  {
    IterationStart(m);
  }

  /** After the loop of `addStringParams` every entry is visited and has added its part. */
  lemma AddStringParamsDone(base: seq<Part>, parts: seq<Part>, entries: seq<(string, string)>, m: map<string, string>)
    requires AddProgress(base, parts, entries, {}, m)
    ensures IsIterationOrder(entries, m) && parts == base + EntryParts(entries)
  {
    IterationComplete(entries, m);
  }

  /** Before the loop nothing is visited. */
  lemma IterationStart(m: map<string, string>)
    ensures PartialIteration([], m.Keys, m)
  {
    assert KeysOf([]) == {};
  }

  /** With nothing left to visit, the visited entries are an iteration order of the whole map. */
  lemma IterationComplete(entries: seq<(string, string)>, m: map<string, string>)
    requires PartialIteration(entries, {}, m)
    ensures IsIterationOrder(entries, m)
  {
  }

  lemma AppendAssociates(a: seq<Part>, b: seq<Part>, c: seq<Part>)
    ensures a + b + c == a + (b + c)
  {
  }

  /** One more entry adds its key and its text part at the end. */
  lemma EntryStep(entries: seq<(string, string)>, e: (string, string))
    requires DistinctKeys(entries) && e.0 !in KeysOf(entries)
    ensures DistinctKeys(entries + [e])
    ensures KeysOf(entries + [e]) == KeysOf(entries) + {e.0}
    ensures EntryParts(entries + [e]) == EntryParts(entries) + [TextPart(e.0, e.1)]
  {
    var next := entries + [e];
    assert next[..|next| - 1] == entries;
    assert forall x :: x in next <==> x in entries || x == e;
    forall i | 0 <= i < |entries|
      ensures next[i].0 != e.0
    {
      assert next[i] == entries[i] && entries[i] in entries;
    }
  }

  /**
   * In the parts for a map's entries, every key of the map names exactly one
   * part, and that part holds the key's value.
   */
  lemma EachEntryOnePart(entries: seq<(string, string)>, m: map<string, string>, key: string)
    requires IsIterationOrder(entries, m) && key in m
    ensures exists i :: 0 <= i < |entries| && FieldName(EntryParts(entries)[i]) == Some(key)
                     && TextValue(EntryParts(entries)[i]) == Some(m[key])
    ensures forall i, j :: 0 <= i < j < |entries| && FieldName(EntryParts(entries)[i]) == Some(key)
                     ==> FieldName(EntryParts(entries)[j]) != Some(key)
  {
    assert key in KeysOf(entries);
    var e :| e in entries && e.0 == key;
    var i :| 0 <= i < |entries| && entries[i] == e;
    EntryPartAt(entries, i);
    forall i, j | 0 <= i < j < |entries| && FieldName(EntryParts(entries)[i]) == Some(key)
      ensures FieldName(EntryParts(entries)[j]) != Some(key)
    {
      EntryPartAt(entries, i);
      EntryPartAt(entries, j);
    }
  }

  /** A public call on the request, with the map of `addStringParams` given by its iteration order. */
  datatype Call =
    | AddStringParamCall(key: string, value: string)
    | AddStringParamsCall(entries: seq<(string, string)>)
    | AddAttachmentCall(contentType: string, key: string, file: File)
    | BuildRequestCall
    | GetBodyCall

  /** The parts a call appends to the builder. */
  function Appended(c: Call): (ps: seq<Part>)
    ensures c.BuildRequestCall? || c.GetBodyCall? ==> ps == []
    ensures c.AddStringParamsCall? ==> |ps| == |c.entries|
  {
    match c
    case AddStringParamCall(key, value) => [TextPart(key, value)]
    case AddStringParamsCall(entries) => EntryParts(entries)
    case AddAttachmentCall(contentType, key, file) => [AttachmentPart(contentType, key, file)]
    case BuildRequestCall => []
    case GetBodyCall => []
  }

  /** The part list after a sequence of calls on a new request. */
  function PartsAfter(calls: seq<Call>): seq<Part>
    decreases |calls|
  {
    if calls == [] then []
    else PartsAfter(calls[..|calls| - 1]) + Appended(calls[|calls| - 1])
  }

  /** Later calls only add at the end: what earlier calls built stays in place, in order. */
  lemma {:induction false} EarlierPartsKept(calls: seq<Call>, i: nat)
    requires i <= |calls|
    ensures PartsAfter(calls[..i]) <= PartsAfter(calls)
    decreases |calls| - i
  {
    if i < |calls| {
      var longer := calls[..i + 1];
      assert longer[..i] == calls[..i];
      assert longer[..|longer| - 1] == calls[..i];
      EarlierPartsKept(calls, i + 1);
    } else {
      assert calls[..i] == calls;
    }
  }

  /** A build or a body read leaves the part list as it was. */
  lemma {:induction false} SnapshotCallsAddNothing(calls: seq<Call>, c: Call)
    requires c.BuildRequestCall? || c.GetBodyCall?
    ensures PartsAfter(calls + [c]) == PartsAfter(calls)
  {
    var all := calls + [c];
    assert all[..|all| - 1] == calls;
  }

  /** The volley request carrying the multipart body. */
  class MultipartRequest {
    /** The Volley method code, fixed by the constructor. */
    const methodCode: int
    const url: string
    /** The builder's multipart subtype, set once by the constructor. */
    const builderType: MultipartType
    /** The builder's accumulated parts. */
    var parts: seq<Part>
    /** The last body `buildRequest` built; `None` until it is first called. */
    var requestBody: Option<MultipartBody>

    /** A POST with a form-data builder and no parts yet. */
    constructor (url: string)
      ensures methodCode == POST && this.url == url
      ensures builderType == FORM && parts == [] && requestBody == None
    {
      methodCode := POST;
      this.url := url;
      builderType := FORM;
      parts := [];
      requestBody := None;
    }

    /** The body the builder would build now. */
    function Snapshot(): MultipartBody
      reads this
    {
      MultipartBody(builderType, parts)
    }

    /**
     * `addStringParams`: one text part per map entry, appended in the map's
     * iteration order, which the caller cannot choose; `entries` is that order.
     */
    method AddStringParams(params: map<string, string>) returns (ghost entries: seq<(string, string)>)
      modifies this
      ensures IsIterationOrder(entries, params)
      ensures parts == old(parts) + Appended(AddStringParamsCall(entries))
      ensures requestBody == old(requestBody)
    {
      ghost var base := parts;
      var rest := params.Keys;
      entries := [];
      AddStringParamsStart(base, params);
      while rest != {}
        invariant AddProgress(base, parts, entries, rest, params)
        invariant requestBody == old(requestBody)
        decreases |rest|
      {
        var key :| key in rest;
        AddStringParamsStep(base, parts, entries, rest, params, key);
        parts := parts + [TextPart(key, params[key])];
        entries := entries + [(key, params[key])];
        rest := rest - {key};
      }
      AddStringParamsDone(base, parts, entries, params);
    }

    /** `addStringParam`: one text part at the end. */
    method AddStringParam(key: string, value: string)
      modifies this
      ensures parts == old(parts) + Appended(AddStringParamCall(key, value))
      ensures requestBody == old(requestBody)
    {
      parts := parts + [TextPart(key, value)];
    }

    /** `addAttachment`: one file part at the end, under the field name "file". */
    method AddAttachment(contentType: string, key: string, file: File)
      modifies this
      ensures parts == old(parts) + Appended(AddAttachmentCall(contentType, key, file))
      ensures requestBody == old(requestBody)
    {
      parts := parts + [AttachmentPart(contentType, key, file)];
    }

    /** `buildRequest`: keeps a snapshot of the builder; the builder itself is unchanged. */
    method BuildRequest()
      modifies this
      ensures requestBody == Some(old(Snapshot()))
      ensures parts == old(parts)
    {
      requestBody := Some(MultipartBody(builderType, parts));
    }

    /** `getBody`: builds a fresh snapshot and returns its bytes. */
    method GetBody(writeTo: MultipartBody -> Bytes) returns (body: Bytes)
      modifies this
      ensures requestBody == Some(Snapshot()) && body == writeTo(Snapshot())
      ensures parts == old(parts)
    {
      BuildRequest();
      body := writeTo(requestBody.value);
    }
  }

  /** Reading the body twice gives the same bytes: both reads rebuild from the same parts. */
  method BodyReadsAgree(request: MultipartRequest, writeTo: MultipartBody -> Bytes)
    returns (first: Bytes, second: Bytes)
    modifies request
    ensures first == second && second == writeTo(old(request.Snapshot()))
  {
    first := request.GetBody(writeTo);
    second := request.GetBody(writeTo);
  }

  /** A text field followed by a photo gives two parts in that order, the photo under "file". */
  method UploadExample(photo: File) returns (request: MultipartRequest)
    ensures fresh(request)
    ensures request.methodCode == POST && request.builderType == FORM
    ensures |request.parts| == 2
    ensures FieldName(request.parts[0]) == Some("name") && TextValue(request.parts[0]) == Some("Alice")
    ensures FieldName(request.parts[1]) == Some("file") && FileName(request.parts[1]) == Some("photo.jpg")
    ensures request.requestBody == Some(request.Snapshot())
  {
    request := new MultipartRequest("https://example.invalid/upload");
    ghost var entries := request.AddStringParams(map["name" := "Alice"]);
    request.AddAttachment(MEDIA_TYPE_JPEG, "photo.jpg", photo);
    request.BuildRequest();
  }
}
