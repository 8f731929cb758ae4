# OkHttp stack and multipart request for Volley, modelled in Dafny

The repository holds two small Android adapters. `OkHttpStack` is a Volley
`HttpStack` that sends Volley requests through OkHttp. `MultipartRequest` is a
Volley request whose body is an OkHttp multipart/form-data body.

This project models the decision and bookkeeping logic of both and proves
properties of it:

- `OkHttpAdapter` (`okhttp_stack.dfy`) models `OkHttpStack`:
  - the method switch, which maps a Volley method code to one builder call (a verb and a body);
  - `createRequestBody`, where a missing POST body becomes an empty one;
  - `parseProtocol`;
  - the two header loops: caller headers are appended, then additional headers replace every same-named header;
  - the response-header loop, which skips headers whose name is null;
  - the lazily built client held by the `OkHttpStack` class.
- `Multipart` (`multipart_request.dfy`) models `MultipartRequest`. It is a class whose part list only grows at the end. Each `add*` method appends parts of a fixed shape. `buildRequest` takes a snapshot of the list, and `getBody` rebuilds that snapshot on every call.
- `Volley` (`volley.dfy`) holds the request fields the adapter reads and Volley's `Request.Method` codes (-1 for the deprecated GET-or-POST, then 0 to 7 for GET, POST, PUT, DELETE, HEAD, OPTIONS, TRACE, PATCH). These codes are Volley's public constants. Volley's source is not part of this model.
- `Wrappers` (`wrappers.dfy`) holds `Option`, which stands for Java's `null`, and `Result`, which stands for a thrown exception.

Things outside the adapter are passed in as parameters:

- Header-name equality is decided by OkHttp. It is the parameter `sameName`. The lemmas assume only that it is reflexive and symmetric.
- A Java `Map` is given as the sequence of its entries in iteration order. `addStringParams` receives a real `map`. It visits the keys in an order it chooses itself, and returns that order as a ghost result, because a `HashMap`'s iteration order is unspecified.
- The network is the parameter `network`, a function from the request sent to the response received. `None` is an `IOException`.
- OkHttp's byte serialisation of a multipart body is the parameter `writeTo`.

## Model

| member | source | states |
|---|---|---|
| `OkHttpAdapter.CreateRequestBody` | android-social-app-sample/OkHttpStack.java:137-150 | The body is absent exactly when the request has none and the method is not POST. A present body carries the request's content type and the request's bytes, or no bytes for a POST without a body. |
| `OkHttpAdapter.SetConnectionParametersForRequest` | android-social-app-sample/OkHttpStack.java:79-120 | It fails with "unknown method type" exactly for codes outside the switch. Every verb it sets maps back to the method code it was chosen for. GET, DELETE, HEAD, OPTIONS and TRACE get no body, whatever the request carries. POST, PUT and PATCH get `createRequestBody`'s result. The deprecated code sets POST with the post body when there is one, and no verb at all otherwise. |
| `OkHttpAdapter.ParseProtocol` | android-social-app-sample/OkHttpStack.java:122-135 | It fails with "unknown protocol" exactly for protocols outside the four listed. Each listed protocol gets a version that the independent reverse table maps back to it: HTTP/1.0, HTTP/1.1, SPDY/3.1 and HTTP/2.0. |
| `OkHttpAdapter.RemoveAllMembers` | android-social-app-sample/OkHttpStack.java:38-41 | OkHttp's `removeAll` as used by `header()`: it keeps exactly the headers whose name differs from the given one. |
| `OkHttpAdapter.SetHeaderMembers` | android-social-app-sample/OkHttpStack.java:40 | After `header(name, value)` the headers are exactly the new one and the old headers with a different name. |
| `OkHttpAdapter.MatchingMembers` | android-social-app-sample/OkHttpStack.java:38-41 | Selecting the headers of a name keeps exactly the headers of that name. |
| `OkHttpAdapter.SetAllMembers` | android-social-app-sample/OkHttpStack.java:38-41 | Every header after the additional-header loop comes from the caller headers or from the additional headers. |
| `OkHttpAdapter.AssembleHeaders` | android-social-app-sample/OkHttpStack.java:34-41 | Both header loops together give the caller headers with each additional header then set in turn. |
| `OkHttpAdapter.KeepUnmatchedMembers` | android-social-app-sample/OkHttpStack.java:34-41 | The caller headers that survive the additional-header loop are exactly those whose name no additional header shares. |
| `OkHttpAdapter.MergedHeadersShape` | android-social-app-sample/OkHttpStack.java:34-41 | The assembled headers are the caller headers that no additional name overrides, in their order, followed by the additional headers' own result. |
| `OkHttpAdapter.CallerHeadersKept` | android-social-app-sample/OkHttpStack.java:34-37 | Caller headers whose names are not among the additional names keep their values and relative order, duplicates included. |
| `OkHttpAdapter.AdditionalHeaderWins` | android-social-app-sample/OkHttpStack.java:38-41 | An additional header whose name no later additional header shares is the only header of that name in the result. |
| `OkHttpAdapter.DistinctAdditionalHeadersWin` | android-social-app-sample/OkHttpStack.java:38-41 | When the additional names are pairwise different under the header-name equality, every additional name occurs exactly once and carries the additional value. For a map's keys compared ignoring case, this holds when no two keys differ only in case. `AdditionalHeaderWins` is the general statement, which covers the last of several same-named keys. |
| `OkHttpAdapter.MatchingRemoveAll` | android-social-app-sample/OkHttpStack.java:40 | Selecting the headers of one name commutes with removing the headers of another. |
| `OkHttpAdapter.NamedHeaders` | android-social-app-sample/OkHttpStack.java:54-60 | The copied headers are exactly the response headers with a non-null name, and there are never more of them than response headers. |
| `OkHttpAdapter.NamedHeadersAppend` | android-social-app-sample/OkHttpStack.java:54-60 | The copy distributes over concatenation, so the original order is kept. |
| `OkHttpAdapter.CopyResponseHeaders` | android-social-app-sample/OkHttpStack.java:54-60 | The index loop over the response headers computes `NamedHeaders`. |
| `OkHttpAdapter.BuildOkRequest` | android-social-app-sample/OkHttpStack.java:31-44 | A request is built, carrying the Volley request's URL, exactly when the method code is known. |
| `OkHttpAdapter.NormalizeResponse` | android-social-app-sample/OkHttpStack.java:48-60 | The response fails exactly for an unlisted protocol. Otherwise it keeps the code and the message, its version maps back to the response's protocol, and its headers are the named response headers. |
| `OkHttpAdapter.UnknownMethodNeverSent` | android-social-app-sample/OkHttpStack.java:117-118 | A request with an unknown method code fails with "unknown method type" whatever the network would answer, so nothing is sent. |
| `OkHttpAdapter.DeprecatedWithoutBodyIsGet` | android-social-app-sample/OkHttpStack.java:84-92 | A deprecated-code request without a post body goes out as a bodiless GET, the builder's default. |
| `OkHttpAdapter.PostAlwaysHasBody` | android-social-app-sample/OkHttpStack.java:137-150 | A POST always goes out with a body: the request's own, or an empty one. |
| `OkHttpAdapter.OkHttpStack.constructor` | android-social-app-sample/OkHttpStack.java:7-11 | A new stack holds no client and has built none. |
| `OkHttpAdapter.Exchange` | android-social-app-sample/OkHttpStack.java:27-63 | `performRequest` as a function of the request and the network. It fails with "unknown method type" exactly for an unknown method code. It fails with a transport error exactly when the code is known and the network gives no response. A success means the network answered with a listed protocol, and it carries that response's code and named headers. |
| `OkHttpAdapter.OkHttpStack.GetClient` | android-social-app-sample/OkHttpStack.java:12-24 | The first call builds a fresh client with the given timeout for connect, read and write. Every later call returns that same client and builds nothing. |
| `OkHttpAdapter.OkHttpStack.PerformRequest` | android-social-app-sample/OkHttpStack.java:27-63 | The client exists afterwards, and an existing client is kept. A client this call builds uses the request's timeout for connect, read and write. The result is the request built, sent and normalised, or the first error on the way. |
| `OkHttpAdapter.LaterTimeoutIgnored` | android-social-app-sample/OkHttpStack.java:12-24 | Two `getClient` calls with different timeouts return the same client. When there was no client before, it is built with the first timeout for connect, read and write. When there was one, both calls return it. |
| `Multipart.TextPartReadsBack` | android-social-app-sample/MultipartRequest.java:41-45 | A text part reads back, as `DispositionName` parses it, as field `key` holding `value` with type `text/plain`, for every key. The key is written verbatim into `form-data; name="…"`. |
| `Multipart.AttachmentPart` | android-social-app-sample/MultipartRequest.java:53-55 | An attachment's field name is always "file". The key becomes its file name, and its body is the given file with the given content type. |
| `Multipart.EntryPartAt` | android-social-app-sample/MultipartRequest.java:28-34 | The i-th map entry visited gives the i-th added part, with that entry's key as the field name and its value as the text. |
| `Multipart.EachEntryOnePart` | android-social-app-sample/MultipartRequest.java:28-34 | Among the parts added for a map, each key of the map names exactly one part, as `DispositionName` parses the field names, and that part holds the key's value. |
| `Multipart.EarlierPartsKept` | android-social-app-sample/MultipartRequest.java:28-55 | After any sequence of calls, what the earlier calls appended is a prefix of the final part list. No call removes or reorders parts. |
| `Multipart.SnapshotCallsAddNothing` | android-social-app-sample/MultipartRequest.java:61-82 | `buildRequest` and `getBody` leave the part list unchanged. |
| `Multipart.MultipartRequest.constructor` | android-social-app-sample/MultipartRequest.java:11-22 | A new request is a POST with a FORM builder, no parts and no built body. |
| `Multipart.MultipartRequest.AddStringParam` | android-social-app-sample/MultipartRequest.java:41-45 | It appends exactly one text part for the key and value, and nothing else changes. |
| `Multipart.MultipartRequest.AddStringParams` | android-social-app-sample/MultipartRequest.java:28-34 | It appends one text part per map entry, in an iteration order that lists each entry once. The list grows by the map's size, and nothing else changes. |
| `Multipart.MultipartRequest.AddAttachment` | android-social-app-sample/MultipartRequest.java:53-55 | It appends exactly one part, under field name "file", and nothing else changes. |
| `Multipart.MultipartRequest.BuildRequest` | android-social-app-sample/MultipartRequest.java:61-63 | The built body is a snapshot of the builder's type and parts. The parts are not altered. |
| `Multipart.MultipartRequest.GetBody` | android-social-app-sample/MultipartRequest.java:71-82 | Each call rebuilds the snapshot from the current parts and returns its serialisation. The parts are not altered. |
| `Multipart.BodyReadsAgree` | android-social-app-sample/MultipartRequest.java:71-82 | Two body reads in a row serialise the same snapshot, built from unchanged parts, and so return the same bytes. The serialisation is a function of the snapshot, so file contents count as fixed between the reads. |
| `Multipart.UploadExample` | android-social-app-sample/MultipartRequest.java:16-63 | A text field "name" followed by a JPEG attachment gives two parts in that order: "name" holding "Alice", then "file" with file name "photo.jpg". |

## Left out

- The construction details of OkHttp's client are left out. This covers the cookie jar, `PersistentCookieJar`, `SharedPreferences` and the `Context`, which are all library or platform objects. Only the three timeouts are kept.
- The `synchronized` on `getClient` is left out: concurrency is not modelled. The model covers only sequential, at-most-once construction.
- `newCall(...).execute()` and `entityFromOkHttpResponse` (the body stream, content length, encoding and type) are network I/O and library stream objects. The network is a function parameter, and the response's entity is not modelled.
- `MediaType.parse` is library code. Content types are kept as the strings the request reports.
- What OkHttp itself does with the builder calls is library behaviour and is not modelled. For example, it rejects `put(null)` and `patch(null)`, and it gives `delete()` an empty body. The model states the calls the adapter makes.
- `getBody` of the Volley request may throw `AuthFailureError`, which belongs to Volley. The model treats the body as a given value.
- Multipart boundary generation, byte serialisation (`writeTo`) and `getBodyContentType` (`contentType().toString()`) live inside OkHttp. `writeTo` is an opaque function parameter, and `getBodyContentType` is not modelled.
- OkHttp's own refusal to build a multipart body with no parts is library behaviour and is not modelled.
- The `IOException` caught and logged in `getBody` is I/O failure handling, and is not modelled.
- How OkHttp writes the disposition of `addFormDataPart`, including its quoting of the file name, is not visible. An attachment part keeps the field name and the file name as values.
- `parseNetworkResponse` (charset parsing and its fallback, cache headers), `deliverResponse`, the `setRetryPolicy` pass-through and the unused public field `key` are Volley helpers and callbacks or unused state, and are left out.
- `Multipart.BodyReadsAgree`: file contents are treated as fixed between body reads. `writeTo` is a function of the snapshot, which holds only the file's name. In the source, each `writeTo` reads the attached file from disk again. A file that changes or disappears between two `getBody` calls gives different bytes, or a truncated buffer once the `IOException` is swallowed.
- `Headers.of` checks the disposition value it is given. It rejects a NUL character, and later OkHttp 3.x releases also reject non-ASCII characters in the key. This is library validation and is not modelled, so `TextPartReadsBack` holds for keys OkHttp would refuse.
- `RequestBody.create(MEDIA_TYPE_TEXT_PLAIN, value)` turns the type into `text/plain; charset=utf-8`. The model keeps the type as `text/plain`.
- Field names are read back by `DispositionName`, which strips the fixed prefix and the last quote. The source writes the key with no escaping, so a key holding `"` gives a disposition that a form-data receiver reads as another field, or as a file part. For example, the key `a"; filename="b` is read as field `a` with file name `b`. `TextPartReadsBack` and `EachEntryOnePart` hold for the model's parser, not for such a receiver.
- OkHttp's `addHeader` and `header` check header names and values, and trim the value. This is not modelled, so `CallerHeadersKept` and `DistinctAdditionalHeadersWin` speak of the strings given to the builder, not of the strings OkHttp stores.
