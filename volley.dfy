/**
 * The parts of Volley's abstract `Request` that the adapter reads.
 * Volley itself is not part of this model; only the values it hands over are.
 */
module Volley {
  import opened Wrappers

  type Byte = bv8
  type Bytes = seq<Byte>

  /** A header as a (name, value) pair. */
  type Header = (string, string)

  // Volley's `Request.Method` codes. A request's method is a plain `int`,
  // so any other value can reach the adapter's dispatch.
  const DEPRECATED_GET_OR_POST: int := -1
  const GET: int := 0
  const POST: int := 1
  const PUT: int := 2
  const DELETE: int := 3
  const HEAD: int := 4
  const OPTIONS: int := 5
  const TRACE: int := 6
  const PATCH: int := 7

  /**
   * What the adapter reads from a Volley request. `headers` is `getHeaders()`
   * given as its entries in the map's iteration order; `body` is `getBody()`
   * and `postBody` is the deprecated `getPostBody()`, `None` standing for `null`.
   */
  datatype Request = Request(
    methodCode: int,
    url: string,
    timeoutMs: int,
    headers: seq<Header>,
    body: Option<Bytes>,
    bodyContentType: string,
    postBody: Option<Bytes>,
    postBodyContentType: string)
}
