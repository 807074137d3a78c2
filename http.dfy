/** What one HTTP GET can come back with, as seen by the code that issued it.
    The transport, TLS, redirects and timeouts are not modelled: their effect
    is one of these replies. `B` is what the caller's body parser made of the
    body (goquery for the search pages, go-readability for scraped pages). */
module Http {

  const StatusOK: int := 200

  datatype Reply<B> =
    | RequestError(reason: string)            // http.NewRequestWithContext failed
    | TransportError(reason: string)          // client.Do failed (network error, timeout, cancellation)
    | Response(status: int, body: B)          // a response with its status code
}
