/** The gate composed with a document view. The views of api/views.py are
    not decorated with `token_required` in the source; this module states
    what the composition would guarantee: a rejected request never reaches
    the document service. `wrapped` is a coroutine that ends in
    `await func(...)`, while the four views are plain functions; `Serve`
    assumes views that can be awaited, and takes the awaited result as the
    view's outcome. */
module Pipeline {
  import opened Payload
  import opened Decorators
  import opened Views

  /** An inbound request: its `Authorization` header and the view call it
      is routed to. */
  datatype InboundRequest = InboundRequest(authorization: Option<string>, call: Call)

  /** The view for `request.call`, wrapped by `token_required`. The view
      object is not modelled, so `self` is `()`; the service base URL, a
      module global in api/views.py, is captured by the view itself. */
  function Serve(base: string, decode: Decoder, secret: string,
                 exchange: UpstreamRequest -> Exchange, request: InboundRequest): (o: Outcome)
    ensures Authenticate(HeaderValue(request.authorization), decode, secret).Admitted? ==>
      o == Handle(base, request.call, exchange)
    // In short, as for `Wrapped`; the two clauses after this one say which.
    ensures !Authenticate(HeaderValue(request.authorization), decode, secret).Admitted? ==>
      (o.Respond? && o.response.status == 401 && o.response.data.Keys == {"error"})
      || o == Raise(JwtError)
    ensures var v := Authenticate(HeaderValue(request.authorization), decode, secret);
      v.MissingToken? || v.Expired? || v.Invalid? ==> o == Respond(Rejection(v))
    ensures Authenticate(HeaderValue(request.authorization), decode, secret).Escaped? ==>
      o == Raise(JwtError)
  {
    Wrapped((self: (), q: InboundRequest, args: ()) => Handle(base, q.call, exchange),
            (q: InboundRequest) => q.authorization, decode, secret, (), request, ())
  }

  /** Fail fast: when the gate refuses, the document service is not asked,
      so any two services give the same outcome. */
  lemma RejectedNeverReachesUpstream(base: string, decode: Decoder, secret: string,
                                     e1: UpstreamRequest -> Exchange, e2: UpstreamRequest -> Exchange,
                                     request: InboundRequest)
    requires !Authenticate(HeaderValue(request.authorization), decode, secret).Admitted?
    ensures Serve(base, decode, secret, e1, request) == Serve(base, decode, secret, e2, request)
  {
  }
}
