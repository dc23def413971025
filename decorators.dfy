/** The bearer-token gate `token_required` of api/decorators.py: it reads
    the `Authorization` header, cuts a token out of it, lets PyJWT decode
    the token, and only then calls the wrapped handler. */
module Decorators {
  import opened PyText
  import opened Payload

  const BearerPrefix := "Bearer "
  const MissingMessage := "Токен не предоставлен."
  const ExpiredMessage := "Срок действия токена истёк."
  const InvalidMessage := "Невалидный токен."

  /** The exception classes an exception raised by `jwt.decode` can be an
      instance of. In PyJWT, `ExpiredSignatureError` derives from
      `InvalidTokenError`; an error such as `InvalidKeyError` derives from
      neither. */
  datatype ErrorClass = ExpiredSignatureError | InvalidTokenError | OtherError(name: string)

  /** What `jwt.decode(token, secret, algorithms=["HS256"])` does: return
      the payload, or raise an exception that is an instance of exactly the
      classes in `classes`. */
  datatype DecodeOutcome = Decoded(payload: Object) | Raised(classes: set<ErrorClass>)

  /** `jwt.decode`, taken as an oracle of the token and the secret. */
  type Decoder = (string, string) -> DecodeOutcome

  /** `request.headers.get("Authorization", "")` */
  function HeaderValue(header: Option<string>): (v: string)
    ensures header.None? ==> v == ""
    ensures header.Some? ==> v == header.value
  {
    match header
    case None => ""
    case Some(v) => v
  }

  /** `auth_header.replace("Bearer ", "").strip()`: every occurrence of the
      prefix is cut out, not only the leading one, and the rest is stripped. */
  function ExtractToken(header: string): (token: string)
    ensures |token| <= |header|
    ensures token == [] || (!IsSpace(token[0]) && !IsSpace(token[|token| - 1]))
  {
    Strip(RemoveAll(header, BearerPrefix))
  }

  /** The usual header: the prefix once, then a token that does not itself
      contain it. */
  lemma ExtractTokenUsual(t: string)
    requires !Occurs(t, BearerPrefix)
    ensures ExtractToken(BearerPrefix + t) == Strip(t)
  {
    RemoveAllLeading(BearerPrefix, t);
  }

  /** Occurrences in the middle are removed too. */
  lemma {:induction false} ExtractTokenRemovesEveryPrefix(h: string)
    requires h == "Bearer aBearer b"
    ensures ExtractToken(h) == "ab"
  {
    var pat := BearerPrefix;
    assert h == pat + (['a'] + (pat + "b"));
    RemoveAllLeading(pat, ['a'] + (pat + "b"));
    assert (['a'] + (pat + "b"))[0] != pat[0];
    RemoveAllKeeps('a', pat + "b", pat);
    RemoveAllLeading(pat, "b");
    assert RemoveAll("b", pat) == "b";
    assert RemoveAll(h, pat) == ['a'] + "b";
    assert ['a'] + "b" == "ab";
    StripSurrounded([], "ab", []);
    assert [] + "ab" + [] == "ab";
  }

  /** A prefix followed by nothing but whitespace leaves no token. */
  lemma {:induction false} ExtractTokenBlank(w: string)
    requires AllSpace(w)
    ensures ExtractToken(BearerPrefix + w) == ""
  {
    SpacesHoldNoPrefix(w);
    ExtractTokenUsual(w);
  }

  lemma {:induction false} SpacesHoldNoPrefix(w: string)
    requires AllSpace(w)
    ensures !Occurs(w, BearerPrefix)
    decreases |w|
  {
    if |BearerPrefix| <= |w| {
      assert w[..|BearerPrefix|][0] == w[0];
      assert IsSpace(w[0]) && !IsSpace(BearerPrefix[0]);
      SpacesHoldNoPrefix(w[1..]);
    }
  }

  /** The outcome of the checks in `wrapped`, in the order it makes them. */
  datatype Verdict =
    | MissingToken
    | Expired
    | Invalid
    | Escaped(classes: set<ErrorClass>)
    | Admitted(token: string, payload: Object)

  /** The checks of `wrapped`: the exact, case-sensitive prefix, a non-empty
      token, then the decode, where the `except ExpiredSignatureError`
      clause is tried before `except InvalidTokenError`. */
  function Authenticate(header: string, decode: Decoder, secret: string): (v: Verdict)
    ensures v.MissingToken? <==> !StartsWith(header, BearerPrefix) || ExtractToken(header) == ""
    ensures v.Admitted? <==>
      StartsWith(header, BearerPrefix) && ExtractToken(header) != ""
      && decode(ExtractToken(header), secret).Decoded?
    ensures v.Admitted? ==>
      v.token == ExtractToken(header) && v.token != "" && decode(v.token, secret) == Decoded(v.payload)
    ensures v.Expired? <==>
      StartsWith(header, BearerPrefix) && ExtractToken(header) != ""
      && decode(ExtractToken(header), secret).Raised?
      && ExpiredSignatureError in decode(ExtractToken(header), secret).classes
    ensures v.Invalid? <==>
      StartsWith(header, BearerPrefix) && ExtractToken(header) != ""
      && decode(ExtractToken(header), secret).Raised?
      && ExpiredSignatureError !in decode(ExtractToken(header), secret).classes
      && InvalidTokenError in decode(ExtractToken(header), secret).classes
    ensures v.Escaped? ==>
      v.classes == decode(ExtractToken(header), secret).classes
      && ExpiredSignatureError !in v.classes && InvalidTokenError !in v.classes
  {
    if !StartsWith(header, BearerPrefix) then
      MissingToken
    else
      var token := ExtractToken(header);
      if token == "" then
        MissingToken
      else
        match decode(token, secret)
        case Decoded(payload) => Admitted(token, payload)
        case Raised(classes) =>
          if ExpiredSignatureError in classes then Expired
          else if InvalidTokenError in classes then Invalid
          else Escaped(classes)
  }

  /** The 401 response `wrapped` returns for a rejection. */
  function Rejection(v: Verdict): (r: Response)
    requires v.MissingToken? || v.Expired? || v.Invalid?
    ensures r.status == 401 && r.data.Keys == {"error"}
    ensures v.MissingToken? ==> r.data["error"] == JStr(MissingMessage)
    ensures v.Expired? ==> r.data["error"] == JStr(ExpiredMessage)
    ensures v.Invalid? ==> r.data["error"] == JStr(InvalidMessage)
  {
    match v
    case MissingToken => Single(401, "error", MissingMessage)
    case Expired => Single(401, "error", ExpiredMessage)
    case Invalid => Single(401, "error", InvalidMessage)
  }

  /** `token_required(func)` applied to `(self, request, *args, **kwargs)`:
      `headerOf` reads the `Authorization` header of a request, `args`
      stands for the remaining positional and keyword arguments. */
  function Wrapped<S, Q, A>(func: (S, Q, A) -> Outcome, headerOf: Q -> Option<string>,
                            decode: Decoder, secret: string,
                            self: S, request: Q, args: A): (o: Outcome)
    ensures Authenticate(HeaderValue(headerOf(request)), decode, secret).Admitted? ==>
      o == func(self, request, args)
    // In short, a request that is not admitted gets a 401 "error" body or
    // the escaping JWT error; the two clauses after this one say which.
    ensures !Authenticate(HeaderValue(headerOf(request)), decode, secret).Admitted? ==>
      (o.Respond? && o.response.status == 401 && o.response.data.Keys == {"error"})
      || o == Raise(JwtError)
    ensures var v := Authenticate(HeaderValue(headerOf(request)), decode, secret);
      v.MissingToken? || v.Expired? || v.Invalid? ==> o == Respond(Rejection(v))
    ensures Authenticate(HeaderValue(headerOf(request)), decode, secret).Escaped? ==>
      o == Raise(JwtError)
  {
    var v := Authenticate(HeaderValue(headerOf(request)), decode, secret);
    match v
    case Admitted(_, _) => func(self, request, args)
    case Escaped(_) => Raise(JwtError)
    case _ => Respond(Rejection(v))
  }

  /** A request with no `Authorization` header is refused as carrying no
      token. */
  lemma MissingHeaderRejected<S, Q, A>(func: (S, Q, A) -> Outcome, headerOf: Q -> Option<string>,
                                       decode: Decoder, secret: string,
                                       self: S, request: Q, args: A)
    requires headerOf(request) == None
    ensures Wrapped(func, headerOf, decode, secret, self, request, args)
            == Respond(Single(401, "error", MissingMessage))
  {
  }

  /** The prefix check is case-sensitive: `bearer ` is not `Bearer `. */
  lemma LowercaseSchemeRejected(t: string, decode: Decoder, secret: string)
    ensures Authenticate("bearer " + t, decode, secret) == MissingToken
  {
    assert ("bearer " + t)[0] != BearerPrefix[0];
  }

  /** An empty bearer value is refused before any decode. */
  lemma BlankTokenRejected(w: string, decode: Decoder, secret: string)
    requires AllSpace(w)
    ensures Authenticate(BearerPrefix + w, decode, secret) == MissingToken
  {
    ExtractTokenBlank(w);
  }

  /** An exception that is both an `ExpiredSignatureError` and an
      `InvalidTokenError`, as every expired-signature error is, gets the
      expiry message: the expiry clause comes first. */
  lemma ExpiryReportedBeforeInvalid(header: string, decode: Decoder, secret: string)
    requires StartsWith(header, BearerPrefix) && ExtractToken(header) != ""
    requires decode(ExtractToken(header), secret)
             == Raised({ExpiredSignatureError, InvalidTokenError})
    ensures Authenticate(header, decode, secret) == Expired
    ensures Rejection(Authenticate(header, decode, secret)).data["error"] == JStr(ExpiredMessage)
  {
  }

  /** Without the prefix, or without a token, the decoder is not consulted:
      any two decoders give the same verdict. */
  lemma DecodeNotCalledWithoutToken(header: string, d1: Decoder, d2: Decoder, secret: string)
    requires !StartsWith(header, BearerPrefix) || ExtractToken(header) == ""
    ensures Authenticate(header, d1, secret) == Authenticate(header, d2, secret) == MissingToken
  {
  }

  /** The verdict depends on the header and on what the decoder says about
      the extracted token, and on nothing else the decoder might do. */
  lemma VerdictDependsOnTokenDecode(header: string, d1: Decoder, d2: Decoder, secret: string)
    requires d1(ExtractToken(header), secret) == d2(ExtractToken(header), secret)
    ensures Authenticate(header, d1, secret) == Authenticate(header, d2, secret)
  {
  }

  /** The handler is invoked only when the verdict admits the request:
      otherwise any two handlers give the same outcome. */
  lemma HandlerOnlyWhenAdmitted<S, Q, A>(f1: (S, Q, A) -> Outcome, f2: (S, Q, A) -> Outcome,
                                         headerOf: Q -> Option<string>,
                                         decode: Decoder, secret: string,
                                         self: S, request: Q, args: A)
    requires !Authenticate(HeaderValue(headerOf(request)), decode, secret).Admitted?
    ensures Wrapped(f1, headerOf, decode, secret, self, request, args)
            == Wrapped(f2, headerOf, decode, secret, self, request, args)
  {
  }
}
