/** The four document views of api/views.py. Each one checks a local
    precondition, plans one request to the FastAPI document service, and
    translates that service's answer into its own response. The HTTP
    exchange itself is a parameter. */
module Views {
  import opened PyText
  import opened Payload

  /** `os.getenv("FASTAPI_URL", ...)` when the variable is unset. */
  const DefaultFastApiUrl := "http://127.0.0.1:8000"

  const NoFileMessage := "No file uploaded."
  const NoIdMessage := "No id returned from FastAPI."
  const UploadedMessage := "File uploaded successfully."
  const DocIdRequiredMessage := "doc_id is required."
  const AnalysisMessage := "Документ успешно отправлен на анализ."
  const TextUnavailable := "Текст недоступен."
  const TextMessage := "Текст успешно получен."
  const DeletedMessage := "Документ успешно удален."
  const ErrorPrefix := "Error from FastAPI: "
  const UnknownError := "Unknown error."

  newtype byte = x: int | 0 <= x < 256

  /** An entry of `request.FILES`. */
  datatype UploadedFile = UploadedFile(name: string, content: seq<byte>)

  /** `request.FILES.get("file")` is truthy: present, and (Django's
      `File.__bool__`) with a non-empty name. */
  predicate FileGiven(file: Option<UploadedFile>)
    ensures FileGiven(file) ==> file.Some?
    ensures file.Some? ==> (FileGiven(file) <==> file.value.name != "")
  {
    file.Some? && file.value.name != ""
  }

  datatype Operation = Upload | Analyze | GetText | Delete

  /** One call of a view with what it reads from the request: the uploaded
      file, or the `doc_id` that the `<int:doc_id>` route converter
      produced (a non-negative `int`). */
  datatype Call =
    | UploadCall(file: Option<UploadedFile>)
    | AnalyzeCall(docId: nat)
    | GetTextCall(docId: nat)
    | DeleteCall(docId: nat)
  {
    function Op(): Operation {
      match this
      case UploadCall(_) => Upload
      case AnalyzeCall(_) => Analyze
      case GetTextCall(_) => GetText
      case DeleteCall(_) => Delete
    }
  }

  datatype Verb = POST | GET | DELETE

  /** The one call a view makes with `requests`: the verb, the URL and, for
      an upload, the file sent as the multipart field `file`. */
  datatype UpstreamRequest = UpstreamRequest(verb: Verb, url: string, file: Option<UploadedFile>)

  datatype Plan = ShortCircuit(response: Response) | Forward(request: UpstreamRequest)

  /** The precondition a view checks before any upstream call fails. */
  predicate Refused(call: Call)
    ensures call.GetTextCall? ==> !Refused(call)
    ensures call.UploadCall? ==> (Refused(call) <==> !FileGiven(call.file))
    ensures call.AnalyzeCall? || call.DeleteCall? ==> (Refused(call) <==> call.docId == 0)
  {
    match call
    case UploadCall(file) => !FileGiven(file)
    case AnalyzeCall(id) => id == 0
    case GetTextCall(_) => false
    case DeleteCall(id) => id == 0
  }

  function DocumentsUrl(base: string): string {
    base + "/documents"
  }

  function DocumentUrl(base: string, id: nat): string {
    DocumentsUrl(base) + "/" + Decimal(id)
  }

  function AnalyzeUrl(base: string, id: nat): string {
    DocumentUrl(base, id) + "/analyze"
  }

  function TextUrl(base: string, id: nat): string {
    DocumentUrl(base, id) + "/text/"
  }

  /** The verb each view uses upstream. */
  function VerbOf(op: Operation): Verb {
    match op
    case Upload => POST
    case Analyze => POST
    case GetText => GET
    case Delete => DELETE
  }

  /** First half of a view: the 400 short-circuit, or the one upstream
      request it will make. */
  function PlanCall(base: string, call: Call): (p: Plan)
    ensures p.ShortCircuit? <==> Refused(call)
    ensures p.ShortCircuit? ==>
      p.response.status == 400 && p.response.data.Keys == {"message"}
      && p.response.data["message"]
         == JStr(if call.UploadCall? then NoFileMessage else DocIdRequiredMessage)
    ensures p.Forward? ==>
      p.request.verb == VerbOf(call.Op()) && StartsWith(p.request.url, DocumentsUrl(base))
    ensures p.Forward? ==> (p.request.file.Some? <==> call.UploadCall?)
    ensures p.Forward? && call.UploadCall? ==> p.request.file == call.file
  {
    match call
    case UploadCall(file) =>
      if !FileGiven(file) then ShortCircuit(Single(400, "message", NoFileMessage))
      else Forward(UpstreamRequest(POST, DocumentsUrl(base), file))
    case AnalyzeCall(id) =>
      if id == 0 then ShortCircuit(Single(400, "message", DocIdRequiredMessage))
      else Forward(UpstreamRequest(POST, AnalyzeUrl(base, id), None))
    case GetTextCall(id) =>
      Forward(UpstreamRequest(GET, TextUrl(base, id), None))
    case DeleteCall(id) =>
      if id == 0 then ShortCircuit(Single(400, "message", DocIdRequiredMessage))
      else Forward(UpstreamRequest(DELETE, DocumentUrl(base, id), None))
  }

  /** The URL each view builds. */
  lemma PlannedUrls(base: string, call: Call)
    requires !Refused(call)
    ensures PlanCall(base, call).request.url ==
      match call
      case UploadCall(_) => base + "/documents"
      case AnalyzeCall(id) => base + "/documents/" + Decimal(id) + "/analyze"
      case GetTextCall(id) => base + "/documents/" + Decimal(id) + "/text/"
      case DeleteCall(id) => base + "/documents/" + Decimal(id)
  {
    match call
    case UploadCall(_) =>
    case AnalyzeCall(id) =>
      assert base + "/documents" + "/" + Decimal(id) + "/analyze"
             == base + "/documents/" + Decimal(id) + "/analyze";
    case GetTextCall(id) =>
      assert base + "/documents" + "/" + Decimal(id) + "/text/"
             == base + "/documents/" + Decimal(id) + "/text/";
    case DeleteCall(id) =>
      assert base + "/documents" + "/" + Decimal(id) == base + "/documents/" + Decimal(id);
  }

  lemma SuffixCancel(a: string, b: string, suffix: string)
    requires a + suffix == b + suffix
    ensures a == b
  {
    assert a == (a + suffix)[..|a|];
    assert b == (b + suffix)[..|b|];
  }

  lemma PrefixCancel(prefix: string, a: string, b: string)
    requires prefix + a == prefix + b
    ensures a == b
  {
    assert a == (prefix + a)[|prefix|..];
    assert b == (prefix + b)[|prefix|..];
  }

  /** The last character of the URL tells the document operations apart:
      a digit for delete, `e` for analyze, `/` for get-text, and the `s`
      of `/documents` for upload. */
  function LastChar(s: string): char
    requires s != []
  {
    s[|s| - 1]
  }

  lemma UrlEndings(base: string, id: nat)
    ensures LastChar(DocumentsUrl(base)) == 's'
    ensures IsDigit(LastChar(DocumentUrl(base, id)))
    ensures LastChar(AnalyzeUrl(base, id)) == 'e'
    ensures LastChar(TextUrl(base, id)) == '/'
  {
    var d := Decimal(id);
    assert LastChar(DocumentUrl(base, id)) == d[|d| - 1];
  }

  /** Two planned requests to the same service with the same verb and URL
      come from the same operation on the same document: no two calls share
      an upstream request. */
  lemma {:induction false} PlanIdentifiesCall(base: string, c1: Call, c2: Call)
    requires !Refused(c1) && !Refused(c2)
    requires PlanCall(base, c1).request.verb == PlanCall(base, c2).request.verb
    requires PlanCall(base, c1).request.url == PlanCall(base, c2).request.url
    ensures c1.Op() == c2.Op()
    ensures !c1.UploadCall? ==> c1.docId == c2.docId
  {
    match c1
    case UploadCall(_) =>
      match c2 {
        case AnalyzeCall(b) => UrlEndings(base, b);
        case _ =>
      }
    case AnalyzeCall(a) =>
      UrlEndings(base, a);
      if c2.AnalyzeCall? {
        SuffixCancel(DocumentUrl(base, a), DocumentUrl(base, c2.docId), "/analyze");
        PrefixCancel(DocumentsUrl(base) + "/", Decimal(a), Decimal(c2.docId));
        DecimalInjective(a, c2.docId);
      }
    case GetTextCall(a) =>
      if c2.GetTextCall? {
        SuffixCancel(DocumentUrl(base, a), DocumentUrl(base, c2.docId), "/text/");
        PrefixCancel(DocumentsUrl(base) + "/", Decimal(a), Decimal(c2.docId));
        DecimalInjective(a, c2.docId);
      }
    case DeleteCall(a) =>
      if c2.DeleteCall? {
        PrefixCancel(DocumentsUrl(base) + "/", Decimal(a), Decimal(c2.docId));
        DecimalInjective(a, c2.docId);
      }
  }

  // -----------------------------------------------------------------------
  // Translation of the upstream answer

  /** What `requests` hands back as the body: a JSON object, some other JSON
      value, or text that is not JSON at all. */
  datatype UpstreamBody = JsonObject(fields: Object) | JsonOther | NotJson

  /** The result of the exchange: an HTTP answer, or no answer at all. */
  datatype Exchange = Received(status: int, body: UpstreamBody) | Unreachable

  datatype Lookup = Found(value: Json) | Throws(failure: Failure)

  /** `response.json().get(key, default)`. */
  function ReadField(body: UpstreamBody, key: string, default: Json): (l: Lookup)
    ensures l.Throws? <==> !body.JsonObject?
    ensures body.NotJson? ==> l == Throws(JsonDecodeError)
    ensures body.JsonOther? ==> l == Throws(AttributeError)
    ensures body.JsonObject? && key in body.fields ==> l == Found(body.fields[key])
    ensures body.JsonObject? && key !in body.fields ==> l == Found(default)
  {
    match body
    case NotJson => Throws(JsonDecodeError)
    case JsonOther => Throws(AttributeError)
    case JsonObject(fields) => Found(Get(fields, key, default))
  }

  /** The statuses each view takes as success. */
  function SuccessStatuses(op: Operation): (codes: set<int>)
    ensures 200 in codes && |codes| == 2
    ensures 201 in codes <==> op != Delete
    ensures 204 in codes <==> op == Delete
  {
    if op == Delete then {200, 204} else {200, 201}
  }

  /** The `else` branch shared by all four views: the upstream status is
      kept and the body is reduced to an error message. */
  function ErrorReply(status: int, body: UpstreamBody): (o: Outcome)
    ensures o.Raise? <==> !body.JsonObject?
    ensures o.Respond? ==>
      o.response.status == status && o.response.data.Keys == {"message"}
      && o.response.data["message"].JStr?
      && StartsWith(o.response.data["message"].s, ErrorPrefix)
    ensures body.JsonObject? && "message" in body.fields ==>
      o.response.data["message"] == JStr(ErrorPrefix + Show(body.fields["message"]))
    ensures body.JsonObject? && "message" !in body.fields ==>
      o.response.data["message"] == JStr(ErrorPrefix + UnknownError)
  {
    match ReadField(body, "message", JStr(UnknownError))
    case Throws(f) => Raise(f)
    case Found(m) => Respond(Single(status, "message", ErrorPrefix + Show(m)))
  }

  /** The upload answer carries a truthy `id`. */
  predicate CarriesId(fields: Object) {
    Truthy(Get(fields, "id", JNull))
  }

  /** Second half of `UploadDocumentView.post`. */
  function TranslateUpload(status: int, body: UpstreamBody): (o: Outcome)
    ensures status !in SuccessStatuses(Upload) ==> o == ErrorReply(status, body)
    ensures status in SuccessStatuses(Upload) ==>
      (o.Raise? <==> !body.JsonObject?)
      && (o.Respond? ==> (o.response.status == 201 <==> CarriesId(body.fields)))
      && (o.Respond? && !CarriesId(body.fields) ==> o.response == Single(500, "message", NoIdMessage))
      && (o.Respond? && CarriesId(body.fields) ==>
            o.response.data == map["id" := body.fields["id"], "message" := JStr(UploadedMessage)])
  {
    if status in SuccessStatuses(Upload) then
      match ReadField(body, "id", JNull)
      case Throws(f) => Raise(f)
      case Found(id) =>
        if !Truthy(id) then Respond(Single(500, "message", NoIdMessage))
        else Respond(Response(201, map["id" := id, "message" := JStr(UploadedMessage)]))
    else
      ErrorReply(status, body)
  }

  /** Second half of `AnalyzeDocumentView.post`: on success the body is not
      read at all. */
  function TranslateAnalyze(status: int, body: UpstreamBody): (o: Outcome)
    ensures status !in SuccessStatuses(Analyze) ==> o == ErrorReply(status, body)
    ensures status in SuccessStatuses(Analyze) ==> o == Respond(Single(200, "message", AnalysisMessage))
  {
    if status in SuccessStatuses(Analyze) then Respond(Single(200, "message", AnalysisMessage))
    else ErrorReply(status, body)
  }

  /** Second half of `GetTextView.get`. */
  function TranslateGetText(status: int, body: UpstreamBody): (o: Outcome)
    ensures status !in SuccessStatuses(GetText) ==> o == ErrorReply(status, body)
    ensures status in SuccessStatuses(GetText) ==>
      (o.Raise? <==> !body.JsonObject?)
      && (o.Respond? ==>
            o.response.status == 200 && o.response.data.Keys == {"text", "message"}
            && o.response.data["message"] == JStr(TextMessage)
            && o.response.data["text"]
               == (if "text" in body.fields then body.fields["text"] else JStr(TextUnavailable)))
  {
    if status in SuccessStatuses(GetText) then
      match ReadField(body, "text", JStr(TextUnavailable))
      case Throws(f) => Raise(f)
      case Found(text) => Respond(Response(200, map["text" := text, "message" := JStr(TextMessage)]))
    else
      ErrorReply(status, body)
  }

  /** Second half of `DeleteDocumentView.delete`: on success the body is
      not read at all. */
  function TranslateDelete(status: int, body: UpstreamBody): (o: Outcome)
    ensures status !in SuccessStatuses(Delete) ==> o == ErrorReply(status, body)
    ensures status in SuccessStatuses(Delete) ==> o == Respond(Single(200, "message", DeletedMessage))
  {
    if status in SuccessStatuses(Delete) then Respond(Single(200, "message", DeletedMessage))
    else ErrorReply(status, body)
  }

  /** Whether a view reads the upstream body for this status at all. */
  predicate ReadsBody(op: Operation, status: int) {
    status !in SuccessStatuses(op) || op == Upload || op == GetText
  }

  /** Second half of a view: the upstream status and body as the view's
      `Response`, or the exception reading the body raises. */
  function Translate(op: Operation, status: int, body: UpstreamBody): (o: Outcome)
    ensures o.Raise? <==> ReadsBody(op, status) && !body.JsonObject?
    ensures o.Raise? ==> o.failure == (if body.NotJson? then JsonDecodeError else AttributeError)
    ensures o.Respond? ==> "message" in o.response.data
    ensures o.Respond? && status !in SuccessStatuses(op) ==> o.response.status == status
    ensures o.Respond? && status in SuccessStatuses(op) ==>
      o.response.status == (if op != Upload then 200 else if CarriesId(body.fields) then 201 else 500)
  {
    match op
    case Upload => TranslateUpload(status, body)
    case Analyze => TranslateAnalyze(status, body)
    case GetText => TranslateGetText(status, body)
    case Delete => TranslateDelete(status, body)
  }

  /** A whole view: plan, one exchange with the service, translation. */
  function Handle(base: string, call: Call, exchange: UpstreamRequest -> Exchange): (o: Outcome)
    // In short, a refused call gets a 400; the next clause says which one.
    ensures Refused(call) ==> o.Respond? && o.response.status == 400
    ensures Refused(call) ==> o == Respond(PlanCall(base, call).response)
    ensures !Refused(call) && exchange(PlanCall(base, call).request).Unreachable? ==>
      o == Raise(ConnectionError)
    ensures !Refused(call) && exchange(PlanCall(base, call).request).Received? ==>
      o == Translate(call.Op(), exchange(PlanCall(base, call).request).status,
                     exchange(PlanCall(base, call).request).body)
  {
    match PlanCall(base, call)
    case ShortCircuit(r) => Respond(r)
    case Forward(request) =>
      match exchange(request)
      case Unreachable => Raise(ConnectionError)
      case Received(status, body) => Translate(call.Op(), status, body)
  }

  /** A refused call never reaches the service: whatever the service would
      do, the outcome is the same. */
  lemma RefusedCallsSkipUpstream(base: string, call: Call,
                                 e1: UpstreamRequest -> Exchange, e2: UpstreamRequest -> Exchange)
    requires Refused(call)
    ensures Handle(base, call, e1) == Handle(base, call, e2)
  {
  }

  /** A forwarded call consults the service about the planned request and
      nothing else. */
  lemma OneUpstreamRequest(base: string, call: Call,
                           e1: UpstreamRequest -> Exchange, e2: UpstreamRequest -> Exchange)
    requires !Refused(call)
    requires e1(PlanCall(base, call).request) == e2(PlanCall(base, call).request)
    ensures Handle(base, call, e1) == Handle(base, call, e2)
  {
  }

  // -----------------------------------------------------------------------
  // Whole views on particular answers

  /** With `FASTAPI_URL` unset, the views talk to the service on the
      local host, port 8000. */
  lemma DefaultServiceUrls(file: UploadedFile)
    requires file.name != ""
    ensures PlanCall(DefaultFastApiUrl, UploadCall(Some(file))).request.url
            == "http://127.0.0.1:8000/documents"
    ensures PlanCall(DefaultFastApiUrl, GetTextCall(7)).request.url
            == "http://127.0.0.1:8000/documents/7/text/"
  {
    assert Decimal(7) == "7";
    assert DocumentsUrl(DefaultFastApiUrl) == "http://127.0.0.1:8000/documents";
    assert DocumentUrl(DefaultFastApiUrl, 7) == "http://127.0.0.1:8000/documents/7";
  }

  /** Upload without a file: 400, and the service is not asked. */
  lemma UploadWithoutFile(base: string, exchange: UpstreamRequest -> Exchange)
    ensures Handle(base, UploadCall(None), exchange)
            == Respond(Single(400, "message", NoFileMessage))
  {
  }

  /** Upload answered `201 {"id": 42}`: the id is handed on under 201. */
  lemma UploadReturnsId(base: string, file: UploadedFile, exchange: UpstreamRequest -> Exchange)
    requires file.name != ""
    requires exchange(UpstreamRequest(POST, DocumentsUrl(base), Some(file)))
             == Received(201, JsonObject(map["id" := JInt(42)]))
    ensures Handle(base, UploadCall(Some(file)), exchange)
            == Respond(Response(201, map["id" := JInt(42), "message" := JStr(UploadedMessage)]))
  {
  }

  /** Upload answered `200 {"id": 0}`: a falsy id is as good as none. */
  lemma UploadZeroIdIsMissing(status: int)
    requires status == 200 || status == 201
    ensures Translate(Upload, status, JsonObject(map["id" := JInt(0)]))
            == Respond(Single(500, "message", NoIdMessage))
  {
  }

  /** Get-text answered `500 {"message": "boom"}`: the status passes
      through with the service's message. */
  lemma GetTextUpstreamError()
    ensures Translate(GetText, 500, JsonObject(map["message" := JStr("boom")]))
            == Respond(Single(500, "message", "Error from FastAPI: boom"))
  {
    assert ErrorPrefix + "boom" == "Error from FastAPI: boom";
  }

  /** An error answer whose `message` is JSON `null` reads as `None`, not
      as the fallback text. */
  lemma NullMessageShownAsNone(status: int)
    requires status != 200 && status != 201
    ensures Translate(Analyze, status, JsonObject(map["message" := JNull]))
            == Respond(Single(status, "message", "Error from FastAPI: None"))
  {
    assert ErrorPrefix + "None" == "Error from FastAPI: None";
  }

  /** Get-text answered `204`: not a success for this view, so the 204 is
      passed on with an error body. Delete answered `201`: likewise. */
  lemma SuccessSetsDiffer(body: Object)
    ensures Translate(GetText, 204, JsonObject(body)).response.status == 204
    ensures Translate(GetText, 204, JsonObject(body)).response.data["message"].s[..|ErrorPrefix|]
            == ErrorPrefix
    ensures Translate(Delete, 201, JsonObject(body)).response.status == 201
    ensures Translate(Delete, 201, JsonObject(body)).response.data["message"].s[..|ErrorPrefix|]
            == ErrorPrefix
  {
  }

  /** Delete answered `204` with an empty body: 200, the body is never
      parsed. */
  lemma DeleteNoContent(base: string, id: nat, exchange: UpstreamRequest -> Exchange)
    requires id != 0
    requires exchange(UpstreamRequest(DELETE, DocumentUrl(base, id), None)) == Received(204, NotJson)
    ensures Handle(base, DeleteCall(id), exchange) == Respond(Single(200, "message", DeletedMessage))
  {
  }

  /** The service unreachable: the exception from `requests` propagates out
      of the view; no response is made. */
  lemma UnreachableRaises(base: string, id: nat, exchange: UpstreamRequest -> Exchange)
    requires id != 0
    requires exchange(UpstreamRequest(POST, AnalyzeUrl(base, id), None)) == Unreachable
    ensures Handle(base, AnalyzeCall(id), exchange) == Raise(ConnectionError)
  {
  }

  /** An error answer that is not JSON makes the view raise: there is no
      fallback to `Unknown error.`. */
  lemma NonJsonErrorRaises(op: Operation, status: int)
    requires status !in SuccessStatuses(op)
    ensures Translate(op, status, NotJson) == Raise(JsonDecodeError)
  {
  }
}
