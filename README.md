# Bearer-token gate and document views of a Django proxy, in Dafny

The repository is a Django REST proxy that sits in front of a FastAPI
document service. This project models the two parts that make decisions:

- **The bearer-token gate** `token_required` (api/decorators.py). It reads
  the `Authorization` header and requires the exact, case-sensitive prefix
  `Bearer `. It then takes out the token: it deletes *every* occurrence of
  `Bearer ` and strips whitespace with Python's `str.strip()`. It refuses an
  empty token. It asks PyJWT to decode the token. If the decode raises an
  `ExpiredSignatureError`, that is reported first. Any other
  `InvalidTokenError` comes next. Only after all of these checks does it call
  the wrapped handler, and it returns that handler's result unchanged.
  Module `Decorators`, over the string operations of module `PyText`.
- **The four document views** (api/views.py): upload, analyze, get-text and
  delete. Each view is split into two halves. `PlanCall` is the local
  precondition, which may give a 400 short-circuit, together with the one
  upstream request the view makes. `Translate` maps the upstream status and
  body to the view's response, or to the exception that reading the body
  raises. `Handle` runs the two halves with the HTTP exchange as a
  parameter. Module `Views`.

Module `Payload` holds the shared values. JSON scalars are kept with Python's
truthiness (`bool(v)`) and `str(v)`. It also holds the REST framework
`Response` and the exceptions a view lets out. Module `Pipeline` composes the
gate with a view and shows that a rejected request never reaches the
document service. The views in the source are not decorated with
`token_required`: they use the framework's `IsAuthenticated` permission.
The composition is therefore what the decorator would guarantee, not what
the routes do today. `wrapped` is a coroutine that ends in
`await func(...)` (api/decorators.py:22, 56), while the four views are plain
functions; `Serve` assumes views that can be awaited and takes the awaited
result as the view's outcome.

Foreign calls are parameters:
- `jwt.decode` is a `Decoder` oracle from the token and the secret to
  `Decoded(payload)`, or to `Raised(classes)`. `classes` is the set of
  exception classes the raised error is an instance of. PyJWT's
  `ExpiredSignatureError` is also an `InvalidTokenError`, so the order of
  the two `except` clauses matters.
- The `requests` call is an `UpstreamRequest -> Exchange` function. It
  gives either `Received(status, body)` or `Unreachable`.
- The header lookup is a `Q -> Option<string>` accessor.
- `FASTAPI_URL` is the `base` parameter. `DefaultFastApiUrl` holds the
  value it takes when the environment variable is unset, and
  `Views.DefaultServiceUrls` spells out two URLs built from it.

`doc_id` is a `nat` because the routes use the `<int:doc_id>` converter
(api/urls.py:23-25). So the view's `not doc_id` means `doc_id == 0`. The
URL contains `str(doc_id)`, which is modelled as the decimal rendering
`PyText.Decimal`.

Behaviour of the code worth knowing:
- The get-text URL ends in `/text/`, with a trailing slash.
- Get-text has no `doc_id` guard.
- Upload, analyze and get-text accept {200, 201} as success. Delete accepts
  {200, 204}.
- For an upstream body that is not JSON, or is JSON but not an object,
  `response.json()` or `.get` raises. The view
  raises too, unless it does not read the body: on analyze or delete
  success the body is never read.
- When the service cannot be reached, the `requests` exception propagates
  out of the view (`Raise(ConnectionError)`).
- api/tests.py expects Russian upload messages and mocks `httpx`. The
  model uses the English strings of api/views.py:57 and api/views.py:82,
  and the views' use of `requests`.

## Model

| member | source | states |
|---|---|---|
| `PyText.IsSpaceCodePoints` | api/decorators.py:39 | `PyText.IsSpace`, the whitespace test of `strip()`, holds for exactly Python's 29 `isspace` code points: Unicode's White_Space characters plus U+001C..U+001F |
| `PyText.StartsWithPointwise` | api/decorators.py:35 | `PyText.StartsWith` (`startswith`) holds iff the prefix is no longer than the string and matches it character by character, so case matters |
| `PyText.OccursSomewhere` | api/decorators.py:39 | `PyText.Occurs` (`pat in s`) holds iff the pattern sits at some position of the string |
| `PyText.RemoveAll` | api/decorators.py:39 | `replace("Bearer ", "")` never lengthens the header; a header with no occurrence of the pattern is returned unchanged |
| `PyText.RemoveAllFirst` | api/decorators.py:39 | for every string: the leftmost occurrence is cut, what precedes it is kept unchanged, and the scan resumes right after it; with the previous row this determines `replace` completely |
| `PyText.RemoveAllLeading` | api/decorators.py:39 | a leading occurrence is removed and scanning resumes right after it |
| `PyText.RemoveAllKeeps` | api/decorators.py:39 | a character where no occurrence starts is kept |
| `PyText.RemoveAllJoins` | api/decorators.py:39 | when `x y pat w` has no occurrence starting at `x` or `y` and `pat` is `x y w`, only the inner `pat` is cut and the result is `pat` again |
| `PyText.RemoveAllCanLeaveOccurrence` | api/decorators.py:39 | removal is not idempotent: `"BeBearer arer "` becomes `"Bearer "`, which still contains the prefix |
| `PyText.TrimLeft` | api/decorators.py:39 | `lstrip()`: the result is a suffix, everything cut off is whitespace, and the result does not start with whitespace |
| `PyText.TrimRight` | api/decorators.py:39 | `rstrip()`: the result is a prefix, everything cut off is whitespace, and the result does not end with whitespace |
| `PyText.Strip` | api/decorators.py:39 | `strip()`: the result is a slice of the input with only whitespace on either side and none at its own ends; it is empty iff the input is all whitespace |
| `PyText.TrimLeftOfSpaces` | api/decorators.py:39 | `lstrip` of whitespace followed by a word that starts with a non-space gives the word |
| `PyText.TrimRightOfSpaces` | api/decorators.py:39 | `rstrip` of a word that ends with a non-space followed by whitespace gives the word |
| `PyText.StripSurrounded` | api/decorators.py:39 | `strip` of whitespace + word + whitespace is exactly the word, which makes `Strip`'s contract a full characterisation |
| `PyText.StripUnchanged` | api/decorators.py:39 | a string with no whitespace at either end is left unchanged by `strip()` |
| `PyText.StripIdempotent` | api/decorators.py:39 | stripping twice is stripping once |
| `PyText.Decimal` | api/views.py:106 | `str(doc_id)` is a non-empty string of digits with no leading zero except for `"0"` itself |
| `PyText.DecimalRoundTrip` | api/views.py:106 | reading the digits back gives the number |
| `PyText.DecimalInjective` | api/views.py:106 | distinct ids render as distinct strings |
| `Decorators.HeaderValue` | api/decorators.py:34 | `headers.get("Authorization", "")`: the header's value, or `""` when it is absent |
| `Decorators.ExtractToken` | api/decorators.py:39 | the token is no longer than the header and never starts or ends with whitespace |
| `Decorators.ExtractTokenUsual` | api/decorators.py:39 | for `"Bearer " + t` where `t` does not contain the prefix, the token is `strip(t)` |
| `Decorators.ExtractTokenRemovesEveryPrefix` | api/decorators.py:39 | `"Bearer aBearer b"` gives the token `"ab"`: inner occurrences are removed too |
| `Decorators.ExtractTokenBlank` | api/decorators.py:39-40 | `"Bearer "` followed only by whitespace gives the empty token |
| `Decorators.Authenticate` | api/decorators.py:34-53 | missing token iff the prefix check fails or the token is empty; admitted iff the prefix is present, the token is non-empty and decode returns a payload, which is then the decode of exactly that token; expired iff decode raises an instance of `ExpiredSignatureError`; invalid iff it raises a non-expiry `InvalidTokenError`; anything else escapes |
| `Decorators.Rejection` | api/decorators.py:37-53 | every rejection is status 401 with body keyed only by `"error"`, holding the not-provided, expired or invalid message |
| `Decorators.Wrapped` | api/decorators.py:22-56 | when admitted, the result is the handler's result on the same `self`, request and arguments; a missing, expired or invalid token gets exactly `Rejection` of its verdict (401, `"error"`, the matching message); an error that is not an `InvalidTokenError` escapes as `JwtError` |
| `Decorators.MissingHeaderRejected` | api/decorators.py:34-37 | an absent header defaults to `""` and yields 401 `"Токен не предоставлен."` |
| `Decorators.LowercaseSchemeRejected` | api/decorators.py:35 | `"bearer …"` fails the case-sensitive prefix check |
| `Decorators.BlankTokenRejected` | api/decorators.py:39-42 | `"Bearer "` followed only by whitespace is refused as "not provided" |
| `Decorators.ExpiryReportedBeforeInvalid` | api/decorators.py:48-53 | an error that is both an `ExpiredSignatureError` and an `InvalidTokenError` gets the expiry message |
| `Decorators.DecodeNotCalledWithoutToken` | api/decorators.py:35-42 | without the prefix or without a token, the verdict is the same for every decoder: decode is not consulted |
| `Decorators.VerdictDependsOnTokenDecode` | api/decorators.py:34-53 | the verdict depends only on the header and on what decode says about the extracted token |
| `Decorators.HandlerOnlyWhenAdmitted` | api/decorators.py:35-56 | unless admitted, the outcome is the same for every handler: the handler is not invoked |
| `Views.FileGiven` | api/views.py:53-54 | `request.FILES.get("file")` is truthy iff a file is present and (Django's `File.__bool__`) its name is non-empty |
| `Views.Refused` | api/views.py:54-164 | upload is refused iff no file is given, analyze and delete iff `doc_id` is 0; get-text is never refused |
| `Views.PlanCall` | api/views.py:51-169 | short-circuit iff upload has no truthy file or analyze/delete has `doc_id == 0`, with 400 and the matching `"message"`; otherwise one request with the view's verb, a URL under `base + "/documents"`, and the uploaded file attached exactly for upload |
| `Views.PlannedUrls` | api/views.py:62-166 | the URLs are `/documents`, `/documents/{id}/analyze`, `/documents/{id}/text/` and `/documents/{id}` |
| `Views.UrlEndings` | api/views.py:62-166 | the four URL shapes end in different characters |
| `Views.PlanIdentifiesCall` | api/views.py:62-166 | two forwarded calls with the same verb and URL are the same operation on the same document |
| `Payload.Truthy` | api/views.py:75 | Python truthiness: a JSON scalar is falsy iff it is `null`, `false`, `0` or `""` |
| `Payload.Show` | api/views.py:88 | `str()` in an f-string: `null` is `"None"`, booleans are `"True"`/`"False"`, a string is itself, an integer is its decimal digits (read back to the value, no leading zero except `"0"` itself) with a `-` exactly when it is negative |
| `Payload.Get` | api/views.py:74 | `dict.get(key, default)`: the stored value if the key is present, else the default |
| `Views.ReadField` | api/views.py:73-74 | `response.json().get(key, default)` raises for a non-JSON or non-object body, else gives the field or the default |
| `Views.ErrorReply` | api/views.py:85-90 | the upstream status is kept, the body is only `"message"`, namely `"Error from FastAPI: "` + `str(body["message"])`, or + `"Unknown error."` if absent; a non-object body raises |
| `Views.SuccessStatuses` | api/views.py:72-174 | every view takes 200 as success; upload, analyze and get-text also take 201 and not 204; delete takes 204 and not 201 |
| `Views.TranslateUpload` | api/views.py:72-90 | on 200/201: 201 with the upstream `id` and the success message iff `id` is truthy, else 500 `"No id returned from FastAPI."`; raises on a non-object body; other statuses take the error branch |
| `Views.TranslateAnalyze` | api/views.py:114-124 | on 200/201: 200 with the fixed message whatever the body; otherwise the error branch |
| `Views.TranslateGetText` | api/views.py:141-153 | on 200/201: 200 with `text` = `body["text"]` if present else `"Текст недоступен."` and message `"Текст успешно получен."`; otherwise the error branch |
| `Views.TranslateDelete` | api/views.py:174-184 | on 200/204: 200 `"Документ успешно удален."` whatever the body; otherwise the error branch |
| `Views.Translate` | api/views.py:72-184 | raises iff the view reads the body and it is not a JSON object; a non-success status is passed through; a success gives 200, or 201/500 for upload by the truthiness of `id`; every response has a `"message"` |
| `Views.Handle` | api/views.py:51-184 | a refused call gives exactly the planned 400 short-circuit; an unreachable service raises `ConnectionError`; otherwise the translation of the planned request's answer |
| `Views.RefusedCallsSkipUpstream` | api/views.py:54-164 | a refused call gives the same outcome for every upstream: no request is made |
| `Views.OneUpstreamRequest` | api/views.py:65-169 | the outcome depends on the upstream only through its answer to the one planned request |
| `Views.DefaultServiceUrls` | api/views.py:15 | with the default `FASTAPI_URL`, upload posts to `http://127.0.0.1:8000/documents` and get-text of document 7 reads `http://127.0.0.1:8000/documents/7/text/` |
| `Views.UploadWithoutFile` | api/views.py:53-58 | upload with no file yields 400 `"No file uploaded."` |
| `Views.UploadReturnsId` | api/views.py:72-84 | upload answered `201 {"id": 42}` yields 201 `{"id": 42, "message": "File uploaded successfully."}` |
| `Views.UploadZeroIdIsMissing` | api/views.py:74-79 | an `id` of 0 is falsy and yields the 500 no-id response |
| `Views.GetTextUpstreamError` | api/views.py:148-153 | get-text answered `500 {"message": "boom"}` yields 500 `"Error from FastAPI: boom"` |
| `Views.NullMessageShownAsNone` | api/views.py:120-124 | a JSON `null` message is formatted as `None`, not replaced by the fallback |
| `Views.SuccessSetsDiffer` | api/views.py:141-174 | 204 on get-text and 201 on delete take the error branch and keep their status |
| `Views.DeleteNoContent` | api/views.py:174-178 | delete answered 204 with an empty body yields 200 `"Документ успешно удален."` |
| `Views.UnreachableRaises` | api/views.py:109 | an analyze whose request fails in transport raises; no response is produced |
| `Views.NonJsonErrorRaises` | api/views.py:86-180 | a non-JSON error body raises `JSONDecodeError` in every view |
| `Pipeline.Serve` | api/decorators.py:35-56 | the gated view returns the view's outcome when admitted; a missing, expired or invalid token gets `Rejection` of its verdict, a 401 `"error"` body with the matching message; any other decode error escapes as `JwtError` |
| `Pipeline.RejectedNeverReachesUpstream` | api/decorators.py:35-53 | a rejected request gives the same outcome for every upstream: no document-service call is made |

## Left out

- JWT cryptography: HS256 signing and verification, and the `exp` check of section 4.1.4 of RFC 7519, happen inside PyJWT. `jwt.decode` is an oracle.
- HTTP transport: the `requests` calls, multipart encoding and `file_obj.read()` (api/views.py:65-67, 109, 136, 169) are the `exchange` parameter. The file is sent as its name and its whole content.
- JSON values other than `null`, booleans, integers and strings inside a body (floats, arrays, nested objects) are not modelled. Neither is the `repr` that `str()` would give them.
- `request.headers` looks names up case-insensitively. The model takes the lookup's result through the `headerOf` accessor.
- PyText.RemoveAll: requires a non-empty pattern. Python's `replace` with an empty pattern is not modelled, because the source only removes `"Bearer "`.
- PyText.Decimal: renders only non-negative integers, because the route converter yields nothing else. `Payload.Show` adds the sign for negative JSON integers.
- Django's handling of an exception that escapes a view, such as its 500 page, is outside the model. `Raise(...)` is where the model stops.
- `async`/`await` in the decorator and all logging calls have no effect on the decisions. `Pipeline.Serve` treats the views as awaitable although they are plain functions.
- `RegisterView`, api/serializers.py, api/services.py, config/settings.py, config/urls.py and api/urls.py (apart from the `int` type of `doc_id`) are not part of this model. They are user creation, token issuance and configuration.
- The `IsAuthenticated` permission that the views actually declare belongs to the framework and is not modelled.
