/**
  The remote service as the uploader sees it: the answers it can give, the
  errors a call can raise, the requests that end up in a client's trace, the
  URLs they go to and the bearer header they carry.
*/
module Http {
  import opened Wrappers
  import opened Paths

  type Headers = map<string, string>

  /** The exceptions a step of the uploader can raise. */
  datatype Error =
    | TransportError      // requests.RequestException: no answer at all
    | HttpError(status: int)  // raise_for_status() on a 4xx or 5xx answer
    | InvalidJson         // reading the body raised (see `Reply`)
    | MissingToken        // the login answer has no usable "access" value
    | FileSystemError     // a local file or directory operation failed
    | BadArchive          // special_content.zip could not be extracted

  /** How a step ends: normally, or by raising. */
  datatype Outcome = Done | Raised(error: Error)

  /**
    One answer of the service to one request: its status code and what the
    caller reads from its body, or no answer at all. `body` is `None` when
    that read raises: `.json()` fails, or, where the caller goes on to call
    `.get` (login and `create_run`), the JSON is not an object. `upload_file`
    only calls `.json()`, so for it any JSON body at all is `Some(())`.
  */
  datatype Reply<T> = Response(status: int, body: Option<T>) | TransportFailure

  /** What happens when `upload_file` is called: the file cannot be opened, or it is sent and answered. */
  datatype UploadAttempt = Unreadable | Sent(reply: Reply<()>)

  /**
    One step in a client's trace: a request sent to the service, a write of
    the token file, or a call of `create_run` / `upload_file` (the latter
    raises before sending anything when the file cannot be opened).
  */
  datatype Call =
    | ProbeRequest(url: string, headers: Headers)
    | LoginRequest(url: string, identifier: string, password: string)
    | TokenWrite(token: string)
    | CreateRunCall(url: string, name: string, headers: Headers)
    | UploadFileCall(url: string, file: Path, headers: Headers)

  /** The status codes for which `raise_for_status()` raises. */
  predicate IsHttpError(status: int) {
    400 <= status < 600
  }

  /**
    `requests.post(...)`, then `raise_for_status()`, then `.json()`: the
    field the caller reads, or the exception one of the three raises.
  */
  function Decode<T>(reply: Reply<T>): (r: Result<T, Error>)
    ensures r.Ok? <==> reply.Response? && !IsHttpError(reply.status) && reply.body.Some?
    ensures r.Ok? ==> r.value == reply.body.value
    ensures reply.TransportFailure? ==> r == Err(TransportError)
    ensures reply.Response? && IsHttpError(reply.status) ==> r == Err(HttpError(reply.status))
  {
    match reply
    case TransportFailure => Err(TransportError)
    case Response(status, body) =>
      if IsHttpError(status) then Err(HttpError(status))
      else if body.None? then Err(InvalidJson)
      else Ok(body.value)
  }

  /** The error, if any, that a call of `upload_file` raises. */
  function UploadError(attempt: UploadAttempt): (e: Option<Error>)
    ensures e.None? <==> attempt.Sent? && Decode(attempt.reply).Ok?
  {
    match attempt
    case Unreadable => Some(FileSystemError)
    case Sent(reply) => if Decode(reply).Err? then Some(Decode(reply).error) else None
  }

  /** Python's truth value of the token: the falsy tokens are exactly None and "". */
  predicate Truthy(token: Option<string>): (b: bool)
    ensures !b <==> token == None || token == Some("")
  {
    token.Some? && token.value != ""
  }

  const Authorization: string := "Authorization"
  const BearerPrefix: string := "Bearer "

  /** `_headers()`: the bearer header for a usable token, no header otherwise. */
  function AuthHeaders(token: Option<string>): (h: Headers)
    ensures h.Keys <= {Authorization}
    ensures Authorization in h <==> Truthy(token)
    ensures Authorization in h ==> h[Authorization] == BearerPrefix + token.value
  {
    if Truthy(token) then map[Authorization := BearerPrefix + token.value] else map[]
  }

  /** The token a bearer header value carries. */
  function BearerToken(value: string): Option<string> {
    if |BearerPrefix| <= |value| && value[..|BearerPrefix|] == BearerPrefix
    then Some(value[|BearerPrefix|..])
    else None
  }

  /** The header gives the token back. */
  lemma AuthHeadersCarryToken(token: Option<string>)
    requires Truthy(token)
    ensures BearerToken(AuthHeaders(token)[Authorization]) == token
  {
    var value := BearerPrefix + token.value;
    assert value[..|BearerPrefix|] == BearerPrefix;
    assert value[|BearerPrefix|..] == token.value;
  }

  /**
    `_is_token_valid()` for a given answer to the identity probe: only a
    usable token answered with status 200 is valid; a client error, any other
    status and a transport failure all make it invalid.
  */
  function TokenValid(token: Option<string>, probe: Reply<()>): (valid: bool)
    ensures valid <==> Truthy(token) && probe.Response? && probe.status == 200
  {
    if !Truthy(token) then false
    else match probe
      case TransportFailure => false
      case Response(status, _) =>
        if status == 200 then true
        else if 400 <= status < 500 then false
        else false
  }

  // The endpoints, each an f-string on the base URL; every one of them lies under it.

  function ProbeUrl(base: string): (u: string)
    ensures base <= u && |u| == |base| + 10
  {
    base + "/users/me/"
  }

  function LoginUrl(base: string): (u: string)
    ensures base <= u && |u| == |base| + 12
  {
    base + "/auth/login/"
  }

  function RunsUrl(base: string): (u: string)
    ensures base <= u && |u| == |base| + 5
  {
    base + "/runs"
  }

  /** How an f-string prints the run id: Python prints a missing id as "None". */
  function RunIdText(runId: Option<string>): (t: string)
    ensures t == "None" <==> runId == None || runId == Some("None")
  {
    if runId.Some? then runId.value else "None"
  }

  /** A run's attachments collection, below the runs collection. */
  function AttachmentsUrl(base: string, runId: Option<string>): (u: string)
    ensures RunsUrl(base) + "/" <= u
    ensures |u| == |base| + 18 + |RunIdText(runId)|
  {
    base + "/runs/" + RunIdText(runId) + "/attachments"
  }

  /** The four endpoints are different URLs for every base URL. */
  lemma EndpointsDistinct(base: string, runId: Option<string>)
    ensures ProbeUrl(base) != LoginUrl(base) && ProbeUrl(base) != RunsUrl(base)
    ensures LoginUrl(base) != RunsUrl(base)
    ensures AttachmentsUrl(base, runId) !in {ProbeUrl(base), LoginUrl(base), RunsUrl(base)}
  {
  }

  /** Two present run ids are printed alike only when they are the same id. */
  lemma RunIdTextInjective(a: Option<string>, b: Option<string>)
    requires a.Some? && b.Some?
    ensures RunIdText(a) == RunIdText(b) <==> a == b
  {
  }

  /**
    A missing run id gives the same attachments URL as the id "None": the
    uploads of a run whose id is missing go to `<base>/runs/None/attachments`.
  */
  lemma MissingRunIdPrintsAsNone(base: string)
    ensures AttachmentsUrl(base, None) == AttachmentsUrl(base, Some("None"))
  {
  }

  /** The attachments URL gives back the printed run id. */
  lemma AttachmentsUrlInjective(base: string, a: Option<string>, b: Option<string>)
    requires AttachmentsUrl(base, a) == AttachmentsUrl(base, b)
    ensures RunIdText(a) == RunIdText(b)
  {
    var u := AttachmentsUrl(base, a);
    var start := |base| + 6;
    assert u[start..|u| - 12] == RunIdText(a);
    assert AttachmentsUrl(base, b)[start..|u| - 12] == RunIdText(b);
  }
}
