/**
  `APIClient`: the session with the service. It holds the base URL and the
  credentials, owns the token, and records in `trace` every request it issues
  or attempts, and every write of the token file. The token file is the field `stored`
  (`None` when the file does not exist); the service's answers are parameters.
*/
module Client {
  import opened Wrappers
  import opened Text
  import opened Paths
  import opened Http

  /**
    The token held after `_load_token()`: without a file, the token as it was;
    with one, the file's text with the whitespace removed from both ends, so
    that a loaded token never carries whitespace into the bearer header.
  */
  function LoadedToken(stored: Option<string>, current: Option<string>): (t: Option<string>)
    ensures stored.None? ==> t == current
    ensures stored.Some? ==> t.Some? && (t.value == [] || (!IsSpace(t.value[0]) && !IsSpace(t.value[|t.value| - 1])))
    ensures stored.Some? ==>
      var text, lead := stored.value, LeadingSpace(stored.value);
      && lead + |t.value| <= |text| && text[lead..lead + |t.value|] == t.value
      && AllSpace(text[..lead]) && AllSpace(text[lead + |t.value|..])
  {
    if stored.Some? then Some(Strip(stored.value)) else current
  }

  /** Writing a loaded token back and loading it again gives the same token. */
  lemma LoadedTokenStable(stored: Option<string>, current: Option<string>, other: Option<string>)
    requires stored.Some?
    ensures var t := LoadedToken(stored, current); LoadedToken(Some(t.value), other) == t
  {
    StripIdempotent(stored.value);
  }

  /** A token without surrounding whitespace is read back exactly as it was written. */
  lemma SavedTokenReloads(token: string, current: Option<string>)
    requires token == [] || (!IsSpace(token[0]) && !IsSpace(token[|token| - 1]))
    ensures LoadedToken(Some(token), current) == Some(token)
  {
    StripKeepsTrimmed(token);
  }

  class APIClient {
    const baseUrl: string
    const identifier: string
    const password: string
    const tokenFile: string
    var token: Option<string>
    var stored: Option<string>
    var trace: seq<Call>

    /**
      The first half of `__init__`, which only sets attributes: the base URL
      without its trailing slashes, the credentials, and no token yet.
      `stored` is what the token file holds at start-up.
    */
    constructor (baseUrl: string, identifier: string, password: string, stored: Option<string>,
                 tokenFile: string := ".token")
      ensures this.baseUrl == RStripSlash(baseUrl)
      ensures this.identifier == identifier && this.password == password
      ensures this.tokenFile == tokenFile
      ensures token == None && this.stored == stored && trace == []
    {
      this.baseUrl := RStripSlash(baseUrl);
      this.identifier := identifier;
      this.password := password;
      this.tokenFile := tokenFile;
      token := None;
      this.stored := stored;
      trace := [];
    }

    /** `_load_token()`: a missing file leaves the token as it is. */
    method LoadToken()
      modifies this`token
      ensures token == LoadedToken(stored, old(token))
    {
      if stored.Some? {
        token := Some(Strip(stored.value));
      }
    }

    /** `_save_token()`: the file afterwards holds exactly the token. */
    method SaveToken()
      requires token.Some?
      modifies this`stored, this`trace
      ensures stored == token
      ensures trace == old(trace) + [TokenWrite(token.value)]
    {
      stored := token;
      trace := trace + [TokenWrite(token.value)];
    }

    /**
      `_is_token_valid()`, with `probe` the answer to GET /users/me/. Without
      a usable token no request is issued.
    */
    method IsTokenValid(probe: Reply<()>) returns (valid: bool)
      modifies this`trace
      ensures valid == TokenValid(token, probe)
      ensures trace == old(trace) + if Truthy(token) then [ProbeRequest(ProbeUrl(baseUrl), AuthHeaders(token))] else []
    {
      if !Truthy(token) {
        return false;
      }
      trace := trace + [ProbeRequest(ProbeUrl(baseUrl), AuthHeaders(token))];
      match probe
      case TransportFailure =>
        return false;
      case Response(status, _) =>
        if status == 200 {
          return true;
        }
        if 400 <= status < 500 {
          return false;
        }
        return false;
    }

    /**
      `authenticate()`, with `login` the answer to POST /auth/login/ and its
      "access" field as body. A failed request, an error status or a body that
      is not JSON raise before the token is touched; otherwise the token is
      replaced by the "access" value, and an absent or empty one raises
      without the old token being kept.
    */
    method Authenticate(login: Reply<Option<string>>) returns (outcome: Outcome)
      modifies this`token, this`trace
      ensures trace == old(trace) + [LoginRequest(LoginUrl(baseUrl), identifier, password)]
      ensures match Decode(login)
        case Err(e) => token == old(token) && outcome == Raised(e)
        case Ok(access) => token == access && outcome == if Truthy(access) then Done else Raised(MissingToken)
    {
      trace := trace + [LoginRequest(LoginUrl(baseUrl), identifier, password)];
      var response := Decode(login);
      if response.Err? {
        return Raised(response.error);
      }
      token := response.value;
      if !Truthy(token) {
        return Raised(MissingToken);
      }
      return Done;
    }

    /**
      The second half of `__init__`, after the attributes are set: load the
      stored token, probe it, and only when it is not valid log in once and
      save the new token.
    */
    method Establish(probe: Reply<()>, login: Reply<Option<string>>) returns (outcome: Outcome)
      modifies this`token, this`stored, this`trace
      ensures var loaded := LoadedToken(old(stored), old(token));
        var probes := if Truthy(loaded) then [ProbeRequest(ProbeUrl(baseUrl), AuthHeaders(loaded))] else [];
        var loginRequest := LoginRequest(LoginUrl(baseUrl), identifier, password);
        if TokenValid(loaded, probe) then
          outcome == Done && token == loaded && stored == old(stored) && trace == old(trace) + probes
        else match Decode(login)
          case Err(e) =>
            outcome == Raised(e) && token == loaded && stored == old(stored)
            && trace == old(trace) + probes + [loginRequest]
          case Ok(access) =>
            token == access &&
            if Truthy(access) then
              outcome == Done && stored == access
              && trace == old(trace) + probes + [loginRequest, TokenWrite(access.value)]
            else
              outcome == Raised(MissingToken) && stored == old(stored)
              && trace == old(trace) + probes + [loginRequest]
      ensures outcome == Done ==> Truthy(token)
    {
      LoadToken();
      var valid := IsTokenValid(probe);
      if !valid {
        outcome := Authenticate(login);
        if outcome.Raised? {
          return;
        }
        SaveToken();
      } else {
        outcome := Done;
      }
    }

    /**
      `create_run(run_name)`, with `reply` the answer to POST /runs and its
      "id" field as body.
    */
    method CreateRun(runName: string, reply: Reply<Option<string>>) returns (run: Result<Option<string>, Error>)
      modifies this`trace
      ensures trace == old(trace) + [CreateRunCall(RunsUrl(baseUrl), runName, AuthHeaders(token))]
      ensures run == Decode(reply)
    {
      trace := trace + [CreateRunCall(RunsUrl(baseUrl), runName, AuthHeaders(token))];
      run := Decode(reply);
    }

    /** `upload_file(run_id, file_path)`, with `attempt` what opening and sending the file gives. */
    method UploadFile(runId: Option<string>, file: Path, attempt: UploadAttempt) returns (outcome: Outcome)
      modifies this`trace
      ensures trace == old(trace) + [UploadFileCall(AttachmentsUrl(baseUrl, runId), file, AuthHeaders(token))]
      ensures outcome == if UploadError(attempt).Some? then Raised(UploadError(attempt).value) else Done
    {
      trace := trace + [UploadFileCall(AttachmentsUrl(baseUrl, runId), file, AuthHeaders(token))];
      var error := UploadError(attempt);
      outcome := if error.Some? then Raised(error.value) else Done;
    }
  }
}
