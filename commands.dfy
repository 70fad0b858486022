/**
 * The commands the user interface invokes: `set_server` (validate a server,
 * navigate to it, remember it and set the latch), `server_url` and its
 * helper `get_server_url`, and `exit_exam` (the exit password check).
 * The HTTP client, JSON parsing, URL parsing, navigation, notifications and
 * the password refresh are inputs; the store is a map of JSON values.
 */
module Commands {
  import opened Wrappers
  import opened Types
  import AppState

  /** An HTTP status code; the `http` crate only admits three-digit codes. */
  type StatusCode = x: int | 100 <= x < 1000 witness 200

  /** `StatusCode::is_success`. */
  predicate IsSuccess(code: StatusCode) {
    200 <= code < 300
  }

  /** `StatusCode::is_client_error`. */
  predicate IsClientError(code: StatusCode) {
    400 <= code < 500
  }

  /** The class of a status code is its first digit (section 15 of RFC 9110). */
  function StatusClass(code: StatusCode): (digit: nat)
    ensures 1 <= digit <= 9
  {
    code / 100
  }

  /**
   * The two tests agree with RFC 9110: 2xx is Successful (section 15.3) and
   * 4xx is Client Error (section 15.5).
   */
  lemma StatusTestsFollowRfc(code: StatusCode)
    ensures IsSuccess(code) <==> StatusClass(code) == 2
    ensures IsClientError(code) <==> StatusClass(code) == 4
    ensures !(IsSuccess(code) && IsClientError(code))
  {
  }

  /** A JSON value as `serde_json` holds it (numbers kept as integers). */
  datatype Json =
    | JNull
    | JBool(b: bool)
    | JNumber(n: int)
    | JString(s: string)
    | JArray(items: seq<Json>)
    | JObject(fields: map<string, Json>)

  /** `json!({"value": s})`, the shape both store keys hold. */
  function ValueRecord(s: string): Json {
    JObject(map["value" := JString(s)])
  }

  /** `value.as_object().unwrap().get("value").unwrap().as_str().unwrap()`; `None` where an unwrap panics. */
  function RecordValue(v: Json): Option<string> {
    if v.JObject? && "value" in v.fields && v.fields["value"].JString? then Some(v.fields["value"].s)
    else None
  }

  /** A command either returns its `Result` or panics. */
  datatype Completion<T> = Returned(result: Result<T, ModuleError>) | Panicked(reason: string)

  const NO_SERVER_URL: string := "Couldn't get server url"
  const NO_PASSWORD: string := "Couldn't find password in store"
  const REQUEST_INCORRECT: string := "Request was incorrect"
  const WENT_WRONG: string := "Something Went Wrong"

  /**
   * `get_server_url`, given the outcome of opening `store.json`: the text
   * under the `url` key, or `Internal("Couldn't get server url")` when the
   * key is absent.
   */
  function GetServerUrl(store: Result<map<string, Json>, string>): (c: Completion<string>)
    ensures store.Err? ==> c == Returned(Err(Internal(store.error)))
    ensures store.Ok? && "url" !in store.value ==> c == Returned(Err(Internal(NO_SERVER_URL)))
    ensures store.Ok? && "url" in store.value ==>
      c == (if RecordValue(store.value["url"]).Some? then Returned(Ok(RecordValue(store.value["url"]).value))
            else Panicked(OPTION_UNWRAP_PANIC))
  {
    match store
    case Err(e) => Returned(Err(FromString(e)))
    case Ok(entries) =>
      if "url" in entries then
        match RecordValue(entries["url"])
        case Some(url) => Returned(Ok(url))
        case None => Panicked(OPTION_UNWRAP_PANIC)
      else Returned(Err(Internal(NO_SERVER_URL)))
  }

  /**
   * `server_url`: a url becomes `Some`, the "Couldn't get server url" error
   * becomes `None`, and every other error, like a panic, passes through.
   */
  function ServerUrl(got: Completion<string>): (c: Completion<Option<string>>)
    ensures got.Panicked? ==> c == Panicked(got.reason)
    ensures got == Returned(Err(Internal(NO_SERVER_URL))) ==> c == Returned(Ok(None))
    ensures got.Returned? && got.result.Ok? ==> c == Returned(Ok(Some(got.result.value)))
    ensures got.Returned? && got.result.Err? && got.result.error != Internal(NO_SERVER_URL) ==>
      c == Returned(Err(got.result.error))
  {
    match got
    case Panicked(reason) => Panicked(reason)
    case Returned(Ok(url)) => Returned(Ok(Some(url)))
    case Returned(Err(Internal(msg))) =>
      if msg == NO_SERVER_URL then Returned(Ok(None)) else Returned(Err(Internal(msg)))
    case Returned(Err(e)) => Returned(Err(e))
  }

  /**
   * Together: `server_url` reports no url exactly when the key is absent,
   * or when opening the store failed with an error whose text is the very
   * "Couldn't get server url" message.
   */
  lemma ServerUrlOfStore(store: Result<map<string, Json>, string>)
    ensures ServerUrl(GetServerUrl(store)) == Returned(Ok(None)) <==>
      (store.Ok? && "url" !in store.value) || (store.Err? && store.error == NO_SERVER_URL)
    ensures forall u :: ServerUrl(GetServerUrl(store)) == Returned(Ok(Some(u))) <==>
      store.Ok? && "url" in store.value && RecordValue(store.value["url"]) == Some(u)
  {
  }

  /** What `set_server` stores under `url` reads back as the same url. */
  lemma StoredUrlReadsBack(entries: map<string, Json>, url: string)
    ensures GetServerUrl(Ok(entries["url" := ValueRecord(url)])) == Returned(Ok(url))
    ensures ServerUrl(GetServerUrl(Ok(entries["url" := ValueRecord(url)]))) == Returned(Ok(Some(url)))
  {
  }

  /**
   * `exit_exam`, given the outcome of opening the store, the password typed,
   * whether the exit notification could be shown, and the outcome of
   * `query_password_for_server`.
   */
  function ExitExam(store: Result<map<string, Json>, string>, password: string,
                    notification: Result<Unit, string>, refresh: Result<Unit, ModuleError>): Completion<bool>
  {
    match store
    case Err(e) => Returned(Err(FromString(e)))
    case Ok(entries) =>
      if "password" in entries then
        match RecordValue(entries["password"])
        case None => Panicked(OPTION_UNWRAP_PANIC)
        case Some(statePassword) =>
          if statePassword == password then
            if notification.Ok? then Returned(Ok(true)) else Panicked(RESULT_UNWRAP_PANIC)
          else Returned(Ok(false))
      else
        match refresh
        case Err(e) => Returned(Err(e))
        case Ok(_) => Returned(Err(Internal(NO_PASSWORD)))
  }

  /** With a stored password, the answer is whether the typed one is exactly equal to it. */
  lemma ExitExamComparesPassword(entries: map<string, Json>, password: string,
                                 notification: Result<Unit, string>, refresh: Result<Unit, ModuleError>)
    requires "password" in entries && RecordValue(entries["password"]).Some?
    ensures var stored := RecordValue(entries["password"]).value;
      var c := ExitExam(Ok(entries), password, notification, refresh);
      (c == Returned(Ok(true)) <==> stored == password && notification.Ok?) &&
      (c == Returned(Ok(false)) <==> stored != password)
  {
  }

  /** Without a stored password the command never answers `Ok`: it refreshes and reports the absence. */
  lemma ExitExamWithoutPassword(entries: map<string, Json>, password: string,
                                notification: Result<Unit, string>, refresh: Result<Unit, ModuleError>)
    requires "password" !in entries
    ensures var c := ExitExam(Ok(entries), password, notification, refresh);
      c == Returned(Err(if refresh.Err? then refresh.error else Internal(NO_PASSWORD)))
  {
  }

  /** `true` only ever comes from a matching stored password. */
  lemma ExitExamTrueNeedsMatch(store: Result<map<string, Json>, string>, password: string,
                               notification: Result<Unit, string>, refresh: Result<Unit, ModuleError>)
    ensures ExitExam(store, password, notification, refresh) == Returned(Ok(true)) ==>
      store.Ok? && "password" in store.value && RecordValue(store.value["password"]) == Some(password)
  {
  }

  /** The validator's reply, as far as `set_server` reads it. */
  datatype HttpResponse = HttpResponse(status: StatusCode, body: Result<string, string>)

  /**
   * The outcomes of the collaborators `set_server` calls, in call order:
   * building the client, sending the request, parsing the body's `ip_addr`,
   * parsing that as a URL, navigating, opening the store and saving it.
   */
  datatype SetServerEnv = SetServerEnv(
    client: Result<Unit, string>,
    response: Result<HttpResponse, string>,
    validator: Result<string, string>,
    newUrl: Result<string, string>,
    navigate: Result<Unit, ModuleError>,
    store: Result<Unit, string>,
    save: Result<Unit, string>)

  /** The address `set_server` asks to validate the server. */
  function ValidateUrl(url: string): string {
    url + ":8080/validate"
  }

  /** A reply and its body arrived. */
  predicate Fetched(env: SetServerEnv) {
    env.client.Ok? && env.response.Ok? && env.response.value.body.Ok?
  }

  /** The success path reaches `navigate_and_adjust_window`. */
  predicate ReachesNavigate(env: SetServerEnv) {
    Fetched(env) && IsSuccess(env.response.value.status) && env.validator.Ok? && env.newUrl.Ok?
  }

  /** The success path reaches `store.set("url", ..)`. */
  predicate ReachesStoreSet(env: SetServerEnv) {
    ReachesNavigate(env) && env.navigate.Ok? && env.store.Ok?
  }

  /** The store was saved, so the latch is written next. */
  predicate ReachesLatch(env: SetServerEnv) {
    ReachesStoreSet(env) && env.save.Ok?
  }

  /** The result `set_server` returns; `latchPoisoned` says whether `InitState` cannot be locked. */
  function SetServerResult(env: SetServerEnv, latchPoisoned: bool): Result<Unit, ModuleError> {
    if env.client.Err? then Err(RequsetError(env.client.error))
    else if env.response.Err? then Err(FromString(env.response.error))
    else if env.response.value.body.Err? then
      Err(FromString("Failed to read response body: " + env.response.value.body.error))
    else
      var status := env.response.value.status;
      if IsSuccess(status) then
        if env.validator.Err? then Err(FromString("Failed to parse JSON: " + env.validator.error))
        else if env.newUrl.Err? then Err(FromString("Invalid URL: " + env.newUrl.error))
        else if env.navigate.Err? then Err(env.navigate.error)
        else if env.store.Err? then Err(Internal("Failed to get store: " + env.store.error))
        else if env.save.Err? then Err(Internal("Failed to save store: " + env.save.error))
        else if latchPoisoned then Err(Internal("Failed to lock InitState: " + AppState.POISONED))
        else Ok(Unit)
      else if IsClientError(status) then Err(Internal(REQUEST_INCORRECT))
      else Err(Internal(WENT_WRONG))
  }

  /**
   * Once a reply has arrived its status decides the branch: 2xx goes on to
   * the success path, 4xx is "Request was incorrect", anything else is
   * "Something Went Wrong".
   */
  lemma SetServerStatusBranches(env: SetServerEnv, latchPoisoned: bool)
    requires Fetched(env)
    ensures var r := SetServerResult(env, latchPoisoned);
      var status := env.response.value.status;
      (IsClientError(status) ==> r == Err(Internal(REQUEST_INCORRECT))) &&
      (!IsSuccess(status) && !IsClientError(status) ==> r == Err(Internal(WENT_WRONG))) &&
      (r.Ok? ==> StatusClass(status) == 2)
  {
    StatusTestsFollowRfc(env.response.value.status);
  }

  /** `set_server` succeeds exactly when every step succeeds and the latch can be written. */
  lemma SetServerOkIff(env: SetServerEnv, latchPoisoned: bool)
    ensures SetServerResult(env, latchPoisoned).Ok? <==> ReachesLatch(env) && !latchPoisoned
  {
  }

  /** Failures before a reply arrives are reported whatever the server would have said. */
  lemma SetServerTransportErrors(env: SetServerEnv, latchPoisoned: bool)
    ensures env.client.Err? ==> SetServerResult(env, latchPoisoned) == Err(RequsetError(env.client.error))
    ensures env.client.Ok? && env.response.Err? ==>
      SetServerResult(env, latchPoisoned) == Err(Internal(env.response.error))
    ensures env.client.Ok? && env.response.Ok? && env.response.value.body.Err? ==>
      SetServerResult(env, latchPoisoned) ==
        Err(Internal("Failed to read response body: " + env.response.value.body.error))
  {
  }

  /** The application's `store.json`: its contents in memory and as last saved. */
  class Store {
    var entries: map<string, Json>
    var saved: map<string, Json>

    constructor (contents: map<string, Json>)
      ensures entries == contents && saved == contents
    {
      entries := contents;
      saved := contents;
    }
  }

  /**
   * `set_server`: the request goes to `url:8080/validate`; on a 2xx reply
   * the window navigates to the validator's address, `url` is set to
   * `{"value": url}` and saved, and only then is the latch set.
   */
  method SetServer(store: Store, init: AppState.InitState, url: string, env: SetServerEnv)
    returns (requested: Option<string>, navigatedTo: Option<string>, r: Result<Unit, ModuleError>)
    modifies store, init`value
    ensures requested == (if env.client.Ok? then Some(ValidateUrl(url)) else None)
    ensures navigatedTo == (if ReachesNavigate(env) then Some(env.newUrl.value) else None)
    ensures r == SetServerResult(env, init.poisoned)
    ensures store.entries == (if ReachesStoreSet(env) then old(store.entries)["url" := ValueRecord(url)] else old(store.entries))
    ensures store.saved == (if ReachesLatch(env) then store.entries else old(store.saved))
    ensures init.value == (old(init.value) || r.Ok?)
  {
    requested, navigatedTo := None, None;
    if env.client.Err? {
      return requested, navigatedTo, Err(RequsetError(env.client.error));
    }
    requested := Some(ValidateUrl(url));
    if env.response.Err? {
      return requested, navigatedTo, Err(FromString(env.response.error));
    }
    var response := env.response.value;
    if response.body.Err? {
      return requested, navigatedTo, Err(FromString("Failed to read response body: " + response.body.error));
    }
    if IsSuccess(response.status) {
      if env.validator.Err? {
        return requested, navigatedTo, Err(FromString("Failed to parse JSON: " + env.validator.error));
      }
      if env.newUrl.Err? {
        return requested, navigatedTo, Err(FromString("Invalid URL: " + env.newUrl.error));
      }
      navigatedTo := Some(env.newUrl.value);
      if env.navigate.Err? {
        return requested, navigatedTo, Err(env.navigate.error);
      }
      if env.store.Err? {
        return requested, navigatedTo, Err(Internal("Failed to get store: " + env.store.error));
      }
      store.entries := store.entries["url" := ValueRecord(url)];
      if env.save.Err? {
        return requested, navigatedTo, Err(Internal("Failed to save store: " + env.save.error));
      }
      store.saved := store.entries;
      var latched := init.MarkInitialized();
      if latched.Err? {
        return requested, navigatedTo, Err(Internal("Failed to lock InitState: " + latched.error));
      }
      return requested, navigatedTo, Ok(Unit);
    } else if IsClientError(response.status) {
      return requested, navigatedTo, Err(Internal(REQUEST_INCORRECT));
    } else {
      return requested, navigatedTo, Err(Internal(WENT_WRONG));
    }
  }
}
