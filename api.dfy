/**
 * The request dispatcher of the web client (`web/src/api/index.ts`): request
 * preparation (headers, body or query string), the pool of abort handles, the
 * response envelope check, the error classification and the download name.
 *
 * `fetch` is a parameter; `JSON.stringify` and the `URLSearchParams` encoder
 * are the two functions of a `Codec`. An `AbortController` is a number; its
 * `signal.aborted` flag is membership in `Dispatcher.aborted`.
 */
module Api {
  import opened Wrappers
  import opened Strings
  import AuthStore

  // ---------------------------------------------------------------------
  // Data
  // ---------------------------------------------------------------------

  /** The response envelope `{code, message, data, total?}`; code 0 is success. */
  datatype Envelope<T> = Envelope(code: int, message: string, data: T, total: Option<int>)

  /** The table adapter's `{data, total, success}`. */
  datatype PageResponse<T> = PageResponse(data: T, total: int, success: bool)

  /** The caller's `RequestOptions`, as far as the dispatcher reads them. */
  datatype RequestOptions<P> = RequestOptions(
    url: string,
    params: Option<P>,
    httpMethod: Option<string>,
    body: Option<string>,
    headers: map<string, string>)

  /** The `RequestInit` handed to `fetch`. */
  datatype FetchConfig = FetchConfig(
    httpMethod: Option<string>,
    body: Option<string>,
    headers: map<string, string>,
    signal: nat)

  /** The two serialisers the dispatcher calls: `JSON.stringify` and the urlencoded form. */
  datatype Codec<!P> = Codec(json: P -> string, query: P -> string)

  /** What `response.json()` yields: an envelope, or a parse failure. */
  datatype Body<T> = Json(envelope: Envelope<T>) | NotJson(detail: string)

  /** The parts of a `Response` that the dispatcher reads. */
  datatype Response<T> = Response(
    status: int,
    statusText: string,
    body: Body<T>,
    contentDisposition: Option<string>,
    blobType: string)

  /** What `await fetch(url, config)` does: returns a response or throws. */
  datatype Transport<T> = Responded(response: Response<T>) | Threw(error: ErrorValue)

  /** The values that reach `handleError`, and the `Error(statusText)` it creates. */
  datatype ErrorValue =
    | AbortError                                      // a DOMException named AbortError
    | FailedResponse(status: int, statusText: string) // the Response thrown when !response.ok
    | OtherError(detail: string)                      // a network TypeError, a JSON SyntaxError, ...
    | ServerError(message: string)                    // new Error(response.statusText)

  /** Why a call rejected: a nonzero envelope, or an error. */
  datatype Rejection<T> = EnvelopeRejected(envelope: Envelope<T>) | ErrorRejected(error: ErrorValue)

  /** How the promise of a call settles. */
  datatype Outcome<R, T> = Resolved(value: R) | Rejected(reason: Rejection<T>)

  /** How the try block of a call ends: it returns a settled promise, or it throws. */
  datatype Attempt<R, T> = Returns(outcome: Outcome<R, T>) | Throws(error: ErrorValue)

  /** The branches of `handleError`. */
  datatype ErrorKind = Aborted | Unauthorized | ServerFailure | OtherFailure

  // ---------------------------------------------------------------------
  // Request preparation
  // ---------------------------------------------------------------------

  /** `defaultHeaders`. */
  const DefaultHeaders: map<string, string> := map["Content-Type" := "application/json"]

  /** `getAuthHeaders`: a bearer header (section 2.1 of RFC 6750) when there is a token. */
  function AuthHeaders(token: Option<string>): map<string, string>
  {
    if AuthStore.HasToken(token) then map["Authorization" := "Bearer " + token.value] else map[]
  }

  /** `{...defaultHeaders, ...options.headers, ...getAuthHeaders()}`. */
  function MergeHeaders(caller: map<string, string>, token: Option<string>): map<string, string>
  {
    DefaultHeaders + caller + AuthHeaders(token)
  }

  /** `options.method || 'GET'`. */
  function EffectiveMethod(httpMethod: Option<string>): string
  {
    if !TruthyString(httpMethod) then "GET" else httpMethod.value
  }

  /** `['PUT', 'POST'].includes(options.method || 'GET')`; the test is case-sensitive. */
  predicate SendsBody(httpMethod: Option<string>)
  {
    EffectiveMethod(httpMethod) == "PUT" || EffectiveMethod(httpMethod) == "POST"
  }

  /** `options.body || JSON.stringify(params)`; stringifying no params gives no body. */
  function BodyFor<P>(opts: RequestOptions<P>, codec: Codec<P>): Option<string>
  {
    if TruthyString(opts.body) then opts.body
    else if opts.params.Some? then Some(codec.json(opts.params.value))
    else None
  }

  /**
   * `buildQueryString`: `''` for absent params or an empty query, else
   * `'?' + query`. Params are objects wherever the source calls it, so the
   * `!params` test is false exactly for absent params.
   */
  function BuildQueryString<P>(params: Option<P>, encode: P -> string): (r: string)
    ensures r == "" <==> params.None? || encode(params.value) == ""
    ensures r != "" ==> r[0] == '?' && r[1..] == encode(params.value)
  {
    if params.None? then ""
    else
      var query := encode(params.value);
      if query == "" then "" else "?" + query
  }

  /**
   * The URL and `RequestInit` built by `formatFetchConfig` for the controller
   * `signal`. Outside PUT/POST the caller's `body` is copied by the spread of
   * `options` and is left as it is.
   */
  function Prepare<P>(opts: RequestOptions<P>, token: Option<string>, codec: Codec<P>, signal: nat)
    : (string, FetchConfig)
  {
    var headers := MergeHeaders(opts.headers, token);
    if SendsBody(opts.httpMethod) then
      (opts.url, FetchConfig(opts.httpMethod, BodyFor(opts, codec), headers, signal))
    else
      (opts.url + BuildQueryString(opts.params, codec.query),
       FetchConfig(opts.httpMethod, opts.body, headers, signal))
  }

  /** The auth header is present exactly when there is a token, and carries it. */
  lemma AuthHeadersIff(token: Option<string>)
    ensures AuthStore.HasToken(token) ==>
      AuthHeaders(token) == map["Authorization" := "Bearer " + token.value]
    ensures !AuthStore.HasToken(token) ==> AuthHeaders(token) == map[]
  {
  }

  /**
   * Header precedence: the auth header beats the caller's headers, which beat
   * the defaults; a caller's `Authorization` survives only without a token.
   */
  lemma MergeHeadersPrecedence(caller: map<string, string>, token: Option<string>, k: string)
    ensures var m := MergeHeaders(caller, token);
      && (k in m <==> (k in DefaultHeaders || k in caller || k in AuthHeaders(token)))
      && (k in AuthHeaders(token) ==> m[k] == AuthHeaders(token)[k])
      && (k !in AuthHeaders(token) && k in caller ==> m[k] == caller[k])
      && (k !in AuthHeaders(token) && k !in caller && k in DefaultHeaders ==> m[k] == DefaultHeaders[k])
  {
  }

  /** With a token, `Authorization` is the bearer header whatever the caller passed. */
  lemma AuthHeaderOverridesCaller(caller: map<string, string>, token: Option<string>)
    requires AuthStore.HasToken(token)
    ensures MergeHeaders(caller, token)["Authorization"] == "Bearer " + token.value
  {
  }

  /** PUT and POST keep the URL and carry the body (the caller's, or the JSON of the params). */
  lemma PrepareBodyMethods<P>(opts: RequestOptions<P>, token: Option<string>, codec: Codec<P>, signal: nat)
    requires SendsBody(opts.httpMethod)
    ensures Prepare(opts, token, codec, signal).0 == opts.url
    ensures Prepare(opts, token, codec, signal).1.body ==
      if TruthyString(opts.body) then opts.body
      else if opts.params.Some? then Some(codec.json(opts.params.value)) else None
  {
  }

  /** Any other method (GET when none is given) puts the params in the query string. */
  lemma PrepareQueryMethods<P>(opts: RequestOptions<P>, token: Option<string>, codec: Codec<P>, signal: nat)
    requires !SendsBody(opts.httpMethod)
    ensures Prepare(opts, token, codec, signal).0 == opts.url + BuildQueryString(opts.params, codec.query)
    ensures Prepare(opts, token, codec, signal).1.body == opts.body
    ensures opts.httpMethod.None? ==> EffectiveMethod(opts.httpMethod) == "GET"
  {
  }

  // ---------------------------------------------------------------------
  // Response classification
  // ---------------------------------------------------------------------

  /** `response.ok`. */
  predicate Ok<T>(r: Response<T>)
  {
    200 <= r.status <= 299
  }

  /** The try block of `coreRequest` after `fetch` settled. */
  function CoreAttempt<T>(t: Transport<T>): Attempt<Envelope<T>, T>
  {
    match t
    case Threw(e) => Throws(e)
    case Responded(r) =>
      if !Ok(r) then Throws(FailedResponse(r.status, r.statusText))
      else match r.body
        case NotJson(detail) => Throws(OtherError(detail))
        case Json(env) =>
          if env.code != 0 then Returns(Rejected(EnvelopeRejected(env))) else Returns(Resolved(env))
  }

  /** `error.status`: only a thrown Response has one. */
  function StatusOf(e: ErrorValue): Option<int>
  {
    if e.FailedResponse? then Some(e.status) else None
  }

  /** Which branch of `handleError` an error takes. */
  function Classify(e: ErrorValue): ErrorKind
  {
    if e.AbortError? then Aborted
    else if StatusOf(e) == Some(401) then Unauthorized
    else if StatusOf(e).Some? && StatusOf(e).value >= 500 then ServerFailure
    else OtherFailure
  }

  /** The value `handleError` rejects with. */
  function RejectionValue(e: ErrorValue): ErrorValue
  {
    if Classify(e) == ServerFailure then ServerError(e.statusText) else e
  }

  /** How `coreRequest` settles for a given transport result. */
  function CoreOutcome<T>(t: Transport<T>): Outcome<Envelope<T>, T>
  {
    match CoreAttempt(t)
    case Returns(o) => o
    case Throws(e) => Rejected(ErrorRejected(RejectionValue(e)))
  }

  /** The call's try block throws a 401, so `handleError` takes its session-clearing branch. */
  predicate UnauthorizedFailure<T>(t: Transport<T>)
  {
    CoreAttempt(t).Throws? && Classify(CoreAttempt(t).error) == Unauthorized
  }

  /** The error `apiDownload` hands to `handleError`, if any: a thrown error or a failed status. */
  function DownloadFailure<T>(t: Transport<T>): Option<ErrorValue>
  {
    if t.Threw? then Some(t.error)
    else if !Ok(t.response) then Some(FailedResponse(t.response.status, t.response.statusText))
    else None
  }

  /** A download fails with a 401 exactly when its transport would make `coreRequest` fail with one. */
  lemma DownloadFailureUnauthorized<T>(t: Transport<T>)
    ensures (DownloadFailure(t).Some? && Classify(DownloadFailure(t).value) == Unauthorized) <==>
      (t.Threw? && Classify(t.error) == Unauthorized) || (t.Responded? && t.response.status == 401)
    ensures t.Responded? && t.response.status == 401 ==> UnauthorizedFailure(t)
  {
  }

  /** The branches of `handleError`: every one rejects; only a 5xx replaces the error. */
  lemma RejectionValueCases(e: ErrorValue)
    ensures Classify(e) == Aborted <==> e == AbortError
    ensures Classify(e) == Unauthorized <==> e.FailedResponse? && e.status == 401
    ensures Classify(e) == ServerFailure <==> e.FailedResponse? && e.status >= 500
    ensures Classify(e) == ServerFailure ==> RejectionValue(e) == ServerError(e.statusText)
    ensures Classify(e) != ServerFailure ==> RejectionValue(e) == e
  {
  }

  /** A call resolves exactly for an ok response whose envelope has code 0, and with that envelope. */
  lemma CoreOutcomeResolvedIff<T>(t: Transport<T>)
    ensures CoreOutcome(t).Resolved? <==>
      t.Responded? && Ok(t.response) && t.response.body.Json? && t.response.body.envelope.code == 0
    ensures CoreOutcome(t).Resolved? ==> CoreOutcome(t).value == t.response.body.envelope
  {
  }

  /** A nonzero code rejects with the envelope itself and does not reach `handleError`. */
  lemma NonzeroCodeRejectsWithEnvelope<T>(r: Response<T>)
    requires Ok(r) && r.body.Json? && r.body.envelope.code != 0
    ensures CoreAttempt(Responded(r)) == Returns(Rejected(EnvelopeRejected(r.body.envelope)))
    ensures CoreOutcome(Responded(r)) == Rejected(EnvelopeRejected(r.body.envelope))
  {
  }

  /** A failed response status is classified by the status alone. */
  lemma FailedStatusClassified<T>(r: Response<T>)
    requires !Ok(r)
    ensures CoreAttempt(Responded(r)) == Throws(FailedResponse(r.status, r.statusText))
    ensures r.status == 401 ==> Classify(FailedResponse(r.status, r.statusText)) == Unauthorized
    ensures r.status >= 500 ==>
      CoreOutcome(Responded(r)) == Rejected(ErrorRejected(ServerError(r.statusText)))
  {
  }

  /** `proTableRequest`'s success mapping: `{data, total: total || 0, success: true}`. */
  function ToPage<T>(env: Envelope<T>): (page: PageResponse<T>)
    ensures page.success
    ensures page.data == env.data
    ensures page.total == if env.total.Some? then env.total.value else 0
  {
    PageResponse(env.data, env.total.GetOr(0), true)
  }

  // ---------------------------------------------------------------------
  // Download name
  // ---------------------------------------------------------------------

  /** `pat` occurs in `s` at index `i`. */
  predicate OccursAt(s: string, pat: string, i: nat)
  {
    i + |pat| <= |s| && s[i..i + |pat|] == pat
  }

  /** The index of the first occurrence of `pat` in `s`, at or after `from`. */
  function IndexOf(s: string, pat: string, from: nat): (r: Option<nat>)
    requires |pat| > 0
    ensures r.Some? ==> from <= r.value && OccursAt(s, pat, r.value)
    ensures r.Some? ==> forall j :: from <= j < r.value ==> !OccursAt(s, pat, j)
    ensures r.None? ==> forall j :: from <= j ==> !OccursAt(s, pat, j)
    decreases |s| - from
  {
    if from + |pat| > |s| then None
    else if OccursAt(s, pat, from) then Some(from)
    else IndexOf(s, pat, from + 1)
  }

  /**
   * `s.split(pat)[1]`: the text between the first and the second occurrence
   * of `pat`. It exists exactly when `pat` occurs; it is a prefix of what
   * follows the first occurrence, holds no occurrence of its own, and ends
   * either at the end of `s` or where the next occurrence starts.
   */
  function SecondPiece(s: string, pat: string): (r: Option<string>)
    requires |pat| > 0
    ensures r.None? <==> IndexOf(s, pat, 0).None?
    ensures r.Some? ==>
      var rest := s[IndexOf(s, pat, 0).value + |pat|..];
      && r.value <= rest
      && (forall k: nat :: !OccursAt(r.value, pat, k))
      && (r.value == rest || OccursAt(rest, pat, |r.value|))
  {
    match IndexOf(s, pat, 0)
    case None => None
    case Some(i) =>
      var rest := s[i + |pat|..];
      match IndexOf(rest, pat, 0)
      case None => Some(rest)
      case Some(j) =>
        PrefixBeforeOccurrence(rest, pat, j);
        Some(rest[..j])
  }

  /** The text before the first occurrence of `pat` holds no occurrence of it. */
  lemma PrefixBeforeOccurrence(s: string, pat: string, j: nat)
    requires |pat| > 0 && j <= |s|
    requires forall k :: 0 <= k < j ==> !OccursAt(s, pat, k)
    ensures forall k: nat :: !OccursAt(s[..j], pat, k)
  {
    forall k: nat
      ensures !OccursAt(s[..j], pat, k)
    {
      if k + |pat| <= j {
        assert !OccursAt(s, pat, k);
        assert s[..j][k..k + |pat|] == s[k..k + |pat|];
      }
    }
  }

  /** `mimeToExt`. */
  const MimeToExt: map<string, string> := map[
    "text/plain" := ".txt",
    "text/csv" := ".csv",
    "text/html" := ".html",
    "text/css" := ".css",
    "text/javascript" := ".js",
    "text/xml" := ".xml",
    "text/markdown" := ".md",
    "application/pdf" := ".pdf",
    "application/msword" := ".doc",
    "application/vnd.openxmlformats-officedocument.wordprocessingml.document" := ".docx",
    "application/vnd.ms-excel" := ".xls",
    "application/vnd.openxmlformats-officedocument.spreadsheetml.sheet" := ".xlsx",
    "application/vnd.ms-powerpoint" := ".ppt",
    "application/vnd.openxmlformats-officedocument.presentationml.presentation" := ".pptx",
    "application/zip" := ".zip",
    "application/x-rar-compressed" := ".rar",
    "application/x-7z-compressed" := ".7z",
    "application/gzip" := ".gz",
    "application/x-tar" := ".tar",
    "image/jpeg" := ".jpg",
    "image/png" := ".png",
    "image/gif" := ".gif",
    "image/svg+xml" := ".svg",
    "image/webp" := ".webp",
    "image/bmp" := ".bmp",
    "image/tiff" := ".tiff",
    "audio/mpeg" := ".mp3",
    "audio/wav" := ".wav",
    "audio/ogg" := ".ogg",
    "audio/mp4" := ".m4a",
    "video/mp4" := ".mp4",
    "video/avi" := ".avi",
    "video/quicktime" := ".mov",
    "video/x-msvideo" := ".avi",
    "video/webm" := ".webm",
    "application/json" := ".json",
    "application/xml" := ".xml",
    "application/octet-stream" := ".bin",
    "application/x-binary" := ".bin"
  ]

  /** `getFileExt`: the table entry for the MIME type, `.bin` when there is none. */
  function FileExt(mimeType: string): (ext: string)
    ensures mimeType in MimeToExt ==> ext == MimeToExt[mimeType]
    ensures mimeType !in MimeToExt ==> ext == ".bin"
  {
    var e := if mimeType in MimeToExt then MimeToExt[mimeType] else "";
    if e != "" then e else ".bin"
  }

  /** Every extension the table yields is a dot followed by at least one character. */
  lemma FileExtIsExtension(mimeType: string)
    ensures |FileExt(mimeType)| >= 2 && FileExt(mimeType)[0] == '.'
  {
  }

  /**
   * The name `downloadFile` saves under: the `filename=` piece of the
   * content-disposition header, else `defaultName`, else the timestamp `now`
   * (milliseconds) followed by the extension of the blob's MIME type.
   */
  function DownloadName(contentDisposition: Option<string>, defaultName: Option<string>,
                        now: nat, blobType: string): string
  {
    var fromHeader := if contentDisposition.Some? then SecondPiece(contentDisposition.value, "filename=") else None;
    var filename := if TruthyString(fromHeader) then fromHeader else defaultName;
    if TruthyString(filename) then filename.value else NatToString(now) + FileExt(blobType)
  }

  /** The choice of download name, case by case; the name is never empty. */
  lemma DownloadNameChoice(contentDisposition: Option<string>, defaultName: Option<string>,
                           now: nat, blobType: string)
    ensures var header := if contentDisposition.Some? then SecondPiece(contentDisposition.value, "filename=") else None;
      var name := DownloadName(contentDisposition, defaultName, now, blobType);
      && |name| > 0
      && (TruthyString(header) ==> name == header.value)
      && (!TruthyString(header) && TruthyString(defaultName) ==> name == defaultName.value)
      && (!TruthyString(header) && !TruthyString(defaultName) ==> name == NatToString(now) + FileExt(blobType))
  {
  }

  /** The timestamp fallback reads back as the timestamp, followed by the extension. */
  lemma TimestampNameRoundTrip(now: nat, blobType: string)
    ensures var name := DownloadName(None, None, now, blobType);
      var digits := name[..|NatToString(now)|];
      && (forall i :: 0 <= i < |digits| ==> IsDigit(digits[i]))
      && DecimalValue(digits) == now
      && name[|NatToString(now)|..] == FileExt(blobType)
  {
    var name := DownloadName(None, None, now, blobType);
    assert name == NatToString(now) + FileExt(blobType);
    assert name[..|NatToString(now)|] == NatToString(now);
    DecimalRoundTrip(now);
  }

  // ---------------------------------------------------------------------
  // The dispatcher's state: the request pool
  // ---------------------------------------------------------------------

  class Dispatcher {
    /** `requestPool`: the controllers of the calls in flight. */
    var pool: set<nat>
    /** The controllers whose signal has been aborted. */
    var aborted: set<nat>
    /** Controllers `0 .. nextId - 1` have been created. */
    var nextId: nat
    /** The session store the dispatcher reads the token from and clears on a 401. */
    const session: AuthStore.AuthState

    ghost predicate Valid()
      reads this
    {
      (forall c :: c in pool ==> c < nextId) && (forall c :: c in aborted ==> c < nextId)
    }

    constructor (session: AuthStore.AuthState)
      ensures Valid() && this.session == session
      ensures pool == {} && aborted == {} && nextId == 0
    {
      this.session := session;
      pool, aborted, nextId := {}, {}, 0;
    }

    /**
     * `formatFetchConfig`: registers a fresh, unaborted controller and builds
     * the URL and configuration from the options and the current token.
     */
    method FormatFetchConfig<P>(opts: RequestOptions<P>, codec: Codec<P>)
      returns (url: string, config: FetchConfig, controller: nat)
      requires Valid()
      modifies this
      ensures Valid()
      ensures controller == old(nextId) && nextId == old(nextId) + 1
      ensures controller !in old(pool) && controller !in aborted
      ensures pool == old(pool) + {controller} && aborted == old(aborted)
      ensures (url, config) == Prepare(opts, session.token, codec, controller)
    {
      controller := nextId;
      nextId := nextId + 1;
      pool := pool + {controller};
      var prepared := Prepare(opts, session.token, codec, controller);
      url, config := prepared.0, prepared.1;
    }

    /** `reqDelete`: deregisters exactly this controller. */
    method ReqDelete(controller: nat)
      requires Valid()
      modifies this
      ensures Valid()
      ensures pool == old(pool) - {controller}
      ensures aborted == old(aborted) && nextId == old(nextId)
    {
      pool := pool - {controller};
    }

    /** `requestPool.forEach(c => { if (!c.signal.aborted) c.abort(); })`. */
    method AbortPool()
      requires Valid()
      modifies this
      ensures Valid()
      ensures aborted == old(aborted) + pool
      ensures pool == old(pool) && nextId == old(nextId)
    {
      var rest := pool;
      while rest != {}
        invariant rest <= pool
        invariant aborted == old(aborted) + (pool - rest)
        invariant pool == old(pool) && nextId == old(nextId)
        decreases rest
      {
        var c :| c in rest;
        if c !in aborted {
          aborted := aborted + {c};
        }
        rest := rest - {c};
      }
    }

    /**
     * `handleError`: never resolves. A 401 clears the session and aborts every
     * pooled controller; every other branch leaves the session and the pool alone.
     */
    method HandleError<R, T>(e: ErrorValue) returns (o: Outcome<R, T>)
      requires Valid()
      modifies this, session
      ensures Valid()
      ensures o.Rejected? && o == Rejected(ErrorRejected(RejectionValue(e)))
      ensures pool == old(pool) && nextId == old(nextId)
      ensures Classify(e) == Unauthorized ==>
        session.token == None && session.userInfo == None && aborted == old(aborted) + pool
      ensures Classify(e) != Unauthorized ==>
        session.token == old(session.token) && session.userInfo == old(session.userInfo) &&
        aborted == old(aborted)
    {
      var kind := Classify(e);
      if kind == Aborted {
        // the abort is only logged
      } else if kind == Unauthorized {
        session.ClearAuth();
        AbortPool();
      }
      o := Rejected(ErrorRejected(RejectionValue(e)));
    }

    /**
     * `coreRequest`: register, fetch, check the envelope, classify errors,
     * and deregister in `finally`. The pool afterwards is the pool before.
     */
    method CoreRequest<P, T>(opts: RequestOptions<P>, codec: Codec<P>,
                             fetch: (string, FetchConfig) -> Transport<T>)
      returns (o: Outcome<Envelope<T>, T>)
      requires Valid()
      modifies this, session
      ensures Valid()
      ensures var sent := Prepare(opts, old(session.token), codec, old(nextId));
        var t := fetch(sent.0, sent.1);
        && o == CoreOutcome(t)
        && (UnauthorizedFailure(t) ==>
              session.token == None && session.userInfo == None &&
              aborted == old(aborted) + old(pool) + {old(nextId)})
        && (!UnauthorizedFailure(t) ==>
              session.token == old(session.token) && session.userInfo == old(session.userInfo) &&
              aborted == old(aborted))
      ensures pool == old(pool) && nextId == old(nextId) + 1
    {
      var url, config, controller := FormatFetchConfig(opts, codec);
      var t := fetch(url, config);
      var attempt := CoreAttempt(t);
      match attempt {
        case Returns(r) =>
          o := r;
        case Throws(e) =>
          o := HandleError(e);
      }
      ReqDelete(controller);
    }

    /** `apiRequest`: `coreRequest(...).then(res => res.data)`. */
    method ApiRequest<P, T>(opts: RequestOptions<P>, codec: Codec<P>,
                            fetch: (string, FetchConfig) -> Transport<T>)
      returns (o: Outcome<T, T>)
      requires Valid()
      modifies this, session
      ensures Valid()
      ensures var sent := Prepare(opts, old(session.token), codec, old(nextId));
        var c := CoreOutcome(fetch(sent.0, sent.1));
        o == (if c.Resolved? then Resolved(c.value.data) else Rejected(c.reason))
      ensures var sent := Prepare(opts, old(session.token), codec, old(nextId));
        var t := fetch(sent.0, sent.1);
        && (UnauthorizedFailure(t) ==>
              session.token == None && session.userInfo == None &&
              aborted == old(aborted) + old(pool) + {old(nextId)})
        && (!UnauthorizedFailure(t) ==>
              session.token == old(session.token) && session.userInfo == old(session.userInfo) &&
              aborted == old(aborted))
      ensures pool == old(pool)
    {
      var c := CoreRequest(opts, codec, fetch);
      o := if c.Resolved? then Resolved(c.value.data) else Rejected(c.reason);
    }

    /** `proTableRequest`: a successful envelope becomes a table page. */
    method ProTableRequest<P, T>(opts: RequestOptions<P>, codec: Codec<P>,
                                 fetch: (string, FetchConfig) -> Transport<T>)
      returns (o: Outcome<PageResponse<T>, T>)
      requires Valid()
      modifies this, session
      ensures Valid()
      ensures var sent := Prepare(opts, old(session.token), codec, old(nextId));
        var c := CoreOutcome(fetch(sent.0, sent.1));
        o == (if c.Resolved? then Resolved(ToPage(c.value)) else Rejected(c.reason))
      ensures var sent := Prepare(opts, old(session.token), codec, old(nextId));
        var t := fetch(sent.0, sent.1);
        && (UnauthorizedFailure(t) ==>
              session.token == None && session.userInfo == None &&
              aborted == old(aborted) + old(pool) + {old(nextId)})
        && (!UnauthorizedFailure(t) ==>
              session.token == old(session.token) && session.userInfo == old(session.userInfo) &&
              aborted == old(aborted))
      ensures pool == old(pool)
    {
      var c := CoreRequest(opts, codec, fetch);
      o := if c.Resolved? then Resolved(ToPage(c.value)) else Rejected(c.reason);
    }

    /**
     * `apiDownload`: an ok response resolves with the saved file name; a
     * fetch that throws or a response that is not ok goes through
     * `handleError`. Reading the blob is taken to succeed. `now` stands for
     * `Date.now()`.
     */
    method ApiDownload<P, T>(opts: RequestOptions<P>, filename: Option<string>, codec: Codec<P>,
                             fetch: (string, FetchConfig) -> Transport<T>, now: nat)
      returns (o: Outcome<string, T>)
      requires Valid()
      modifies this, session
      ensures Valid()
      ensures var sent := Prepare(opts, old(session.token), codec, old(nextId));
        var t := fetch(sent.0, sent.1);
        && (t.Responded? && Ok(t.response) ==>
              o == Resolved(DownloadName(t.response.contentDisposition, filename, now, t.response.blobType)))
        && (t.Threw? ==> o == Rejected(ErrorRejected(RejectionValue(t.error))))
        && (t.Responded? && !Ok(t.response) ==>
              o == Rejected(ErrorRejected(RejectionValue(FailedResponse(t.response.status, t.response.statusText)))))
        && (var f := DownloadFailure(t);
            f.Some? && Classify(f.value) == Unauthorized ==>
              session.token == None && session.userInfo == None &&
              aborted == old(aborted) + old(pool) + {old(nextId)})
        && (var f := DownloadFailure(t);
            !(f.Some? && Classify(f.value) == Unauthorized) ==>
              session.token == old(session.token) && session.userInfo == old(session.userInfo) &&
              aborted == old(aborted))
      ensures pool == old(pool)
    {
      var url, config, controller := FormatFetchConfig(opts, codec);
      var t := fetch(url, config);
      if t.Threw? {
        o := HandleError(t.error);
      } else if !Ok(t.response) {
        o := HandleError(FailedResponse(t.response.status, t.response.statusText));
      } else {
        var r := t.response;
        o := Resolved(DownloadName(r.contentDisposition, filename, now, r.blobType));
      }
      ReqDelete(controller);
    }
  }

  /**
   * A 401 on one call clears the session and aborts the other call still in
   * flight, while the pool goes back to holding just that other call.
   */
  method UnauthorizedAbortsPending(opts: RequestOptions<string>, codec: Codec<string>)
    returns (pendingAborted: bool, sessionCleared: bool, o: Outcome<Envelope<int>, int>)
    ensures pendingAborted && sessionCleared
    ensures o == Rejected(ErrorRejected(FailedResponse(401, "Unauthorized")))
  {
    var session := new AuthStore.AuthState();
    session.HandleLogin("token", AuthStore.UserInfo(1, "admin", None, None, ["*"], true));
    var d := new Dispatcher(session);
    var _, _, pending := d.FormatFetchConfig(opts, codec);
    var expired := (url: string, config: FetchConfig) =>
      Responded(Response(401, "Unauthorized", NotJson(""), None, ""));
    o := d.CoreRequest(opts, codec, expired);
    pendingAborted := pending in d.aborted && d.pool == {pending};
    sessionCleared := session.token == None && session.userInfo == None;
  }
}
