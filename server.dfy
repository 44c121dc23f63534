/** The decisions of the backend's Express application (backend/src/server.ts)
    that are not wiring: which browser origins may call the API, and the
    envelopes of the 404 and global error handlers. The environment variables
    are parameters. */
module Server {
  import opened Wrappers
  import opened Text
  import opened Api

  const LocalFrontend: string := "http://localhost:4200"
  const ProductionFrontend: string := "https://tots-blog-creator-frontend.onrender.com"
  const CorsRefused: string := "Not allowed by CORS"
  const RouteNotFound: string := "Route not found"
  const InternalError: string := "Internal server error"

  /** `allowedOrigins`, for the value of `FRONTEND_URL` (`None` when unset). */
  function AllowedOrigins(frontendUrl: Option<string>): seq<string> {
    [OrElse(frontendUrl, LocalFrontend), LocalFrontend, ProductionFrontend]
  }

  /** The local and the production frontends are always allowed; the first entry
      is `FRONTEND_URL`, or the local frontend when it is unset or empty. */
  lemma AllowedOriginsContents(frontendUrl: Option<string>)
    ensures LocalFrontend in AllowedOrigins(frontendUrl)
    ensures ProductionFrontend in AllowedOrigins(frontendUrl)
    ensures forall o :: o in AllowedOrigins(frontendUrl) <==>
      o == OrElse(frontendUrl, LocalFrontend) || o == LocalFrontend || o == ProductionFrontend
    ensures frontendUrl.None? || frontendUrl.value == "" ==>
      forall o :: o in AllowedOrigins(frontendUrl) <==> o == LocalFrontend || o == ProductionFrontend
  {
    var origins := AllowedOrigins(frontendUrl);
    assert origins[1] == LocalFrontend && origins[2] == ProductionFrontend;
  }

  /** What the `origin` callback answers: `callback(null, true)` or
      `callback(new Error('Not allowed by CORS'))`. */
  datatype CorsDecision = Allow | Refuse(message: string)

  /** The `origin` callback. A request without an `Origin` header (or with an
      empty one) is allowed; any other origin only when it is listed. */
  function CorsCheck(origin: Option<string>, frontendUrl: Option<string>): (d: CorsDecision)
    ensures d.Refuse? ==> d.message == CorsRefused
  {
    if origin.None? || origin.value == "" then Allow
    else if origin.value in AllowedOrigins(frontendUrl) then Allow
    else Refuse(CorsRefused)
  }

  /** An origin is allowed exactly when it is absent, empty, `FRONTEND_URL`
      (or its default), the local frontend or the production frontend. */
  lemma CorsAllowsIff(origin: Option<string>, frontendUrl: Option<string>)
    ensures CorsCheck(origin, frontendUrl) == Allow <==>
      origin.None? || origin.value == "" || origin.value == OrElse(frontendUrl, LocalFrontend)
      || origin.value == LocalFrontend || origin.value == ProductionFrontend
  {
    AllowedOriginsContents(frontendUrl);
  }

  /** The catch-all handler: 404 and `{ success: false, error: 'Route not found' }`. */
  function NotFound(): (r: Reply<()>)
    ensures r.status == 404 && !r.body.success && r.body.error == Some(RouteNotFound)
    ensures r.body.data.None? && r.body.message.None?
  {
    Failure(404, RouteNotFound)
  }

  /** The global error handler: 500, and the error's message unless `NODE_ENV`
      is "production", where a fixed text hides it. */
  function GlobalError(errMessage: string, nodeEnv: Option<string>): (r: Reply<()>)
    ensures r.status == 500 && !r.body.success && r.body.data.None?
    ensures nodeEnv == Some("production") ==> r.body.error == Some(InternalError)
    ensures nodeEnv != Some("production") ==> r.body.error == Some(errMessage)
  {
    Failure(500, if nodeEnv == Some("production") then InternalError else errMessage)
  }

  /** A refused origin reaches the global error handler with the CORS error: the
      browser's request is answered 500, naming the refusal outside production. */
  lemma RefusedOriginAnswer(origin: Option<string>, frontendUrl: Option<string>, nodeEnv: Option<string>)
    requires CorsCheck(origin, frontendUrl).Refuse?
    ensures origin.Some? && origin.value !in AllowedOrigins(frontendUrl)
    ensures var r := GlobalError(CorsCheck(origin, frontendUrl).message, nodeEnv);
      r.status == 500 && r.body.error == Some(if nodeEnv == Some("production") then InternalError else CorsRefused)
  {
  }
}
