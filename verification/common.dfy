/** Shared vocabulary of the client: optional values, the outcome of an HTTP
    call made with axios, the result of a fetch, and the stored profile. */
module Common {

  datatype Option<+T> = None | Some(value: T)

  /** What an awaited axios call produced: a response with a status code, or a
      thrown error (network failure, or a status outside 2xx, which axios
      rejects by default). A `Response` whose status is outside 2xx cannot
      arise from axios; every handler treats it exactly like `Thrown`. */
  datatype HttpOutcome = Response(status: int) | Thrown

  /** True when the awaited call did not throw: axios resolves only 2xx. */
  predicate Resolved(o: HttpOutcome) {
    o.Response? && 200 <= o.status < 300
  }

  /** The handlers that test `response.status === 201`. */
  predicate Created(o: HttpOutcome) {
    o.Response? && o.status == 201
  }

  /** The data of a GET, or the error it threw. */
  datatype Fetch<+T> = Fetched(data: T) | FetchFailed

  /** A JSON value as the handlers build it: a string, or `null` (what
      `AsyncStorage.getItem` yields for a missing key). */
  datatype JsValue = Str(s: string) | Null

  function OfOption(o: Option<string>): JsValue {
    match o
    case Some(s) => Str(s)
    case None => Null
  }

  /** The object saved under the "perfil" key. */
  datatype Profile = Profile(nombre: string, correo: string)

  /** `perfil?.correo` used as a condition: no profile, or an empty e-mail, is falsy. */
  function ProfileEmail(p: Option<Profile>): (r: Option<string>)
    ensures r.Some? <==> p.Some? && p.value.correo != ""
    ensures r.Some? ==> r.value == p.value.correo
  {
    if p.Some? && p.value.correo != "" then Some(p.value.correo) else None
  }

  datatype Verb = Get | Post | Put | Delete

  /** An outgoing request: verb, path below the API's `/v1/` prefix, JSON body. */
  datatype Request = Request(verb: Verb, path: string, body: map<string, JsValue>)

  /** The records served by `/usuarios`, `/organizador` and `/proveedor`;
      `servicios` is present only on providers and may be missing. */
  datatype Account = Account(nombre: string, correo: string, password: string,
                             servicios: Option<seq<string>>)
}
