/** The geocode handler: a ladder of early returns (method, bearer header,
    token, body, address, API key), one Geocoding API call, and the mapping
    of Google's `status` onto the response. */
module Geocode {
  import opened Wrappers
  import opened Js
  import opened Strings
  import opened Http

  /** The Geocoding API call: `fetch` rejects (or the JSON does not parse),
      the response is not ok, or the parsed `status` and `results`. */
  datatype GeocodeOutcome =
    | GeocodeRejected(message: string)
    | GeocodeNotOk(httpStatus: nat)
    | GeocodeAnswer(status: Value, results: Value)

  /** Everything the handler reads or calls and cannot see into: the
      GOOGLE_MAPS_API_KEY environment variable, Firebase token verification
      and the Geocoding API, given the address and the key. */
  datatype Environment = Environment(
    apiKey: Option<string>,
    verify: string -> VerifyOutcome,
    geocode: (Value, string) -> GeocodeOutcome)

  /** The outbound calls, in the order they are issued. */
  datatype Call =
    | VerifyToken(token: string)
    | GeocodeRequest(address: Value, key: string)

  datatype Outcome = Outcome(response: Response, calls: seq<Call>)

  /** The `switch` of api/geocode.js lines 92-108: the message for each listed status. */
  const StatusMessages: map<string, string> := map[
    "ZERO_RESULTS" := "No results found for this address",
    "OVER_QUERY_LIMIT" := "API quota exceeded",
    "REQUEST_DENIED" := "Geocoding request denied",
    "INVALID_REQUEST" := "Invalid geocoding request",
    "UNKNOWN_ERROR" := "Server error, please try again"]

  const FallbackMessage := "Geocoding failed"

  /** The error message reported for a status other than 'OK': its entry in
      the table when it is one of the five listed strings, the fallback otherwise. */
  function StatusMessage(status: Value): (m: string)
    ensures status.Str? && status.s in StatusMessages ==> m == StatusMessages[status.s]
    ensures m == FallbackMessage <==> !(status.Str? && status.s in StatusMessages)
  {
    match status
    case Str(s) => if s in StatusMessages then StatusMessages[s] else FallbackMessage
    case _ => FallbackMessage
  }

  /** The table names five statuses, 'OK' is not one of them, and no two
      share a message. */
  lemma StatusTableShape()
    ensures StatusMessages.Keys == {"ZERO_RESULTS", "OVER_QUERY_LIMIT", "REQUEST_DENIED", "INVALID_REQUEST", "UNKNOWN_ERROR"}
    ensures "OK" !in StatusMessages
    ensures forall a, b :: a in StatusMessages && b in StatusMessages && a != b ==> StatusMessages[a] != StatusMessages[b]
  {
  }

  /** The catch-all response of api/geocode.js lines 117-123. */
  function InternalError(message: string): (r: Response)
    ensures r.status == 500 && r.body.Json? && r.body.value.Obj?
    ensures r.body.value.fields.Keys == {"error", "message"}
    ensures r.body.value.fields["error"] == Str("Internal server error")
    ensures r.body.value.fields["message"] == Str(message)
  {
    Response(500, ErrorMessageBody("Internal server error", message))
  }

  /** `if (!GOOGLE_MAPS_API_KEY)`: unset and the empty string both fail. */
  predicate KeyConfigured(apiKey: Option<string>)
    ensures KeyConfigured(apiKey) <==> apiKey.Some? && apiKey.value != ""
  {
    apiKey.Some? && Truthy(Str(apiKey.value))
  }

  /** The response to a Geocoding API call that settled (api/geocode.js lines 76-115). */
  function Answer(outcome: GeocodeOutcome): (r: Response)
    ensures outcome.GeocodeRejected? ==> r == InternalError(outcome.message)
    ensures outcome.GeocodeNotOk? ==>
      r == InternalError("Geocoding API request failed: " + NatToString(outcome.httpStatus))
    ensures outcome.GeocodeAnswer? ==> r.status == 200
    ensures outcome.GeocodeAnswer? && outcome.status == Str("OK") ==>
      r.body == Json(Obj(map["status" := Str("OK"), "results" := outcome.results]))
    ensures outcome.GeocodeAnswer? && outcome.status != Str("OK") ==>
      r.body == Json(Obj(map["status" := outcome.status, "error" := Str(StatusMessage(outcome.status)),
                             "results" := Arr([])]))
  {
    match outcome
    case GeocodeRejected(message) => InternalError(message)
    case GeocodeNotOk(status) => InternalError("Geocoding API request failed: " + NatToString(status))
    case GeocodeAnswer(status, results) =>
      if status == Str("OK") then
        Response(200, Json(Obj(map["status" := Str("OK"), "results" := results])))
      else
        Response(200, Json(Obj(map["status" := status, "error" := Str(StatusMessage(status)),
                                   "results" := Arr([])])))
  }

  /** The body's `address` once it could be destructured. */
  function Address(req: Request): (address: Value)
    requires Destructurable(req.body)
  {
    Member(req.body, "address")
  }

  /** The request has passed the method and header checks. */
  predicate HasToken(req: Request) {
    req.httpMethod == "POST" && HasBearer(req.authorization)
  }

  /** The bearer token of a request that carries one. */
  function TokenOf(req: Request): (token: string)
    requires HasToken(req)
  {
    BearerToken(req.authorization.value)
  }

  /** Every check before the Geocoding API call passes, and encoding the
      address into the URL does not throw. */
  predicate Admitted(req: Request, env: Environment) {
    HasToken(req) && env.verify(TokenOf(req)).Verified?
    && Destructurable(req.body) && Truthy(Address(req)) && KeyConfigured(env.apiKey)
    && !ToStringThrows(Address(req))
  }

  predicate GeocodeIssued(calls: seq<Call>) {
    exists i :: 0 <= i < |calls| && calls[i].GeocodeRequest?
  }

  /** After a verified token (api/geocode.js lines 51-123). */
  function Authorized(req: Request, env: Environment): (o: Outcome)
    ensures !Destructurable(req.body) ==>
      o == Outcome(InternalError(DestructureMessage(req.body, "address", "req.body")), [])
    ensures Destructurable(req.body) && !Truthy(Address(req)) ==>
      o == Outcome(Response(400, ErrorMessageBody("Bad Request", "Address is required")), [])
    ensures Destructurable(req.body) && Truthy(Address(req)) && !KeyConfigured(env.apiKey) ==>
      o == Outcome(Response(500, ErrorMessageBody("Server configuration error", "API key not configured")), [])
    ensures Destructurable(req.body) && Truthy(Address(req)) && KeyConfigured(env.apiKey)
            && ToStringThrows(Address(req)) ==>
      o == Outcome(InternalError(ToPrimitiveMessage), [])
    ensures Destructurable(req.body) && Truthy(Address(req)) && KeyConfigured(env.apiKey)
            && !ToStringThrows(Address(req)) ==>
      o == Outcome(Answer(env.geocode(Address(req), env.apiKey.value)),
                   [GeocodeRequest(Address(req), env.apiKey.value)])
  {
    if !Destructurable(req.body) then
      Outcome(InternalError(DestructureMessage(req.body, "address", "req.body")), [])
    else if !Truthy(Address(req)) then
      Outcome(Response(400, ErrorMessageBody("Bad Request", "Address is required")), [])
    else if !KeyConfigured(env.apiKey) then
      Outcome(Response(500, ErrorMessageBody("Server configuration error", "API key not configured")), [])
    else if ToStringThrows(Address(req)) then
      Outcome(InternalError(ToPrimitiveMessage), [])
    else
      Outcome(Answer(env.geocode(Address(req), env.apiKey.value)),
              [GeocodeRequest(Address(req), env.apiKey.value)])
  }

  /** The handler of api/geocode.js. */
  function Handle(req: Request, env: Environment): (o: Outcome)
    // Method gate, before anything else.
    ensures req.httpMethod == "OPTIONS" ==> o == Outcome(Response(200, NoBody), [])
    ensures req.httpMethod != "OPTIONS" && req.httpMethod != "POST" ==>
      o == Outcome(Response(405, ErrorBody("Method not allowed")), [])
    // Header gate: no outbound call at all.
    ensures req.httpMethod == "POST" && !HasBearer(req.authorization) ==>
      o == Outcome(Response(401, ErrorBody("Unauthorized - No token provided")), [])
    // A token that fails verification: 401, nothing else is called.
    ensures HasToken(req) && env.verify(TokenOf(req)).VerifyFailed? ==>
      o == Outcome(Response(401, ErrorBody("Unauthorized - Invalid token")), [VerifyToken(TokenOf(req))])
    // A verified token hands over to the rest of the ladder.
    ensures HasToken(req) && env.verify(TokenOf(req)).Verified? ==>
      o == Outcome(Authorized(req, env).response, [VerifyToken(TokenOf(req))] + Authorized(req, env).calls)
  {
    if req.httpMethod == "OPTIONS" then Outcome(Response(200, NoBody), [])
    else if req.httpMethod != "POST" then Outcome(Response(405, ErrorBody("Method not allowed")), [])
    else if !HasBearer(req.authorization) then
      Outcome(Response(401, ErrorBody("Unauthorized - No token provided")), [])
    else
      var token := BearerToken(req.authorization.value);
      match env.verify(token)
      case VerifyFailed(_) =>
        Outcome(Response(401, ErrorBody("Unauthorized - Invalid token")), [VerifyToken(token)])
      case Verified =>
        var rest := Authorized(req, env);
        Outcome(rest.response, [VerifyToken(token)] + rest.calls)
  }

  // -------------------------------------------------- properties of Handle

  /** The method is decided before anything else: the header, the body and
      the environment are irrelevant to an OPTIONS or non-POST request. */
  lemma MethodBeforeAuth(req: Request, env: Environment, authorization: Option<string>, body: Value, other: Environment)
    requires req.httpMethod != "POST"
    ensures Handle(req, env) == Handle(req.(authorization := authorization, body := body), other)
    ensures Handle(req, env).response.status == (if req.httpMethod == "OPTIONS" then 200 else 405)
  {
  }

  /** Both authorization failures are decided before the address and the
      key are looked at: whatever the body and the key, the answer is the same. */
  lemma AuthBeforeAddressAndKey(req: Request, env: Environment, body: Value, apiKey: Option<string>)
    requires req.httpMethod == "POST"
    requires !HasBearer(req.authorization) || env.verify(BearerToken(req.authorization.value)).VerifyFailed?
    ensures Handle(req, env) == Handle(req.(body := body), env.(apiKey := apiKey))
    ensures Handle(req, env).response.status == 401
  {
  }

  /** After a verified token, a body that cannot be destructured, a missing
      address, a missing key and an address whose ToString throws each end
      the request before the Geocoding API is called. */
  lemma BodyAndKeyChecks(req: Request, env: Environment)
    requires HasToken(req) && env.verify(TokenOf(req)).Verified?
    ensures var o := Handle(req, env);
      && (!Destructurable(req.body) ==>
            o == Outcome(InternalError(DestructureMessage(req.body, "address", "req.body")), [VerifyToken(TokenOf(req))]))
      && (Destructurable(req.body) && !Truthy(Address(req)) ==>
            o == Outcome(Response(400, ErrorMessageBody("Bad Request", "Address is required")),
                         [VerifyToken(TokenOf(req))]))
      && (Destructurable(req.body) && Truthy(Address(req)) && !KeyConfigured(env.apiKey) ==>
            o == Outcome(Response(500, ErrorMessageBody("Server configuration error", "API key not configured")),
                         [VerifyToken(TokenOf(req))]))
      && (Destructurable(req.body) && Truthy(Address(req)) && KeyConfigured(env.apiKey)
          && ToStringThrows(Address(req)) ==>
            o == Outcome(InternalError(ToPrimitiveMessage), [VerifyToken(TokenOf(req))]))
  {
  }

  /** The Geocoding API is called exactly when every check passes, once,
      with the body's address and the configured key. */
  lemma GeocodeIssuedExactlyWhenAdmitted(req: Request, env: Environment)
    ensures GeocodeIssued(Handle(req, env).calls) <==> Admitted(req, env)
    ensures Admitted(req, env) ==>
      Handle(req, env).calls == [VerifyToken(TokenOf(req)), GeocodeRequest(Address(req), env.apiKey.value)]
  {
    var o := Handle(req, env);
    if Admitted(req, env) {
      assert o.calls[1].GeocodeRequest?;
    } else {
      assert forall i :: 0 <= i < |o.calls| ==> o.calls[i].VerifyToken?;
    }
  }

  /** An admitted request's response: 500 on an HTTP failure; otherwise 200
      for every Google status, with the results forwarded on 'OK' and, for
      any other status, that status echoed with its table message and no results. */
  lemma StatusMapping(req: Request, env: Environment)
    requires Admitted(req, env)
    ensures var answer := env.geocode(Address(req), env.apiKey.value); var r := Handle(req, env).response;
      && (answer.GeocodeRejected? ==> r == InternalError(answer.message))
      && (answer.GeocodeNotOk? ==> r == InternalError("Geocoding API request failed: " + NatToString(answer.httpStatus)))
      && (answer.GeocodeAnswer? ==> r.status == 200)
      && (answer.GeocodeAnswer? && answer.status == Str("OK") ==>
            r.body == Json(Obj(map["status" := Str("OK"), "results" := answer.results])))
      && (answer.GeocodeAnswer? && answer.status != Str("OK") ==>
            r.body == Json(Obj(map["status" := answer.status, "error" := Str(StatusMessage(answer.status)),
                                   "results" := Arr([])])))
  {
  }

  /** Every response status the handler can give. */
  lemma ResponseStatuses(req: Request, env: Environment)
    ensures Handle(req, env).response.status in {200, 400, 401, 405, 500}
  {
  }
}
