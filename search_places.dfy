/** The place-search handler: a ladder of early returns (method, bearer
    header, token, body, location), a Places text search, and one detail
    lookup per result whose amenity flags are merged into the result. */
module SearchPlaces {
  import opened Wrappers
  import opened Js
  import opened Strings
  import opened Http

  /** A place object as the text search returns it. */
  type Place = map<string, Value>

  /** The JSON body posted to `places:searchText`. The coordinates are what
      parseFloat makes of the two comma-separated parts of `location`. */
  datatype SearchQuery = SearchQuery(
    textQuery: Value,
    latitude: Option<real>,
    longitude: Option<real>,
    radius: real,
    maxResultCount: nat)

  /** The text search: `fetch` rejects (or the JSON does not parse), the
      response is not ok, or the parsed data with its optional `places`. */
  datatype SearchOutcome =
    | SearchRejected(message: string)
    | SearchNotOk(status: nat)
    | SearchOk(places: Option<seq<Place>>)

  /** One detail lookup: rejected, not ok, or the parsed details object. */
  datatype DetailOutcome =
    | DetailRejected
    | DetailNotOk(status: nat)
    | DetailOk(details: map<string, Value>)

  /** Everything the handler calls and cannot see into: JavaScript's
      parseFloat (None for NaN), Firebase token verification, the text search
      and the detail lookup keyed by place id. */
  datatype Environment = Environment(
    parseFloat: Value -> Option<real>,
    verify: string -> VerifyOutcome,
    search: SearchQuery -> SearchOutcome,
    details: string -> DetailOutcome)

  /** The outbound calls, in the order they are issued. */
  datatype Call =
    | VerifyToken(token: string)
    | TextSearch(query: SearchQuery)
    | PlaceDetails(placeId: string)

  datatype Outcome = Outcome(response: Response, calls: seq<Call>)

  const DefaultTextQuery := "pub"
  const DefaultRadius: real := 5000.0
  const MaxResultCount: nat := 20
  const PlacesPrefix := "places/"

  /** The seven flags every returned place carries. */
  const AmenityFlags: set<string> := {
    "allowsDogs", "outdoorSeating", "goodForWatchingSports",
    "servesBeer", "servesWine", "servesCocktails", "goodForGroups"
  }

  /** The catch-all response of api/search-places.js lines 165-170. */
  function SearchFailure(message: string): (r: Response)
    ensures r.status == 500 && r.body.Json? && r.body.value.Obj?
    ensures r.body.value.fields.Keys == {"error", "message"}
    ensures r.body.value.fields["error"] == Str("Search failed")
    ensures r.body.value.fields["message"] == Str(message)
  {
    Response(500, ErrorMessageBody("Search failed", message))
  }

  /** `{ places: [] }` of the empty short-circuit: no `status` field. */
  const NoPlacesBody: Body := Json(Obj(map["places" := Arr([])]))

  /** `{ places, status: 'OK' }` */
  function PlacesBody(places: seq<Place>): (b: Body)
    ensures b.Json? && b.value.Obj? && b.value.fields.Keys == {"places", "status"}
    ensures b.value.fields["status"] == Str("OK")
    ensures var v := b.value.fields["places"];
      v.Arr? && |v.items| == |places| && forall i :: 0 <= i < |places| ==> v.items[i] == Obj(places[i])
  {
    Json(Obj(map[
      "places" := Arr(seq(|places|, i requires 0 <= i < |places| => Obj(places[i]))),
      "status" := Str("OK")]))
  }

  // ---------------------------------------------------------------- search

  /** The text of `location.split(',')[k]`, or undefined when there is no such part. */
  function LocationPart(location: string, k: nat): (part: Value)
    ensures part.Str? || part.Undefined?
    ensures k == 0 ==> part == Str(Before(location, ","))
    ensures k > 0 && part.Str? ==> Contains(location, ",")
  {
    match SplitPart(location, ",", k)
    case Some(part) => Str(part)
    case None => Undefined
  }

  /** `parseFloat(radius) || 5000` */
  function RadiusOrDefault(parsed: Option<real>): (r: real)
    ensures r != 0.0
    ensures parsed.None? || parsed.value == 0.0 ==> r == DefaultRadius
    ensures parsed.Some? && parsed.value != 0.0 ==> r == parsed.value
  {
    if parsed.Some? && Truthy(Num(parsed.value)) then parsed.value else DefaultRadius
  }

  /** The search request built from a string `location` (api/search-places.js
      lines 63-75), once `radius` converts to a string without throwing. */
  function BuildQuery(location: string, radius: Value, placeType: Value, keyword: Value,
                      parseFloat: Value -> Option<real>): (q: SearchQuery)
    ensures Truthy(keyword) ==> q.textQuery == keyword
    ensures !Truthy(keyword) && Truthy(placeType) ==> q.textQuery == placeType
    ensures !Truthy(keyword) && !Truthy(placeType) ==> q.textQuery == Str(DefaultTextQuery)
    ensures parseFloat(radius).None? || parseFloat(radius).value == 0.0 ==> q.radius == DefaultRadius
    ensures parseFloat(radius).Some? && parseFloat(radius).value != 0.0 ==> q.radius == parseFloat(radius).value
    ensures q.radius != 0.0 && q.maxResultCount == 20
    ensures q.latitude == parseFloat(Str(Before(location, ",")))
    ensures SplitPart(location, ",", 1).None? ==> q.longitude == parseFloat(Undefined)
    ensures SplitPart(location, ",", 1).Some? ==> q.longitude == parseFloat(Str(SplitPart(location, ",", 1).value))
  {
    SearchQuery(
      Or(Or(keyword, placeType), Str(DefaultTextQuery)),
      parseFloat(LocationPart(location, 0)),
      parseFloat(LocationPart(location, 1)),
      RadiusOrDefault(parseFloat(radius)),
      MaxResultCount)
  }

  /** JavaScript's parseFloat on values whose string form starts no number:
      "undefined", "null", "true", "false" and, for an object with no own
      `toString`, "[object Object]" all parse as NaN. */
  ghost predicate NaNOnWords(parseFloat: Value -> Option<real>) {
    && parseFloat(Undefined).None? && parseFloat(Null).None?
    && parseFloat(Bool(true)).None? && parseFloat(Bool(false)).None?
    && forall fields :: "toString" !in fields ==> parseFloat(Obj(fields)).None?
  }

  /** A radius that is undefined, null, a boolean or a plain object parses as
      NaN, so the search uses the default radius. */
  lemma NonNumericRadiusDefaults(location: string, radius: Value, placeType: Value, keyword: Value,
                                 parseFloat: Value -> Option<real>)
    requires NaNOnWords(parseFloat)
    requires radius.Undefined? || radius.Null? || radius.Bool? || (radius.Obj? && "toString" !in radius.fields)
    ensures BuildQuery(location, radius, placeType, keyword, parseFloat).radius == DefaultRadius
  {
  }

  /** A location with no comma sends no longitude: `parseFloat(undefined)`. */
  lemma NoCommaNoLongitude(location: string, radius: Value, placeType: Value, keyword: Value,
                           parseFloat: Value -> Option<real>)
    requires NaNOnWords(parseFloat)
    requires !Contains(location, ",")
    ensures BuildQuery(location, radius, placeType, keyword, parseFloat).longitude.None?
  {
    SplitSecondField(location, ",");
  }

  // ------------------------------------------------------------ enrichment

  /** The detail-lookup key: `place.id.replace('places/', '')`. None when
      `id` is not a string: `.replace` then throws a TypeError, which the
      place's own catch turns into the default flags without any lookup. */
  function DetailKey(place: Place): (k: Option<string>)
    ensures k.Some? <==> "id" in place && place["id"].Str?
    ensures k.Some? && !Contains(place["id"].s, PlacesPrefix) ==> k.value == place["id"].s
    ensures k.Some? && StartsWith(place["id"].s, PlacesPrefix) ==>
      k.value == place["id"].s[|PlacesPrefix|..]
    ensures k.Some? ==> k.value == ReplaceFirst(place["id"].s, PlacesPrefix, "")
  {
    match Field(place, "id")
    case Str(id) =>
      if StartsWith(id, PlacesPrefix) then
        assert id == PlacesPrefix + id[|PlacesPrefix|..];
        ReplaceFirstOfPrefix(PlacesPrefix, id[|PlacesPrefix|..]);
        Some(ReplaceFirst(id, PlacesPrefix, ""))
      else
        Some(ReplaceFirst(id, PlacesPrefix, ""))
    case _ => None
  }

  /** `{ ...place, allowsDogs: details.allowsDogs || false, ... }` */
  function MergeDetails(place: Place, details: map<string, Value>): (e: Place)
    ensures e.Keys == place.Keys + AmenityFlags
    ensures forall k :: k in place && k !in AmenityFlags ==> e[k] == place[k]
  {
    place + map n | n in AmenityFlags :: Or(Field(details, n), Bool(false))
  }

  /** `{ ...place, allowsDogs: false, ... }` */
  function WithDefaultFlags(place: Place): (e: Place)
    ensures e.Keys == place.Keys + AmenityFlags
    ensures forall k :: k in place && k !in AmenityFlags ==> e[k] == place[k]
    ensures forall n :: n in AmenityFlags ==> e[n] == Bool(false)
  {
    place + map n | n in AmenityFlags :: Bool(false)
  }

  /** `place.displayName?.text`: the `text` field of an object-valued
      `displayName`, and undefined otherwise (a primitive or an array has no
      `text` property). */
  function DisplayText(place: Place): (t: Value)
    ensures !("displayName" in place && place["displayName"].Obj?) ==> t == Undefined
  {
    match Field(place, "displayName")
    case Obj(fields) => Field(fields, "text")
    case _ => Undefined
  }

  /** The three detail values that the success log line of
      api/search-places.js line 115 prints. */
  const LoggedFlags: set<string> := {"allowsDogs", "outdoorSeating", "goodForWatchingSports"}

  /** Printing one of the logged detail values throws. */
  predicate LoggedValueThrows(details: map<string, Value>)
    ensures LoggedValueThrows(details) ==>
      exists n :: n in LoggedFlags && n in details && (details[n].Obj? || details[n].Arr?)
  {
    exists n :: n in LoggedFlags && ToStringThrows(Field(details, n))
  }

  /** One branch of the `Promise.all` (api/search-places.js lines 95-155).
      The branch's try/catch turns every failure inside it into the default
      flags, except one: for an id that is not a string, the catch prints
      `${place.id}`, and when that conversion throws, the branch rejects. */
  function Enrich(place: Place, details: string -> DetailOutcome): (b: Settled<Place>)
    ensures b.Rejected? <==> DetailKey(place).None? && ToStringThrows(Field(place, "id"))
    ensures b.Rejected? ==> b.message == ToPrimitiveMessage
    ensures b.Resolved? ==> b.value.Keys == place.Keys + AmenityFlags
    ensures b.Resolved? ==> forall k :: k in place && k !in AmenityFlags ==> b.value[k] == place[k]
  {
    match DetailKey(place)
    case None =>
      if ToStringThrows(Field(place, "id")) then Rejected(ToPrimitiveMessage)
      else Resolved(WithDefaultFlags(place))
    case Some(key) =>
      if ToStringThrows(DisplayText(place)) then Resolved(WithDefaultFlags(place))
      else
        match details(key)
        case DetailOk(d) =>
          if LoggedValueThrows(d) then Resolved(WithDefaultFlags(place))
          else Resolved(MergeDetails(place, d))
        case _ => Resolved(WithDefaultFlags(place))
  }

  /** `Promise.all(places.map(...))`. Every branch that rejects does so
      before its first `await`, so in array order, and `Promise.all` takes
      on the first of those rejections. Otherwise slot i holds the place
      branch i resolved to. */
  function EnrichAll(places: seq<Place>, details: string -> DetailOutcome): (r: Settled<seq<Place>>)
    ensures r.Resolved? <==> forall i :: 0 <= i < |places| ==> Enrich(places[i], details).Resolved?
    ensures r.Resolved? ==>
      |r.value| == |places| && forall i :: 0 <= i < |places| ==> r.value[i] == Enrich(places[i], details).value
    ensures r.Rejected? ==> r.message == ToPrimitiveMessage
  {
    var settled := seq(|places|, i requires 0 <= i < |places| => Enrich(places[i], details));
    assert forall i :: 0 <= i < |places| ==> settled[i] == Enrich(places[i], details);
    All(settled)
  }

  /** The detail lookups the fan-out issues, in array order: each branch
      issues its own before the first branch settles. */
  function DetailCalls(places: seq<Place>): (calls: seq<Call>)
    ensures |calls| <= |places|
    ensures forall i :: 0 <= i < |calls| ==> calls[i].PlaceDetails?
  {
    if places == [] then [] else LookupOf(places[0]) + DetailCalls(places[1..])
  }

  /** The lookup one branch of the fan-out issues (api/search-places.js lines
      99-104): none when `id` is not a string, and none when printing the
      display name throws first. */
  function LookupOf(place: Place): (calls: seq<Call>)
    ensures |calls| <= 1
    ensures calls != [] <==> DetailKey(place).Some? && !ToStringThrows(DisplayText(place))
  {
    match DetailKey(place)
    case Some(key) => if ToStringThrows(DisplayText(place)) then [] else [PlaceDetails(key)]
    case None => []
  }

  /** Everything after the text search has been issued. */
  function AfterSearch(q: SearchQuery, env: Environment): (o: Outcome)
    ensures !SearchIssued(o.calls)
    ensures env.search(q).SearchRejected? ==> o == Outcome(SearchFailure(env.search(q).message), [])
    ensures env.search(q).SearchNotOk? ==>
      o == Outcome(SearchFailure("Search failed: " + NatToString(env.search(q).status)), [])
    ensures env.search(q).SearchOk? && (env.search(q).places.None? || env.search(q).places.value == []) ==>
      o == Outcome(Response(200, NoPlacesBody), [])
    ensures DetailsIssued(o.calls) ==>
      env.search(q).SearchOk? && env.search(q).places.Some? && env.search(q).places.value != []
    ensures env.search(q).SearchOk? && env.search(q).places.Some? && env.search(q).places.value != [] ==>
      var places := env.search(q).places.value;
      o.calls == DetailCalls(places)
      && (EnrichAll(places, env.details).Resolved? ==>
            o.response == Response(200, PlacesBody(EnrichAll(places, env.details).value)))
      && (EnrichAll(places, env.details).Rejected? ==>
            o.response == SearchFailure(EnrichAll(places, env.details).message))
  {
    match env.search(q)
    case SearchRejected(message) => Outcome(SearchFailure(message), [])
    case SearchNotOk(status) => Outcome(SearchFailure("Search failed: " + NatToString(status)), [])
    case SearchOk(places) =>
      if places.None? || places.value == [] then Outcome(Response(200, NoPlacesBody), [])
      else
        var response := match EnrichAll(places.value, env.details)
          case Resolved(enriched) => Response(200, PlacesBody(enriched))
          case Rejected(message) => SearchFailure(message);
        Outcome(response, DetailCalls(places.value))
  }

  // ---------------------------------------------------------------- ladder

  /** The body's `location` once it could be destructured. */
  function Location(req: Request): (location: Value)
    requires Destructurable(req.body)
  {
    Member(req.body, "location")
  }

  /** The request has passed the method and header checks and its token verified. */
  predicate Authenticated(req: Request, env: Environment) {
    req.httpMethod == "POST" && HasBearer(req.authorization)
    && env.verify(BearerToken(req.authorization.value)).Verified?
  }

  /** Every check before the text search passes, and building its body
      does not throw. */
  predicate Admitted(req: Request, env: Environment) {
    Authenticated(req, env) && Destructurable(req.body)
    && Truthy(Location(req)) && Location(req).Str?
    && !ToStringThrows(Member(req.body, "radius"))
  }

  /** The query an admitted request sends. */
  function QueryOf(req: Request, env: Environment): (q: SearchQuery)
    requires Admitted(req, env)
  {
    BuildQuery(Location(req).s, Member(req.body, "radius"), Member(req.body, "type"),
               Member(req.body, "keyword"), env.parseFloat)
  }

  predicate SearchIssued(calls: seq<Call>) {
    exists i :: 0 <= i < |calls| && calls[i].TextSearch?
  }

  predicate DetailsIssued(calls: seq<Call>) {
    exists i :: 0 <= i < |calls| && calls[i].PlaceDetails?
  }

  /** After a verified token (api/search-places.js lines 43-172). */
  function Authorized(req: Request, env: Environment): (o: Outcome)
    ensures !Destructurable(req.body) ==>
      o == Outcome(SearchFailure(DestructureMessage(req.body, "location", "req.body")), [])
    ensures Destructurable(req.body) && !Truthy(Location(req)) ==>
      o == Outcome(Response(400, ErrorBody("Location is required")), [])
    ensures Destructurable(req.body) && Truthy(Location(req)) && !Location(req).Str? ==>
      o == Outcome(SearchFailure("location.split is not a function"), [])
    ensures Destructurable(req.body) && Truthy(Location(req)) && Location(req).Str?
            && ToStringThrows(Member(req.body, "radius")) ==>
      o == Outcome(SearchFailure(ToPrimitiveMessage), [])
    ensures SearchIssued(o.calls) <==> Destructurable(req.body) && Truthy(Location(req)) && Location(req).Str?
                                       && !ToStringThrows(Member(req.body, "radius"))
    ensures o.calls != [] ==> o.calls[0].TextSearch?
    ensures SearchIssued(o.calls) ==>
      var q := BuildQuery(Location(req).s, Member(req.body, "radius"), Member(req.body, "type"),
                          Member(req.body, "keyword"), env.parseFloat);
      o == Outcome(AfterSearch(q, env).response, [TextSearch(q)] + AfterSearch(q, env).calls)
  {
    if !Destructurable(req.body) then
      Outcome(SearchFailure(DestructureMessage(req.body, "location", "req.body")), [])
    else if !Truthy(Location(req)) then
      Outcome(Response(400, ErrorBody("Location is required")), [])
    else if !Location(req).Str? then
      Outcome(SearchFailure("location.split is not a function"), [])
    else if ToStringThrows(Member(req.body, "radius")) then
      Outcome(SearchFailure(ToPrimitiveMessage), [])
    else
      var q := BuildQuery(Location(req).s, Member(req.body, "radius"), Member(req.body, "type"),
                          Member(req.body, "keyword"), env.parseFloat);
      var rest := AfterSearch(q, env);
      assert ([TextSearch(q)] + rest.calls)[0].TextSearch?;
      Outcome(rest.response, [TextSearch(q)] + rest.calls)
  }

  /** The handler of api/search-places.js. */
  function Handle(req: Request, env: Environment): (o: Outcome)
    // Method gate, before anything else.
    ensures req.httpMethod == "OPTIONS" ==> o == Outcome(Response(200, NoBody), [])
    ensures req.httpMethod != "OPTIONS" && req.httpMethod != "POST" ==>
      o == Outcome(Response(405, ErrorBody("Method not allowed")), [])
    // Header gate: no outbound call at all.
    ensures req.httpMethod == "POST" && !HasBearer(req.authorization) ==>
      o == Outcome(Response(401, ErrorBody("Unauthorized")), [])
    // Otherwise the first call verifies the token split out of the header.
    ensures req.httpMethod == "POST" && HasBearer(req.authorization) ==>
      o.calls != [] && o.calls[0] == VerifyToken(BearerToken(req.authorization.value))
    // A rejected token lands in the catch-all: 500, nothing else is called.
    ensures req.httpMethod == "POST" && HasBearer(req.authorization)
            && env.verify(BearerToken(req.authorization.value)).VerifyFailed? ==>
      o == Outcome(SearchFailure(env.verify(BearerToken(req.authorization.value)).message),
                   [VerifyToken(BearerToken(req.authorization.value))])
    // A verified token hands over to the rest of the ladder.
    ensures Authenticated(req, env) ==>
      o == Outcome(Authorized(req, env).response,
                   [VerifyToken(BearerToken(req.authorization.value))] + Authorized(req, env).calls)
  {
    if req.httpMethod == "OPTIONS" then Outcome(Response(200, NoBody), [])
    else if req.httpMethod != "POST" then Outcome(Response(405, ErrorBody("Method not allowed")), [])
    else if !HasBearer(req.authorization) then Outcome(Response(401, ErrorBody("Unauthorized")), [])
    else
      var token := BearerToken(req.authorization.value);
      var rest := match env.verify(token)
        case VerifyFailed(message) => Outcome(SearchFailure(message), [])
        case Verified => Authorized(req, env);
      Outcome(rest.response, [VerifyToken(token)] + rest.calls)
  }

  // -------------------------------------------------- properties of Handle

  /** The method is decided before anything else: the header, the body and
      every outbound service are irrelevant to an OPTIONS or non-POST request. */
  lemma MethodBeforeAuth(req: Request, env: Environment, authorization: Option<string>, body: Value, other: Environment)
    requires req.httpMethod != "POST"
    ensures Handle(req, env) == Handle(req.(authorization := authorization, body := body), other)
    ensures Handle(req, env).response.status == (if req.httpMethod == "OPTIONS" then 200 else 405)
  {
  }

  /** A missing or non-bearer header is decided before the body is read and
      before any service is called. */
  lemma HeaderBeforeBody(req: Request, env: Environment, body: Value, other: Environment)
    requires req.httpMethod == "POST" && !HasBearer(req.authorization)
    ensures Handle(req, env) == Handle(req.(body := body), other)
  {
  }

  /** Every response status the handler can give. */
  lemma ResponseStatuses(req: Request, env: Environment)
    ensures Handle(req, env).response.status in {200, 400, 401, 405, 500}
  {
  }

  /** After a verified token, a body that cannot be destructured, a falsy
      location, a location that is not a string and a radius whose ToString
      throws each end the request with no outbound call besides the verification. */
  lemma BodyChecks(req: Request, env: Environment)
    requires Authenticated(req, env)
    ensures var o := Handle(req, env); var verify := VerifyToken(BearerToken(req.authorization.value));
      && (!Destructurable(req.body) ==>
            o == Outcome(SearchFailure(DestructureMessage(req.body, "location", "req.body")), [verify]))
      && (Destructurable(req.body) && !Truthy(Location(req)) ==>
            o == Outcome(Response(400, ErrorBody("Location is required")), [verify]))
      && (Destructurable(req.body) && Truthy(Location(req)) && !Location(req).Str? ==>
            o == Outcome(SearchFailure("location.split is not a function"), [verify]))
      && (Destructurable(req.body) && Truthy(Location(req)) && Location(req).Str?
          && ToStringThrows(Member(req.body, "radius")) ==>
            o == Outcome(SearchFailure(ToPrimitiveMessage), [verify]))
  {
  }

  /** The text search is issued exactly when every check passes, and then
      as the second call, with the query built from the body. */
  lemma SearchIssuedExactlyWhenAdmitted(req: Request, env: Environment)
    ensures SearchIssued(Handle(req, env).calls) <==> Admitted(req, env)
    ensures Admitted(req, env) ==>
      |Handle(req, env).calls| >= 2 && Handle(req, env).calls[1] == TextSearch(QueryOf(req, env))
  {
    var o := Handle(req, env);
    if Authenticated(req, env) {
      var a := Authorized(req, env);
      var verify := VerifyToken(BearerToken(req.authorization.value));
      assert o.calls == [verify] + a.calls;
      if SearchIssued(o.calls) {
        var i :| 0 <= i < |o.calls| && o.calls[i].TextSearch?;
        IndexPastPrefix([verify], a.calls, i);
      }
      if SearchIssued(a.calls) {
        var i :| 0 <= i < |a.calls| && a.calls[i].TextSearch?;
        IndexPastPrefix([verify], a.calls, i + 1);
      }
    } else {
      assert |o.calls| <= 1;
    }
  }

  /** An admitted request is verified, then searched with its query, and
      then answered as the search's outcome decides. */
  lemma AdmittedRequest(req: Request, env: Environment)
    requires Admitted(req, env)
    ensures var q := QueryOf(req, env); var rest := AfterSearch(q, env);
      Handle(req, env) ==
        Outcome(rest.response, [VerifyToken(BearerToken(req.authorization.value)), TextSearch(q)] + rest.calls)
  {
    var q := QueryOf(req, env);
    var rest := AfterSearch(q, env);
    var a := Authorized(req, env);
    assert SearchIssued(a.calls);
    assert a == Outcome(rest.response, [TextSearch(q)] + rest.calls);
    var verify := VerifyToken(BearerToken(req.authorization.value));
    assert Handle(req, env) == Outcome(a.response, [verify] + a.calls);
    ConcatAssociates([verify], [TextSearch(q)], rest.calls);
    PairOfSingletons(verify, TextSearch(q));
  }

  /** A failed text search is a 500 carrying the failure's message; a
      successful one with no places is `{ places: [] }` with no lookups. */
  lemma SearchResultHandling(req: Request, env: Environment)
    requires Admitted(req, env)
    ensures var q := QueryOf(req, env); var o := Handle(req, env);
      var prefix := [VerifyToken(BearerToken(req.authorization.value)), TextSearch(q)];
      && (env.search(q).SearchRejected? ==>
            o == Outcome(SearchFailure(env.search(q).message), prefix))
      && (env.search(q).SearchNotOk? ==>
            o == Outcome(SearchFailure("Search failed: " + NatToString(env.search(q).status)), prefix))
      && (env.search(q).SearchOk? && (env.search(q).places.None? || env.search(q).places.value == []) ==>
            o == Outcome(Response(200, NoPlacesBody), prefix))
  {
    AdmittedRequest(req, env);
  }

  /** A non-empty search answer issues the lookups of every branch. The
      response is 200 with every place enriched and status 'OK' when every
      branch resolves, whatever its lookup did; it is the catch-all 500 when
      a branch rejects. */
  lemma EnrichedResponse(req: Request, env: Environment)
    requires Admitted(req, env)
    requires env.search(QueryOf(req, env)).SearchOk?
    requires env.search(QueryOf(req, env)).places.Some? && env.search(QueryOf(req, env)).places.value != []
    ensures var places := env.search(QueryOf(req, env)).places.value; var o := Handle(req, env);
      var all := EnrichAll(places, env.details);
      && (all.Resolved? ==> o.response == Response(200, PlacesBody(all.value)))
      && (all.Rejected? ==> o.response == SearchFailure(ToPrimitiveMessage))
      && o.calls == [VerifyToken(BearerToken(req.authorization.value)), TextSearch(QueryOf(req, env))]
                    + DetailCalls(places)
  {
    AdmittedRequest(req, env);
  }

  /** An admitted request whose body has no `radius`, or `radius: null`,
      searches with the default radius of 5000. */
  lemma MissingRadiusDefaults(req: Request, env: Environment)
    requires Admitted(req, env) && NaNOnWords(env.parseFloat)
    requires Member(req.body, "radius").Undefined? || Member(req.body, "radius").Null?
    ensures QueryOf(req, env).radius == DefaultRadius
  {
    NonNumericRadiusDefaults(Location(req).s, Member(req.body, "radius"), Member(req.body, "type"),
                             Member(req.body, "keyword"), env.parseFloat);
  }

  /** Detail lookups are issued only after a successful, non-empty search. */
  lemma DetailsOnlyAfterResults(req: Request, env: Environment)
    requires DetailsIssued(Handle(req, env).calls)
    ensures Admitted(req, env)
    ensures env.search(QueryOf(req, env)).SearchOk?
    ensures env.search(QueryOf(req, env)).places.Some? && env.search(QueryOf(req, env)).places.value != []
  {
    DetailsComeFromAfterSearch(req, env);
  }

  /** A lookup in the handler's calls is one that AfterSearch issued. */
  lemma DetailsComeFromAfterSearch(req: Request, env: Environment)
    requires DetailsIssued(Handle(req, env).calls)
    ensures Admitted(req, env)
    ensures DetailsIssued(AfterSearch(QueryOf(req, env), env).calls)
  {
    var o := Handle(req, env);
    var i :| 0 <= i < |o.calls| && o.calls[i].PlaceDetails?;
    assert Authenticated(req, env);
    var a := Authorized(req, env);
    var verify := VerifyToken(BearerToken(req.authorization.value));
    assert o.calls == [verify] + a.calls;
    IndexPastPrefix([verify], a.calls, i);
    assert SearchIssued(a.calls) by {
      assert a.calls[0].TextSearch?;
    }
    assert Admitted(req, env);
    var q := QueryOf(req, env);
    var rest := AfterSearch(q, env);
    AdmittedRequest(req, env);
    IndexPastPrefix([verify, TextSearch(q)], rest.calls, i);
    assert DetailsIssued(rest.calls);
  }

  // --------------------------------------------- properties of enrichment

  /** When the fan-out resolves, the enriched list keeps the length and
      order of the search results, and each element every field of its
      place next to the seven flags. */
  lemma EnrichAllKeepsPlaces(places: seq<Place>, details: string -> DetailOutcome)
    ensures var r := EnrichAll(places, details);
      r.Resolved? ==>
        && |r.value| == |places|
        && forall i :: 0 <= i < |places| ==>
             && r.value[i].Keys == places[i].Keys + AmenityFlags
             && forall k :: k in places[i] && k !in AmenityFlags ==> r.value[i][k] == places[i][k]
  {
  }

  /** The fan-out rejects exactly when some place has an id that is not a
      string and cannot be printed, and then with V8's ToPrimitive message. */
  lemma FanOutRejectsOnUnprintableId(places: seq<Place>, details: string -> DetailOutcome)
    ensures EnrichAll(places, details).Rejected? <==>
      exists i :: 0 <= i < |places| && DetailKey(places[i]).None? && ToStringThrows(Field(places[i], "id"))
    ensures EnrichAll(places, details).Rejected? ==> EnrichAll(places, details).message == ToPrimitiveMessage
  {
    if EnrichAll(places, details).Resolved? {
      forall i | 0 <= i < |places|
        ensures !(DetailKey(places[i]).None? && ToStringThrows(Field(places[i], "id")))
      {
        assert Enrich(places[i], details).Resolved?;
      }
    }
  }

  /** After a successful lookup whose logged values print, each flag is
      truthy exactly when the detail value is, and is then that value;
      otherwise it is `false`. */
  lemma FlagsFollowDetails(place: Place, details: string -> DetailOutcome, key: string, d: map<string, Value>)
    requires DetailKey(place) == Some(key) && !ToStringThrows(DisplayText(place))
    requires details(key) == DetailOk(d) && !LoggedValueThrows(d)
    ensures Enrich(place, details).Resolved?
    ensures forall n :: n in AmenityFlags ==>
      var flag := Enrich(place, details).value[n];
      && (Truthy(flag) <==> n in d && Truthy(d[n]))
      && (Truthy(flag) ==> flag == d[n])
      && (!Truthy(flag) ==> flag == Bool(false))
  {
  }

  /** Boolean detail values always print, and every flag is then the boolean
      "present and true". */
  lemma BooleanDetailsGiveBooleanFlags(place: Place, details: string -> DetailOutcome, key: string, d: map<string, Value>)
    requires DetailKey(place) == Some(key) && !ToStringThrows(DisplayText(place))
    requires details(key) == DetailOk(d)
    requires forall n :: n in AmenityFlags && n in d ==> d[n].Bool?
    ensures Enrich(place, details).Resolved?
    ensures forall n :: n in AmenityFlags ==> Enrich(place, details).value[n] == Bool(n in d && d[n].b)
  {
    forall n | n in LoggedFlags ensures !ToStringThrows(Field(d, n)) {
    }
    FlagsFollowDetails(place, details, key, d);
  }

  /** The branch resolves to all seven flags `false` for an id that is not a
      string but prints, a display name that does not print, a failed lookup,
      and details whose logged values do not print. */
  lemma FlagsFalseWithoutDetails(place: Place, details: string -> DetailOutcome)
    requires || (DetailKey(place).None? && !ToStringThrows(Field(place, "id")))
             || (DetailKey(place).Some? && ToStringThrows(DisplayText(place)))
             || (DetailKey(place).Some? && !details(DetailKey(place).value).DetailOk?)
             || (DetailKey(place).Some? && details(DetailKey(place).value).DetailOk?
                 && LoggedValueThrows(details(DetailKey(place).value).details))
    ensures Enrich(place, details).Resolved?
    ensures forall n :: n in AmenityFlags ==> Enrich(place, details).value[n] == Bool(false)
  {
  }

  /** When every id is a string and every display name prints, there is one
      lookup per place, in order, keyed by the de-prefixed id. */
  lemma {:induction false} DetailCallsOnePerPlace(places: seq<Place>)
    requires forall i :: 0 <= i < |places| ==> DetailKey(places[i]).Some? && !ToStringThrows(DisplayText(places[i]))
    ensures |DetailCalls(places)| == |places|
    ensures forall i :: 0 <= i < |places| ==> DetailCalls(places)[i] == PlaceDetails(DetailKey(places[i]).value)
  {
    if places != [] {
      DetailCallsOnePerPlace(places[1..]);
      assert DetailCalls(places) == [PlaceDetails(DetailKey(places[0]).value)] + DetailCalls(places[1..]);
    }
  }

  /** A single place is looked up exactly when its id is a string and its
      display name prints, and then under its key. */
  lemma DetailCallsOfOne(place: Place)
    ensures DetailCalls([place]) ==
      (if DetailKey(place).Some? && !ToStringThrows(DisplayText(place)) then [PlaceDetails(DetailKey(place).value)] else [])
  {
    assert DetailCalls([place]) == DetailCalls([place][..1]) + DetailCalls([place][1..]);
  }

  /** The lookups of a concatenation are those of each part, in order: the
      fan-out treats every place on its own. */
  lemma {:induction false} DetailCallsAppend(a: seq<Place>, b: seq<Place>)
    ensures DetailCalls(a + b) == DetailCalls(a) + DetailCalls(b)
  {
    if a == [] {
      assert a + b == b;
    } else {
      var p, t := a[0], a[1..];
      assert a == [p] + t;
      assert a + b == [p] + (t + b);
      DetailCallsAppend(t, b);
      assert DetailCalls([p] + (t + b)) == LookupOf(p) + DetailCalls(t + b) by {
        assert ([p] + (t + b))[0] == p && ([p] + (t + b))[1..] == t + b;
      }
      assert DetailCalls([p] + t) == LookupOf(p) + DetailCalls(t) by {
        assert ([p] + t)[0] == p && ([p] + t)[1..] == t;
      }
      ConcatAssociates(LookupOf(p), DetailCalls(t), DetailCalls(b));
    }
  }

  // Plain sequence equalities, stated once so that the handler proofs
  // above need not rediscover them in their large contexts.

  /** An index past the prefix reads the second part. */
  lemma IndexPastPrefix<T>(p: seq<T>, r: seq<T>, i: int)
    requires |p| <= i < |p| + |r|
    ensures (p + r)[i] == r[i - |p|]
  {
  }

  /** Two singletons concatenate to the pair. */
  lemma PairOfSingletons<T>(x: T, y: T)
    ensures [x] + [y] == [x, y]
  {
  }

  /** A pair with one more element appended is the triple. */
  lemma AppendOne<T>(x: T, y: T, z: T)
    ensures [x, y] + [z] == [x, y, z]
  {
  }

  /** Concatenation is associative. */
  lemma ConcatAssociates<T>(x: seq<T>, y: seq<T>, z: seq<T>)
    ensures x + (y + z) == (x + y) + z
  {
  }

  /** The key strips only the first "places/": an id written as
      a + "places/" + b with no earlier "places/" is looked up as a + b. */
  lemma DetailKeyRemovesFirstPrefix(place: Place, a: string, b: string)
    requires "id" in place && place["id"] == Str(a + PlacesPrefix + b)
    requires forall j: nat :: j < |a| ==> !OccursAt(a + PlacesPrefix + b, PlacesPrefix, j)
    ensures DetailKey(place) == Some(a + b)
  {
    ReplaceFirstAt(a + PlacesPrefix + b, PlacesPrefix, "", a, b);
    assert a + "" + b == a + b;
  }

  /** The flags of a place whose lookup answered only `allowsDogs: true`. */
  const DogsOnlyFlags: map<string, Value> := map[
    "allowsDogs" := Bool(true), "outdoorSeating" := Bool(false), "goodForWatchingSports" := Bool(false),
    "servesBeer" := Bool(false), "servesWine" := Bool(false), "servesCocktails" := Bool(false),
    "goodForGroups" := Bool(false)]

  /** A place with id "places/" + key and a printable display name, whose
      details say only `allowsDogs: true`, is looked up under `key` and comes
      back with allowsDogs true and the other six flags false. */
  lemma DogsOnlyEnrichment(place: Place, details: string -> DetailOutcome, key: string)
    requires "id" in place && place["id"] == Str(PlacesPrefix + key)
    requires !ToStringThrows(DisplayText(place))
    requires details(key) == DetailOk(map["allowsDogs" := Bool(true)])
    ensures DetailCalls([place]) == [PlaceDetails(key)]
    ensures EnrichAll([place], details) == Resolved([place + DogsOnlyFlags])
  {
    assert DetailKey(place) == Some(key) by {
      assert (PlacesPrefix + key)[|PlacesPrefix|..] == key;
    }
    DetailCallsOfOne(place);
    var d := map["allowsDogs" := Bool(true)];
    assert !LoggedValueThrows(d) by {
      forall n | n in LoggedFlags ensures !ToStringThrows(Field(d, n)) {
      }
    }
    assert Enrich(place, details) == Resolved(MergeDetails(place, d));
    DogsOnlyFlagsMerged(d);
    assert MergeDetails(place, d) == place + DogsOnlyFlags;
    var r := EnrichAll([place], details);
    assert r.Resolved? && |r.value| == 1 && r.value[0] == place + DogsOnlyFlags;
    assert r.value == [place + DogsOnlyFlags];
  }

  /** The flag map MergeDetails builds from details that hold only
      `allowsDogs: true`. */
  lemma DogsOnlyFlagsMerged(d: map<string, Value>)
    requires d == map["allowsDogs" := Bool(true)]
    ensures (map n | n in AmenityFlags :: Or(Field(d, n), Bool(false))) == DogsOnlyFlags
  {
    var m := map n | n in AmenityFlags :: Or(Field(d, n), Bool(false));
    assert m.Keys == DogsOnlyFlags.Keys;
    forall n | n in m ensures m[n] == DogsOnlyFlags[n] {
      assert n in d <==> n == "allowsDogs";
    }
  }

  /** The worked example made general: an admitted request whose search finds
      that one place answers 200 with it enriched, after exactly one lookup. */
  lemma SingleDogFriendlyPlace(req: Request, env: Environment, place: Place, key: string)
    requires Admitted(req, env)
    requires env.search(QueryOf(req, env)) == SearchOk(Some([place]))
    requires "id" in place && place["id"] == Str(PlacesPrefix + key)
    requires !ToStringThrows(DisplayText(place))
    requires env.details(key) == DetailOk(map["allowsDogs" := Bool(true)])
    ensures Handle(req, env).response == Response(200, PlacesBody([place + DogsOnlyFlags]))
    ensures Handle(req, env).calls ==
      [VerifyToken(BearerToken(req.authorization.value)), TextSearch(QueryOf(req, env)), PlaceDetails(key)]
  {
    var q := QueryOf(req, env);
    var rest := AfterSearch(q, env);
    AdmittedRequest(req, env);
    DogsOnlyEnrichment(place, env.details, key);
    assert rest == Outcome(Response(200, PlacesBody([place + DogsOnlyFlags])), [PlaceDetails(key)]);
    var verify := VerifyToken(BearerToken(req.authorization.value));
    AppendOne(verify, TextSearch(q), PlaceDetails(key));
  }
}
