# pub-crawler-backend: the place-search and geocode handlers

This project models the two serverless HTTP handlers of the pub-crawler
backend that make real decisions:

- `api/search-places.js`. A POST with a `location` (and optionally `radius`,
  `type`, `keyword`) runs a Google Places text search for up to 20 places.
  It then looks up each result's details and merges seven amenity flags
  into it (allowsDogs, outdoorSeating, goodForWatchingSports, servesBeer,
  servesWine, servesCocktails, goodForGroups).
- `api/geocode.js`. A POST with an `address` calls the Google Geocoding
  API and maps Google's `status` onto the response.

Each handler is a pure function `Handle(req, env)`. It returns an
`Outcome`: the HTTP response (status code and JSON body) plus the log of
outbound calls in the order they are issued. That log is how "no outbound
call" is stated. Everything the handler cannot see into comes in through
`env`, as functions of the request they are given:

- Firebase `verifyIdToken`
- the text search, the detail lookup and the Geocoding API
- JavaScript's `parseFloat`
- the `GOOGLE_MAPS_API_KEY` variable

JavaScript values are the `Js.Value` datatype. `Js.Truthy` is JavaScript's
truthiness, and `Js.Or` is `||`. The `Strings` module models the string
built-ins the handlers rely on: `startsWith`, `indexOf`, `split(sep)[k]`,
`replace` with a string pattern and a replacement without `$`, and decimal rendering of a status code.

Files: `wrappers.dfy` (Option), `js.dfy`, `strings.dfy`, `http.dfy` (the
request, the response, the bearer check), `search_places.dfy`, `geocode.dfy`.

How the code behaves on the points a reader might not expect:

- In `api/search-places.js` a token that fails verification is a 500
  `{ error: 'Search failed', message }`: `verifyIdToken` throws inside the
  `try` and lands in the catch-all. `api/geocode.js` answers 401
  `Unauthorized - Invalid token` instead.
- The radius is `parseFloat(radius) || 5000`: only a NaN or zero parse
  falls back to 5000, so a negative parsed radius is sent as it is.
- The 400 for a missing location is `{ error: 'Location is required' }`,
  with no `message`.
- The empty short-circuit answers `{ places: [] }`, with no `status` field.
- These inputs throw before any upstream call and end in the catch-all
  (500 `Search failed` or `Internal server error`, with Node's message):
  - a `req.body` that is undefined or null (destructuring throws);
  - in `api/search-places.js`, a truthy `location` that is not a string
    (`location.split` throws);
  - a `radius` (search) or `address` (geocode) whose conversion to a string
    throws, which for a parsed JSON value means an object with an own
    `toString` field, or an array holding such a value (`parseFloat` and
    `encodeURIComponent` convert their argument first).
- A place whose `id` is not a string makes `place.id.replace` throw, and
  no lookup is made for it. Its catch logs `${place.id}`. When that string
  conversion succeeds, the place gets the seven default flags. When it
  throws too, the place's branch rejects, `Promise.all` rejects, and the
  whole request ends in the catch-all: 500 `Search failed` with "Cannot
  convert object to primitive value". The other places' lookups have been
  issued by then.
- The log line before the lookup prints `place.displayName?.text`. When
  that conversion throws, no lookup is made and the place gets the default
  flags. The log line after a successful lookup prints three detail values.
  When one of them throws, the place gets the default flags too.

## Model

| member | source | states |
|---|---|---|
| SearchPlaces.Handle | api/search-places.js:19-172 | OPTIONS: 200, no body, no call. Any other non-POST method: 405, no call. POST without a "Bearer " header: 401 `Unauthorized`, no call. Otherwise the first call verifies the token taken from the header. A rejected token: 500 `Search failed` with its message, and nothing more is called. A verified token hands over to the body checks. |
| SearchPlaces.MethodBeforeAuth | api/search-places.js:25-31 | For a non-POST method the outcome does not depend on the header, the body or any service; the status is 200 for OPTIONS and 405 otherwise. |
| SearchPlaces.HeaderBeforeBody | api/search-places.js:35-38 | A POST with a missing or non-bearer header has an outcome that does not depend on the body or any service. |
| SearchPlaces.Authorized | api/search-places.js:43-76 | After verification:<br>- an undefined or null body: 500 with the destructuring TypeError, no call;<br>- a falsy location: 400 `Location is required`, no call;<br>- a truthy location that is not a string: 500 `location.split is not a function`, no call;<br>- a radius whose ToString throws: 500 `Cannot convert object to primitive value`, no call.<br>Otherwise the text search is issued, first, with the query `BuildQuery` makes, and only then. |
| SearchPlaces.BodyChecks | api/search-places.js:43-71 | After a verified token, each of the four failures above ends the request, and the only call made is the token verification. |
| SearchPlaces.SearchIssuedExactlyWhenAdmitted | api/search-places.js:36-76 | The text search is issued if and only if the method, header, token, body and location checks pass and the radius converts to a string. It is then the second call, with the query built from the body. |
| SearchPlaces.AdmittedRequest | api/search-places.js:40-163 | An admitted request makes exactly these calls: the token verification, then the text search with the body's query, then whatever the search's outcome leads to. The response is the one that outcome decides. |
| SearchPlaces.BuildQuery | api/search-places.js:63-75 | The text query is `keyword` if truthy, else `type` if truthy, else "pub". The radius is the parsed value unless that is NaN or 0, in which case it is 5000, so it is never 0. The result cap is 20. The latitude is parseFloat of the text before the first comma. The longitude is parseFloat of the second comma field, or of undefined when there is no comma. |
| SearchPlaces.RadiusOrDefault | api/search-places.js:71 | `parseFloat(radius) \|\| 5000`: the parsed radius unless it is NaN or 0, then 5000; never 0. |
| SearchPlaces.LocationPart | api/search-places.js:68-69 | `location.split(',')[k]` is a string or undefined. Part 0 is the text before the first comma. A later part is a string only when the location holds a comma. |
| SearchPlaces.NonNumericRadiusDefaults | api/search-places.js:71 | For a parseFloat that gives NaN on "undefined", "null", "true", "false" and "[object Object]", a radius that is undefined, null, a boolean or an object with no own `toString` is sent as 5000. |
| SearchPlaces.MissingRadiusDefaults | api/search-places.js:43-71 | An admitted request with no `radius` in its body, or `radius: null`, searches with radius 5000. |
| SearchPlaces.NoCommaNoLongitude | api/search-places.js:69 | A location with no comma sends no longitude: `split(',')[1]` is undefined, and parseFloat of it is NaN. |
| Js.All | api/search-places.js:94-156 | `Promise.all` over settled branches: it resolves exactly when every branch resolves, with slot i the value of branch i. Otherwise it rejects with the first rejection in array order. |
| SearchPlaces.EnrichAll | api/search-places.js:94-156 | The fan-out resolves exactly when every branch resolves. It then has as many results as places, and slot i is the place that branch i resolved to. A rejection always carries "Cannot convert object to primitive value". |
| SearchPlaces.AfterSearch | api/search-places.js:78-163 | A rejected search is a 500 with its message. A non-ok search is a 500 with "Search failed: " and the status code. Missing or empty `places`: 200 `{ places: [] }` with no lookup. Otherwise the lookups of `DetailCalls` are issued. The answer is 200 with the enriched places and status 'OK' when the fan-out resolves. It is the catch-all 500 `Search failed` with the fan-out's message when the fan-out rejects. It never issues a second search, and it issues lookups only after a non-empty answer. |
| SearchPlaces.SearchResultHandling | api/search-places.js:78-89 | For an admitted request: the two search failures are 500s, and the empty answer is `{ places: [] }`. Each comes after exactly the verification and the search calls. |
| SearchPlaces.EnrichedResponse | api/search-places.js:94-170 | For a non-empty answer: 200 with the enriched list and status 'OK' when every branch resolves, whatever each lookup did. When a branch rejects, it is 500 `Search failed` with "Cannot convert object to primitive value". Either way the calls are verification, search, then the detail lookups. |
| SearchPlaces.FanOutRejectsOnUnprintableId | api/search-places.js:99-143 | The fan-out rejects if and only if some place has an `id` that is not a string and whose string conversion throws in the catch's log line. The message is then "Cannot convert object to primitive value". |
| SearchPlaces.DetailsOnlyAfterResults | api/search-places.js:86-110 | A detail lookup is issued only when the request was admitted and the search succeeded with a non-empty `places`. |
| SearchPlaces.DetailsComeFromAfterSearch | api/search-places.js:40-110 | A detail lookup among the handler's calls means the request was admitted, and AfterSearch, acting on the search's outcome, issues a lookup. |
| SearchPlaces.ResponseStatuses | api/search-places.js:25-170 | The status is always one of 200, 400, 401, 405 or 500. |
| SearchPlaces.SearchFailure | api/search-places.js:165-170 | The catch-all is a 500 whose body has exactly the fields `error`, set to "Search failed", and `message`, set to the error's message. |
| SearchPlaces.PlacesBody | api/search-places.js:160-163 | The success body has exactly the fields `places` and `status`. `status` is 'OK'. `places` lists the given places in order, one object each. |
| SearchPlaces.DetailKey | api/search-places.js:99 | The lookup key exists exactly when `id` is a string. It is then the id with its first "places/" removed (`ReplaceFirst`): an id without "places/" is unchanged, and one that starts with it loses that prefix. |
| SearchPlaces.DetailKeyRemovesFirstPrefix | api/search-places.js:99 | An id of the form a + "places/" + b, with no earlier "places/", is looked up as a + b: only the first occurrence is removed, wherever it is. |
| Strings.ReplaceFirst | api/search-places.js:99 | `replace` with a string pattern and a replacement that holds no `$`: a string without the pattern is unchanged; otherwise the length changes by the replacement minus the pattern. |
| Strings.ReplaceFirstAt | api/search-places.js:99 | When `s = a + p + b` and no occurrence of `p` starts inside `a`, the result is `a + replacement + b`: only the first occurrence is replaced. |
| Strings.ReplaceFirstOfPrefix | api/search-places.js:97-99 | Removing a pattern from a string that starts with it leaves exactly the rest. |
| SearchPlaces.MergeDetails | api/search-places.js:117-126 | On a successful lookup, the place's keys become its own keys plus the seven flags. Every non-flag field of the original place is kept. |
| SearchPlaces.WithDefaultFlags | api/search-places.js:131-153 | On a failed lookup, the place's keys plus the seven flags, every non-flag field kept, and each of the seven flags `false`. |
| SearchPlaces.Enrich | api/search-places.js:95-155 | One fan-out branch rejects if and only if the `id` is not a string and printing it in the catch throws. The rejection carries "Cannot convert object to primitive value". When it resolves, the place keeps its fields and gains the seven flags. |
| SearchPlaces.DisplayText | api/search-places.js:102 | `place.displayName?.text` is undefined unless `displayName` is an object. |
| SearchPlaces.LoggedValueThrows | api/search-places.js:115 | Printing the logged details can throw only when one of `allowsDogs`, `outdoorSeating` and `goodForWatchingSports` is present and is an object or an array. |
| SearchPlaces.EnrichAllKeepsPlaces | api/search-places.js:94-95 | The enriched list has the length and order of the search results. Element i has place i's keys plus the flags, and keeps every non-flag field of place i. |
| SearchPlaces.FlagsFollowDetails | api/search-places.js:102-126 | The branch resolves after a successful lookup when the display name and the three logged detail values print. Each flag is truthy exactly when the detail value is present and truthy, and is then that value. Otherwise the flag is `false`. |
| SearchPlaces.BooleanDetailsGiveBooleanFlags | api/search-places.js:112-126 | Booleans always print. So when the display name prints and every flag field the details hold is a boolean, the branch resolves and each flag is the boolean "present and true". Other fields of the details, such as `id` or `displayName`, may be anything. |
| SearchPlaces.FlagsFalseWithoutDetails | api/search-places.js:99-153 | The branch resolves with all seven flags `false` in four cases: the id is not a string but prints; the display name does not print; the lookup was rejected or not ok; or a logged detail value does not print. |
| SearchPlaces.DetailCalls | api/search-places.js:94-110 | No more lookups than places, and every recorded call is a detail lookup. |
| SearchPlaces.LookupOf | api/search-places.js:99-110 | One branch of the fan-out issues at most one lookup. It issues one exactly when the id is a string and the display name prints, since the log line comes before the fetch. |
| SearchPlaces.DetailCallsOfOne | api/search-places.js:99-110 | A single place is looked up exactly when its id is a string and its display name prints. It is then looked up once, under its key; otherwise nothing is called for it. |
| SearchPlaces.DetailCallsAppend | api/search-places.js:94-95 | The lookups for a concatenated list are those of each part in order. With DetailCallsOfOne, this fixes for any list, mixed ids included, which places are looked up: one call per place with a string id and a printable display name, none for the rest, in array order. |
| SearchPlaces.DetailCallsOnePerPlace | api/search-places.js:94-104 | When every id is a string and every display name prints, there is exactly one lookup per place, in array order, keyed by that place's de-prefixed id. |
| SearchPlaces.DogsOnlyEnrichment | api/search-places.js:99-126 | A place with id "places/" + key and a printable display name, whose details give only `allowsDogs: true`, is looked up under `key`. The fan-out resolves, and the place comes back with allowsDogs true and the other six flags false. |
| SearchPlaces.SingleDogFriendlyPlace | api/search-places.js:19-163 | An admitted request whose search finds just that place answers 200 with it so enriched. The calls are exactly: verify, search, lookup `key`. |
| Http.BearerToken | api/search-places.js:40 | The token is the text after the leading "Bearer " up to the next "Bearer " or the end. |
| Http.BearerTokenOfHeader | api/geocode.js:41 | A header "Bearer " + t, where t holds no further "Bearer ", carries the token t. |
| Http.HasBearer | api/geocode.js:37 | The header passes exactly when it is present and starts with "Bearer "; the empty header fails as it cannot start so. |
| Strings.StartsWith | api/search-places.js:36 | `s.startsWith(prefix)` holds exactly when s is the prefix followed by the rest of s. |
| Js.Truthy | api/search-places.js:45 | ToBoolean: a value is falsy exactly when it is undefined, null, false, 0 or the empty string; arrays and objects are always truthy. |
| Js.Or | api/search-places.js:64 | `a \|\| b` is one of its operands, is truthy exactly when either is, and is `a` whenever `a` is truthy. |
| Js.Member | api/geocode.js:51 | Destructuring a non-null body reads the object's own field, or undefined when it is absent or the body is not an object. |
| Js.DestructureMessage | api/geocode.js:51 | The TypeError text names the property and the destructured expression, and ends in "as it is undefined." or "as it is null." as the body is. |
| Js.ToStringThrows | api/geocode.js:72 | Only an object or an array can make ToString throw. |
| Strings.SplitPart | api/search-places.js:68-69 | `split(sep)[0]` is the text before the first separator. Any later field exists only when the separator occurs. |
| Strings.SplitSecondField | api/search-places.js:69 | `split(sep)[1]` exists if and only if the separator occurs. It is the text between the first occurrence and the next one, or the end. |
| Strings.BeforeIsFirstField | api/search-places.js:68 | Before(s, sep) equals t if and only if t is a prefix of s, no separator starts inside t, and t reaches the end or a separator follows it. |
| Strings.FieldBeforeHasNoSeparator | api/search-places.js:40 | A field before the first separator contains no separator. |
| Strings.IndexOf | api/search-places.js:99 | The result is the first position where the pattern occurs, and there is none earlier. None means the pattern does not occur. |
| Strings.IndexFrom | api/search-places.js:99 | The first occurrence at or after a start position, with none in between; None means there is none from there on. |
| Strings.NatToString | api/search-places.js:81 | A status code renders as a non-empty string of decimal digits with no leading zero. |
| Strings.NatToStringRoundTrip | api/geocode.js:77 | Reading the rendered digits back gives the status code. |
| Geocode.Handle | api/geocode.js:19-124 | OPTIONS: 200, no body, no call. Another non-POST method: 405. POST without a "Bearer " header: 401 `Unauthorized - No token provided`, no call. A token that fails verification: 401 `Unauthorized - Invalid token`, and only the verification was called. A verified token hands over to the body and key checks. |
| Geocode.MethodBeforeAuth | api/geocode.js:26-32 | For a non-POST method the outcome does not depend on the header, the body or the environment; the status is 200 for OPTIONS and 405 otherwise. |
| Geocode.AuthBeforeAddressAndKey | api/geocode.js:36-48 | A missing or non-bearer header, or a rejected token, gives 401. The outcome is the same whatever the body and the API key. |
| Geocode.Authorized | api/geocode.js:51-74 | After verification:<br>- an undefined or null body: 500 `Internal server error`;<br>- a falsy address: 400 `Bad Request` / `Address is required`;<br>- no (or an empty) API key: 500 `Server configuration error` / `API key not configured`;<br>- an address whose ToString throws: 500 `Internal server error` / `Cannot convert object to primitive value`.<br>None of these calls the API. Otherwise there is exactly one Geocoding call, with that address and key. |
| Geocode.BodyAndKeyChecks | api/geocode.js:51-72 | After a verified token, each of those four failures ends the request with only the verification call made. |
| Geocode.GeocodeIssuedExactlyWhenAdmitted | api/geocode.js:36-74 | The Geocoding API is called if and only if the method, header, token, body, address and key checks pass and the address converts to a string. The calls are then exactly the verification and that one request. |
| Geocode.Answer | api/geocode.js:76-115 | A rejected call is a 500 with its message. A non-ok response is a 500 with "Geocoding API request failed: " and the code. Any parsed answer is 200. 'OK' forwards `results` unchanged. Any other status is echoed, with its table message and `results: []`. |
| Geocode.StatusMapping | api/geocode.js:76-122 | For an admitted request, the same mapping holds for the handler's response. |
| Geocode.StatusMessage | api/geocode.js:88-108 | Each of the five listed statuses gets its table message. The message is "Geocoding failed" if and only if the status is not one of the five. |
| Geocode.KeyConfigured | api/geocode.js:63 | The key check passes exactly when the variable is set to a non-empty string. |
| Geocode.StatusTableShape | api/geocode.js:92-108 | The table lists exactly ZERO_RESULTS, OVER_QUERY_LIMIT, REQUEST_DENIED, INVALID_REQUEST and UNKNOWN_ERROR. 'OK' is not among them, and no two share a message. |
| Geocode.ResponseStatuses | api/geocode.js:26-123 | The status is always one of 200, 400, 401, 405 or 500. |
| Geocode.InternalError | api/geocode.js:117-123 | The catch-all is a 500 whose body has exactly the fields `error`, set to "Internal server error", and `message`, set to the error's message. |

## Left out

- Firebase Admin initialisation (api/search-places.js:9-17, api/geocode.js:9-17) is process-wide SDK state. `verifyIdToken` is foreign code and appears only as a pass/fail outcome of the token.
- The bodies of `fetch`, `response.json()`, `response.text()` and the URL building with `encodeURIComponent` are network and library code. Each call appears only as its settled outcome. A URIError that `encodeURIComponent` throws on a lone surrogate has no counterpart, since a Dafny string holds no lone surrogates. The TypeError it throws, like `parseFloat`'s, when its argument does not convert to a string, is modelled (`Js.ToStringThrows`).
- The API-key and field-mask headers of the two Places requests are not part of the modelled call. A missing key in search-places only surfaces as an upstream failure, which the model covers.
- `parseFloat`'s parsing of decimal text is floating-point library code. It is a parameter of the model that returns None for NaN. NaN and the infinities are not `Js.Value` numbers. The string forms of undefined, null, the booleans and plain objects start no number, and `SearchPlaces.NaNOnWords` states that parseFloat gives NaN for them. The lemmas about a missing radius and a missing longitude assume it.
- `Promise.all` concurrency becomes a sequence of settled branches. The branches share no state, and the model records the lookups in the order the `map` issues them. A branch can reject only before its first `await`, so branches reject in array order; every such rejection carries the same message, so which one `Promise.all` reports is not observable.
- The text search's `places` is taken to be absent or an array of objects, as the Places API documents. A `places` value of any other shape, and a JSON body that is `null`, are not modelled.
- Properties are read only as own fields of objects. Booleans, numbers, strings and arrays carry none of the property names the handlers read.
- The key order of the built objects is not modelled: JSON objects are maps. JSON.stringify's dropping of `undefined` fields is not modelled either, so the body is the object as built.
- The CORS `setHeader` calls and the output of `console.log` and `console.error` are plumbing. The string conversions in the template literals of api/search-places.js lines 102, 115 and 143 are modelled, because they can throw and change the outcome. The other log lines interpolate only numbers, strings or values already printed, so they cannot throw.
- A detail lookup that answers with JSON that is not an object (`null`, say) is not modelled: a successful lookup's details are a map of fields.
- The other handlers (netlify/functions/search-places.js, netlify/functions/place-details.js, api/place-details.js, api/get-api-key.js, netlify/functions/get-api-key.js, api/reverse-geocode.js) are other endpoints and deployment wrappers that are not part of this model.
- The detail lookup is a function of the place id, so two results with the same id get the same lookup outcome; the source issues an independent fetch for each, which could settle differently.
