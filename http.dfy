/** What the two handlers share: the request and response they see, the
    outcome of Firebase token verification, and the bearer-header check. */
module Http {
  import opened Wrappers
  import opened Js
  import opened Strings

  /** An incoming request: its method (httpMethod), its `authorization` header (Node
      gives it as a string when present) and its parsed body. */
  datatype Request = Request(httpMethod: string, authorization: Option<string>, body: Value)

  /** `res.end()` sends no body; `res.json(v)` sends the object `v`. */
  datatype Body = NoBody | Json(value: Value)

  datatype Response = Response(status: nat, body: Body)

  /** The settled promise of `admin.auth().verifyIdToken(token)`. */
  datatype VerifyOutcome = Verified | VerifyFailed(message: string)

  const BearerPrefix := "Bearer "

  /** `{ error }` */
  function ErrorBody(error: string): (b: Body) {
    Json(Obj(map["error" := Str(error)]))
  }

  /** `{ error, message }` */
  function ErrorMessageBody(error: string, message: string): (b: Body) {
    Json(Obj(map["error" := Str(error), "message" := Str(message)]))
  }

  /** The guard `authHeader && authHeader.startsWith('Bearer ')`. */
  predicate HasBearer(authorization: Option<string>)
    ensures HasBearer(authorization) <==> authorization.Some? && StartsWith(authorization.value, BearerPrefix)
  {
    authorization.Some? && Truthy(Str(authorization.value)) && StartsWith(authorization.value, BearerPrefix)
  }

  /** `authHeader.split('Bearer ')[1]`: the text after the leading "Bearer "
      up to the next occurrence of "Bearer ", or to the end. */
  function BearerToken(header: string): (token: string)
    requires StartsWith(header, BearerPrefix)
    ensures FieldBefore(header[|BearerPrefix|..], BearerPrefix, token)
  {
    assert OccursAt(header, BearerPrefix, 0) by {
      assert header[0..|BearerPrefix|] == header[..|BearerPrefix|];
    }
    assert IndexOf(header, BearerPrefix) == Some(0);
    BeforeIsFirstField(header[|BearerPrefix|..], BearerPrefix, Before(header[|BearerPrefix|..], BearerPrefix));
    SplitPart(header, BearerPrefix, 1).value
  }

  /** A header "Bearer " + t whose t holds no further "Bearer " carries token t. */
  lemma BearerTokenOfHeader(t: string)
    requires !Contains(t, BearerPrefix)
    ensures StartsWith(BearerPrefix + t, BearerPrefix)
    ensures BearerToken(BearerPrefix + t) == t
  {
    var header := BearerPrefix + t;
    assert header[..|BearerPrefix|] == BearerPrefix;
    assert header[|BearerPrefix|..] == t;
    assert IndexOf(t, BearerPrefix).None?;
    BeforeIsFirstField(t, BearerPrefix, BearerToken(header));
  }
}
