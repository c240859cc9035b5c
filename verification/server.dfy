/**
 * The HTTP backend: an Express application whose first middleware, `authenticate`,
 * checks the bearer ID token on every request before any route runs (in the manner
 * of section 2.1 of RFC 6750), followed by the `/api/ping` route.
 */
module Server {
  import opened Values
  import opened Strings
  import opened Http

  const NoTokenMessage: string := "Unauthorized: No token provided"
  const InvalidTokenMessage: string := "Unauthorized: Invalid token"
  const Unauthorized: nat := 401
  const NotFound: nat := 404

  /** `authHeader?.startsWith('Bearer ')`: a missing header fails the prefix test. */
  predicate HasBearerPrefix(authorization: Option<string>)
    ensures HasBearerPrefix(authorization) ==>
      authorization.Some? && |BearerPrefix| <= |authorization.value|
    ensures authorization == Some(BearerPrefix) ==> HasBearerPrefix(authorization)
  {
    authorization.Some? && StartsWith(authorization.value, BearerPrefix)
  }

  /**
   * `authHeader.split('Bearer ')[1]`: the text after the leading "Bearer ", up to the
   * next occurrence of "Bearer " or to the end of the header.
   */
  function ExtractToken(header: string): (token: string)
    requires StartsWith(header, BearerPrefix)
    ensures var rest := header[|BearerPrefix|..];
      StartsWith(rest, token) &&
      (forall i :: 0 <= i < |token| ==> !OccursAt(rest, BearerPrefix, i)) &&
      (|token| == |rest| || OccursAt(rest, BearerPrefix, |token|))
  {
    assert OccursAt(header, BearerPrefix, 0);
    assert IndexOf(header, BearerPrefix) == 0;
    var parts := Split(header, BearerPrefix);
    assert parts[1] == Split(header[|BearerPrefix|..], BearerPrefix)[0];
    parts[1]
  }

  /** A token that does not itself contain "Bearer " is extracted whole. */
  lemma ExtractTokenRoundTrip(token: string)
    requires Free(token, BearerPrefix)
    ensures ExtractToken(BearerAuthorization(token)) == token
  {
    var header := BearerAuthorization(token);
    assert header[|BearerPrefix|..] == token;
  }

  /** What `authenticate` decides for a request. */
  datatype Verdict =
    | NoToken                               // 401, nothing else happens
    | InvalidToken(token: string)           // the verifier rejected `token`: 401
    | Verified(token: string, uid: string)  // `req.uid := uid`, then `next()`

  /**
   * The decision of `authenticate` given the `Authorization` header and the identity
   * service's `verifyIdToken`, which either decodes a token to a user id or throws (None).
   */
  function Decide(authorization: Option<string>, verifyIdToken: string -> Option<string>): (v: Verdict)
    ensures v.NoToken? <==> !HasBearerPrefix(authorization)
    ensures !v.NoToken? ==> v.token == ExtractToken(authorization.value)
    ensures v.InvalidToken? ==> verifyIdToken(v.token) == None
    ensures v.Verified? ==> verifyIdToken(v.token) == Some(v.uid)
  {
    if !HasBearerPrefix(authorization) then NoToken
    else
      var idToken := ExtractToken(authorization.value);
      match verifyIdToken(idToken)
      case None => InvalidToken(idToken)
      case Some(uid) => Verified(idToken, uid)
  }

  /** A header without the exact, case-sensitive "Bearer " prefix never reaches the verifier. */
  lemma MissingPrefixRejected(authorization: Option<string>, verifyIdToken: string -> Option<string>)
    requires authorization.None? || !StartsWith(authorization.value, BearerPrefix)
    ensures Decide(authorization, verifyIdToken) == NoToken
  {
  }

  /**
   * The body a response carries: `res.json({ error })`, `res.send(text)`, or the HTML
   * page of Express's final handler (for an unmatched route or a rejected request
   * body), whose markup is not modelled.
   */
  datatype Body = Json(error: string) | Text(text: string) | ErrorPage

  /**
   * The part of an Express request the backend reads and writes. `bodyError` is the
   * status the JSON body parser fails with before any middleware of the application
   * runs (400 for malformed JSON, 413 for a body over the size limit, 415 for an
   * unsupported charset), or None when the body parses or there is none.
   */
  class Request {
    const verb: string
    const path: string
    const authorization: Option<string>
    const bodyError: Option<nat>
    var uid: Option<string>

    constructor (verb: string, path: string, authorization: Option<string>, bodyError: Option<nat>)
      ensures this.verb == verb && this.path == path && this.authorization == authorization
      ensures this.bodyError == bodyError
      ensures uid == None
    {
      this.verb := verb;
      this.path := path;
      this.authorization := authorization;
      this.bodyError := bodyError;
      uid := None;
    }
  }

  /** An Express response: status 200 and nothing written until a handler responds. */
  class Response {
    var status: nat
    var body: Option<Body>

    constructor ()
      ensures status == 200 && body == None
    {
      status := 200;
      body := None;
    }
  }

  /**
   * The `authenticate` middleware. It returns the token it handed to the verifier (if it
   * called the verifier at all) and how many times it called `next`.
   */
  method Authenticate(req: Request, res: Response, verifyIdToken: string -> Option<string>)
    returns (verified: Option<string>, nextCalls: nat)
    modifies req, res
    ensures match Decide(req.authorization, verifyIdToken)
      case NoToken =>
        verified == None && nextCalls == 0 && req.uid == old(req.uid) &&
        res.status == Unauthorized && res.body == Some(Json(NoTokenMessage))
      case InvalidToken(token) =>
        verified == Some(token) && nextCalls == 0 && req.uid == old(req.uid) &&
        res.status == Unauthorized && res.body == Some(Json(InvalidTokenMessage))
      case Verified(token, uid) =>
        verified == Some(token) && nextCalls == 1 && req.uid == Some(uid) &&
        res.status == old(res.status) && res.body == old(res.body)
  {
    var authHeader := req.authorization;
    if !HasBearerPrefix(authHeader) {
      res.status, res.body := Unauthorized, Some(Json(NoTokenMessage));
      return None, 0;
    }
    var idToken := ExtractToken(authHeader.value);
    verified := Some(idToken);
    var decoded := verifyIdToken(idToken);
    if decoded.None? {
      res.status, res.body := Unauthorized, Some(Json(InvalidTokenMessage));
      return verified, 0;
    }
    req.uid := Some(decoded.value);
    nextCalls := 1;
  }

  /**
   * Whether a path matches the route `/api/ping`: with Express's default routing options
   * it matches without regard to the case of ASCII letters and with one optional trailing '/'.
   */
  predicate IsPingPath(path: string)
    ensures IsPingPath(path) ==> |path| == 9 || |path| == 10
  {
    LowerAscii(path) == "/api/ping" || LowerAscii(path) == "/api/ping/"
  }

  /** Characters `c` and `p` agree up to the case of an ASCII letter, `p` being lower-case. */
  predicate SameUpToAsciiCase(c: char, p: char)
  {
    c == p || ('a' <= p <= 'z' && c as int == p as int - 32)
  }

  /**
   * What the route path `/api/ping` matches, stated without `LowerAscii`: nine characters
   * that agree with it up to ASCII case, optionally followed by one '/'.
   */
  lemma IsPingPathMeaning(path: string)
    ensures IsPingPath(path) <==>
      (|path| == 9 || (|path| == 10 && path[9] == '/')) &&
      forall i :: 0 <= i < 9 ==> SameUpToAsciiCase(path[i], "/api/ping"[i])
  {
    if |path| == 9 || |path| == 10 {
      var l := LowerAscii(path);
      if forall i :: 0 <= i < 9 ==> SameUpToAsciiCase(path[i], "/api/ping"[i]) {
        assert l[..9] == "/api/ping";
        if |path| == 10 && path[9] == '/' {
          assert l == "/api/ping/";
        }
        if |path| == 9 {
          assert l == "/api/ping";
        }
      }
    }
  }

  /** Whether Express routes a request to `app.get('/api/ping', ...)`: a GET route also serves HEAD. */
  predicate IsPingRoute(verb: string, path: string)
    ensures IsPingRoute(verb, path) ==> IsPingPath(path)
    ensures IsPingRoute(verb, path) ==> verb != "OPTIONS"
  {
    (verb == "GET" || verb == "HEAD") && IsPingPath(path)
  }

  /**
   * The body of the router's automatic answer to OPTIONS on a path whose route has no
   * OPTIONS handler: the methods the route serves, joined by ','.
   */
  const PingAllow: string := "GET,HEAD"

  /** Which requests the ping route serves, and some that it does not. */
  lemma PingRouteMatches()
    ensures IsPingRoute("GET", "/api/ping") && IsPingRoute("HEAD", "/api/ping")
    ensures IsPingRoute("GET", "/api/ping/") && IsPingRoute("GET", "/API/Ping")
    ensures !IsPingRoute("POST", "/api/ping") && !IsPingRoute("GET", "/api/pings")
    ensures !IsPingRoute("GET", "/api/ping//") && !IsPingRoute("get", "/api/ping")
    ensures !IsPingRoute("OPTIONS", "/api/ping") && IsPingPath("/API/Ping/")
  {
    assert LowerAscii("/API/Ping") == "/api/ping";
    assert LowerAscii("/api/pings")[9] == 's';
    assert LowerAscii("/api/ping//")[10] == '/';
  }

  /** The `GET /api/ping` route: answers "pong". */
  method Ping(req: Request, res: Response)
    modifies res
    ensures res.status == old(res.status) && res.body == Some(Text("pong"))
  {
    res.body := Some(Text("pong"));
  }

  /**
   * The application. The JSON body parser runs first; when it rejects the body, Express's
   * final handler answers with its status and `authenticate` never runs. Otherwise
   * `authenticate` runs and, when it calls `next`, the request goes on to the ping route
   * if it matches; an OPTIONS request on the ping path gets the router's automatic answer
   * (200, the allowed methods); any other request reaches Express's final handler (404).
   */
  method Handle(req: Request, res: Response, verifyIdToken: string -> Option<string>)
    returns (verified: Option<string>)
    requires req.uid == None && res.status == 200 && res.body == None
    modifies req, res
    ensures req.bodyError.Some? ==>
      verified == None && req.uid == None &&
      res.status == req.bodyError.value && res.body == Some(ErrorPage)
    ensures req.bodyError.None? ==>
      var v := Decide(req.authorization, verifyIdToken);
      var isPing := IsPingRoute(req.verb, req.path);
      var isOptions := req.verb == "OPTIONS" && IsPingPath(req.path);
      (v.Verified? && isPing ==> res.status == 200 && res.body == Some(Text("pong"))) &&
      (v.Verified? && isOptions ==> res.status == 200 && res.body == Some(Text(PingAllow))) &&
      (v.Verified? && !isPing && !isOptions ==> res.status == NotFound && res.body == Some(ErrorPage)) &&
      (v.Verified? <==> req.uid.Some?) &&
      (v.Verified? ==> req.uid == Some(v.uid)) &&
      (v.NoToken? ==> res.status == Unauthorized && res.body == Some(Json(NoTokenMessage))) &&
      (v.InvalidToken? ==> res.status == Unauthorized && res.body == Some(Json(InvalidTokenMessage))) &&
      (verified.Some? <==> !v.NoToken?)
  {
    if req.bodyError.Some? {
      res.status, res.body := req.bodyError.value, Some(ErrorPage);
      return None;
    }
    var nextCalls;
    verified, nextCalls := Authenticate(req, res, verifyIdToken);
    if nextCalls == 1 {
      if IsPingRoute(req.verb, req.path) {
        Ping(req, res);
      } else if req.verb == "OPTIONS" && IsPingPath(req.path) {
        res.body := Some(Text(PingAllow));
      } else {
        res.status, res.body := NotFound, Some(ErrorPage);
      }
    }
  }
}
