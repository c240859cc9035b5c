/**
 * The client and the backend together: the header the client builds passes the
 * backend's bearer check and hands the verifier exactly the client's token.
 */
module ClientServer {
  import opened Values
  import opened Strings
  import opened Http
  import Api
  import Server

  /** The characters of a Firebase ID token, a JWT: base64url digits and the '.' between its parts. */
  predicate IsIdTokenChar(c: char)
  {
    'A' <= c <= 'Z' || 'a' <= c <= 'z' || '0' <= c <= '9' || c == '-' || c == '_' || c == '.'
  }

  predicate IsIdToken(token: string)
  {
    forall i :: 0 <= i < |token| ==> IsIdTokenChar(token[i])
  }

  /** An ID token has no space, so "Bearer " never occurs in it. */
  lemma IdTokenHasNoBearer(token: string)
    requires IsIdToken(token)
    ensures Free(token, BearerPrefix)
  {
    forall i | 0 <= i <= |token|
      ensures !OccursAt(token, BearerPrefix, i)
    {
      if i + |BearerPrefix| <= |token| {
        assert token[i..i + |BearerPrefix|][6] == token[i + 6];
      }
    }
  }

  predicate IsHttpWhitespace(c: char)
  {
    c == ' ' || c == '\t' || c == '\n' || c == '\r'
  }

  function TrimTrailing(s: string): (r: string)
    ensures |r| <= |s| && r == s[..|r|]
    ensures r == [] || !IsHttpWhitespace(r[|r| - 1])
    ensures forall i :: |r| <= i < |s| ==> IsHttpWhitespace(s[i])
    decreases |s|
  {
    if |s| > 0 && IsHttpWhitespace(s[|s| - 1]) then TrimTrailing(s[..|s| - 1]) else s
  }

  function TrimLeading(s: string): (r: string)
    ensures |r| <= |s| && r == s[|s| - |r|..]
    ensures r == [] || !IsHttpWhitespace(r[0])
    ensures forall i :: 0 <= i < |s| - |r| ==> IsHttpWhitespace(s[i])
    decreases |s|
  {
    if |s| > 0 && IsHttpWhitespace(s[0]) then TrimLeading(s[1..]) else s
  }

  /**
   * The header value the backend sees for the one the client sets: `fetch` normalises a
   * header value by removing leading and trailing HTTP whitespace (tab, line feed,
   * carriage return, space). A value that neither starts nor ends with such a character
   * goes through unchanged.
   */
  function NormalizeHeaderValue(value: string): (r: string)
    ensures |r| <= |value|
    ensures exists i, j :: TrimmedTo(value, r, i, j)
    ensures r == [] || (!IsHttpWhitespace(r[0]) && !IsHttpWhitespace(r[|r| - 1]))
    ensures (value == [] || (!IsHttpWhitespace(value[0]) && !IsHttpWhitespace(value[|value| - 1]))) ==>
      r == value
  {
    var t := TrimTrailing(value);
    var r := TrimLeading(t);
    assert TrimmedTo(value, r, |t| - |r|, |t|);
    r
  }

  /** `r` is `value[i..j]`, and only HTTP whitespace lies before `i` and from `j` on. */
  predicate TrimmedTo(value: string, r: string, i: int, j: int)
  {
    0 <= i <= j <= |value| && r == value[i..j] &&
    (forall k :: 0 <= k < i ==> IsHttpWhitespace(value[k])) &&
    (forall k :: j <= k < |value| ==> IsHttpWhitespace(value[k]))
  }

  /**
   * What the backend decides for the header the client sends with an ID token: an empty
   * token loses the space after "Bearer" to normalisation and fails the prefix check;
   * any other token gets past it, and the backend asks the verifier about that very token.
   */
  lemma ClientTokenReachesVerifier(token: string, verifyIdToken: string -> Option<string>)
    requires IsIdToken(token)
    ensures var v := Server.Decide(Some(NormalizeHeaderValue(BearerAuthorization(token))), verifyIdToken);
      (token == [] ==> v == Server.NoToken) &&
      (token != [] ==> match verifyIdToken(token)
        case None => v == Server.InvalidToken(token)
        case Some(uid) => v == Server.Verified(token, uid))
  {
    var header := BearerAuthorization(token);
    if token == [] {
      EmptyTokenHeader();
    } else {
      IdTokenHeaderUnchanged(token);
      IdTokenHasNoBearer(token);
      Server.ExtractTokenRoundTrip(token);
    }
  }

  /** The header for an empty token loses its trailing space in transit. */
  lemma EmptyTokenHeader()
    ensures NormalizeHeaderValue(BearerAuthorization([])) == "Bearer"
  {
    var header, bare := BearerAuthorization([]), "Bearer";
    assert header == "Bearer ";
    assert header[|header| - 1] == ' ' && header[..|header| - 1] == bare;
    assert !IsHttpWhitespace(bare[|bare| - 1]) && !IsHttpWhitespace(bare[0]);
    assert TrimTrailing(bare) == bare;
    assert TrimTrailing(header) == bare;
    assert TrimLeading(bare) == bare;
  }

  /** The header for a non-empty ID token goes through normalisation unchanged. */
  lemma IdTokenHeaderUnchanged(token: string)
    requires IsIdToken(token) && token != []
    ensures NormalizeHeaderValue(BearerAuthorization(token)) == BearerAuthorization(token)
  {
    var header := BearerAuthorization(token);
    assert header[0] == 'B';
    assert header[|header| - 1] == token[|token| - 1];
  }

  const JsonErrorOpen: string := "{\"error\":\""
  const JsonErrorClose: string := "\"}"

  /**
   * The text a body arrives as: a sent string as it is, a JSON object `{"error":"..."}`
   * serialised, and "" for no body or an error page (whose HTML is not modelled).
   */
  function WireText(body: Option<Server.Body>): (text: string)
    ensures body.Some? && body.value.Text? ==> text == body.value.text
    ensures body.Some? && body.value.Json? ==>
      |text| == |JsonErrorOpen| + |body.value.error| + |JsonErrorClose| &&
      text[..|JsonErrorOpen|] == JsonErrorOpen &&
      text[|JsonErrorOpen|..|text| - |JsonErrorClose|] == body.value.error &&
      text[|text| - |JsonErrorClose|..] == JsonErrorClose
    ensures body.None? || body == Some(Server.ErrorPage) ==> text == ""
  {
    match body
    case Some(Text(text)) => text
    case Some(Json(error)) => JsonErrorOpen + error + JsonErrorClose
    case Some(ErrorPage) => ""
    case None => ""
  }

  /**
   * How a backend response arrives at `ping`: `resp.ok` for a 2xx status, and then the
   * body as text; otherwise `resp.json()` reads the `error` field of a JSON body, and
   * rejects, with the runtime's `parseError`, on a body that is not JSON.
   */
  function Deliver(status: nat, body: Option<Server.Body>, parseError: string): (resp: Api.HttpResponse)
    ensures resp.Success? <==> 200 <= status < 300
    ensures resp.Success? && body.Some? && body.value.Text? ==> resp.payload == body.value.text
    ensures !(200 <= status < 300) && body.Some? && body.value.Json? ==>
      resp == Api.Failure(Some(body.value.error))
    ensures !(200 <= status < 300) && !(body.Some? && body.value.Json?) ==>
      resp == Api.Rejected(parseError)
  {
    if 200 <= status < 300 then Api.Success(WireText(body))
    else match body
      case Some(Json(error)) => Api.Failure(Some(error))
      case _ => Api.Rejected(parseError)
  }

  /** What `ping` makes of each of the backend's answers to an authenticated ping request. */
  lemma ServedAnswer(verdict: Server.Verdict, status: nat, body: Option<Server.Body>, token: string, parseError: string)
    requires verdict.Verified? ==> status == 200 && body == Some(Server.Text("pong"))
    requires verdict.NoToken? ==> status == Server.Unauthorized && body == Some(Server.Json(Server.NoTokenMessage))
    requires verdict.InvalidToken? ==>
      status == Server.Unauthorized && body == Some(Server.Json(Server.InvalidTokenMessage))
    ensures var answer := Api.Ping(token, Deliver(status, body, parseError)).result;
      (verdict.Verified? ==> answer == Ok("pong")) &&
      (verdict.NoToken? ==> answer == Err(Server.NoTokenMessage)) &&
      (verdict.InvalidToken? ==> answer == Err(Server.InvalidTokenMessage))
  {
  }

  /**
   * `api.ping(token)` against the backend: "pong" when the identity service accepts the
   * token, otherwise the backend's 401 message, "No token provided" for an empty token.
   */
  method PingRoundTrip(token: string, verifyIdToken: string -> Option<string>, parseError: string)
    returns (answer: Result<string>)
    requires IsIdToken(token)
    ensures token == [] ==> answer == Err(Server.NoTokenMessage)
    ensures token != [] && verifyIdToken(token).Some? ==> answer == Ok("pong")
    ensures token != [] && verifyIdToken(token).None? ==> answer == Err(Server.InvalidTokenMessage)
  {
    var sent := Api.PingRequest(token);
    var header := NormalizeHeaderValue(sent.authorization);
    var req := new Server.Request(sent.verb, sent.path, Some(header), None);
    var res := new Server.Response();
    ClientTokenReachesVerifier(token, verifyIdToken);
    Server.PingRouteMatches();
    assert Server.IsPingRoute(req.verb, req.path);
    var verdict := Server.Decide(Some(header), verifyIdToken);
    var _ := Server.Handle(req, res, verifyIdToken);
    ServedAnswer(verdict, res.status, res.body, token, parseError);
    answer := Api.Ping(token, Deliver(res.status, res.body, parseError)).result;
  }
}
