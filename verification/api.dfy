/**
 * The client's calls to the backend. Each sends the user's ID token as a bearer
 * `Authorization` header; a failed response becomes a thrown error whose message is the
 * server's `error` field when it has one. Audio URLs are memoised in a page-wide cache.
 */
module Api {
  import opened Values
  import opened Strings
  import opened Http

  /** What a call hands to `fetch`: method, path, query parameters and the `Authorization` header. */
  datatype HttpRequest = HttpRequest(verb: string, path: string, query: seq<(string, string)>, authorization: string)

  /**
   * How a call's `fetch` and the reading of its body end, as far as the client looks:
   * a successful response and its payload; a failed one and the `error` field of its JSON
   * body (undefined if absent); or a promise the runtime rejects with an error of its own
   * (the network fails, or the body cannot be read or parsed as the call expects), whose
   * message the call passes on unchanged.
   */
  datatype HttpResponse = Success(payload: string) | Failure(errorField: Option<string>) | Rejected(message: string)

  /**
   * How the request `fetchAudio` makes ends: a blob, turned into an object URL; a response
   * that is not ok; or `fetch` or `resp.blob()` rejecting with an error of the runtime's.
   */
  datatype AudioResponse = Fetched(objectUrl: string) | Failed | Thrown(message: string)

  const FetchAudioError: string := "Failed to fetch audio"

  const AudioPathPrefix: string := "/api/audio/"

  function PingRequest(token: string): (r: HttpRequest)
    ensures r.verb == "GET" && r.path == "/api/ping" && r.query == []
    ensures StartsWith(r.authorization, BearerPrefix) && r.authorization[|BearerPrefix|..] == token
  {
    HttpRequest("GET", "/api/ping", [], BearerAuthorization(token))
  }

  function SpeechToTextRequest(token: string): (r: HttpRequest)
    ensures r.verb == "POST" && r.path == "/api/speech-to-text" && r.query == []
    ensures StartsWith(r.authorization, BearerPrefix) && r.authorization[|BearerPrefix|..] == token
  {
    HttpRequest("POST", "/api/speech-to-text", [], BearerAuthorization(token))
  }

  /** The query carries the day as given and the offset as a numeral that reads back as it. */
  function GetHistoryRequest(token: string, day: string, timezone: int): (r: HttpRequest)
    ensures r.verb == "GET" && r.path == "/api/history"
    ensures |r.query| == 2 && r.query[0] == ("day", day) && r.query[1].0 == "timezone"
    ensures ParseInt(r.query[1].1) == Some(timezone)
    ensures StartsWith(r.authorization, BearerPrefix) && r.authorization[|BearerPrefix|..] == token
  {
    IntStringRoundTrip(timezone);
    HttpRequest("GET", "/api/history", [("day", day), ("timezone", IntString(timezone))], BearerAuthorization(token))
  }

  /** The file name is appended to the audio path as given. */
  function AudioRequest(token: string, filename: string): (r: HttpRequest)
    ensures r.verb == "GET" && r.query == []
    ensures StartsWith(r.path, AudioPathPrefix) && r.path[|AudioPathPrefix|..] == filename
    ensures StartsWith(r.authorization, BearerPrefix) && r.authorization[|BearerPrefix|..] == token
  {
    HttpRequest("GET", AudioPathPrefix + filename, [], BearerAuthorization(token))
  }

  /** Every request the client builds carries `Bearer ` followed by exactly the token it was given. */
  lemma RequestsCarryBearerToken(token: string, day: string, timezone: int, filename: string)
    ensures forall r <- [PingRequest(token), SpeechToTextRequest(token),
                         GetHistoryRequest(token, day, timezone), AudioRequest(token, filename)] ::
      StartsWith(r.authorization, BearerPrefix) && r.authorization[|BearerPrefix|..] == token
  {
  }

  /**
   * How `ping`, `speechToText` and `getHistory` (named by `api`) finish: the payload of a
   * successful response; for a failed one, an error with the server's `error` text, or
   * with `Failed api <api>` when that text is missing or empty; for a rejected promise,
   * the runtime's error as it is.
   */
  function Outcome(api: string, resp: HttpResponse): (r: Result<string>)
    ensures resp.Success? <==> r.Ok?
    ensures resp.Success? ==> r.value == resp.payload
    ensures resp.Failure? && Truthy(resp.errorField) ==> r.message == resp.errorField.value
    ensures resp.Failure? && !Truthy(resp.errorField) ==> r.message == "Failed api " + api
    ensures resp.Failure? ==> r.Err? && r.message != ""
    ensures resp.Rejected? ==> r == Err(resp.message)
  {
    match resp
    case Success(payload) => Ok(payload)
    case Failure(errorField) => Err(Or(errorField, "Failed api " + api))
    case Rejected(message) => Err(message)
  }

  /** A call: the request the client sent and how the call finished. */
  datatype Call = Call(request: HttpRequest, result: Result<string>)

  function Ping(token: string, resp: HttpResponse): (c: Call)
    ensures c.request.path == "/api/ping" && c.request.authorization == BearerAuthorization(token)
    ensures c.result.Ok? <==> resp.Success?
    ensures resp.Failure? && !Truthy(resp.errorField) ==> c.result == Err("Failed api ping")
  {
    Call(PingRequest(token), Outcome("ping", resp))
  }

  function SpeechToText(token: string, resp: HttpResponse): (c: Call)
    ensures c.request.verb == "POST" && c.request.authorization == BearerAuthorization(token)
    ensures c.result.Ok? <==> resp.Success?
    ensures resp.Failure? && !Truthy(resp.errorField) ==> c.result == Err("Failed api speechToText")
  {
    Call(SpeechToTextRequest(token), Outcome("speechToText", resp))
  }

  function GetHistory(token: string, day: string, timezone: int, resp: HttpResponse): (c: Call)
    ensures 1 <= |c.request.query| && c.request.query[0] == ("day", day)
    ensures c.request.authorization == BearerAuthorization(token)
    ensures c.result.Ok? <==> resp.Success?
    ensures resp.Failure? && !Truthy(resp.errorField) ==> c.result == Err("Failed api getHistory")
  {
    Call(GetHistoryRequest(token, day, timezone), Outcome("getHistory", resp))
  }

  /** A failed call throws the server's message, or a fallback that names the call. */
  lemma CallErrors(token: string, day: string, timezone: int, errorField: Option<string>)
    ensures var server := Truthy(errorField);
      Ping(token, Failure(errorField)).result ==
        Err(if server then errorField.value else "Failed api ping") &&
      SpeechToText(token, Failure(errorField)).result ==
        Err(if server then errorField.value else "Failed api speechToText") &&
      GetHistory(token, day, timezone, Failure(errorField)).result ==
        Err(if server then errorField.value else "Failed api getHistory")
  {
  }

  /** One step of `fetchAudio` on the cache: what it returns, what it sends, and the cache after. */
  datatype AudioFetch = AudioFetch(result: Result<string>, request: Option<HttpRequest>, cache: map<string, string>)

  /**
   * `fetchAudio(token, filename)` against `cache`, when the network would answer `net`:
   * a hit returns the cached URL without a request; a miss sends the request and either
   * fails or throws the runtime's error, leaving the cache alone, or caches and returns
   * the new object URL.
   */
  function FetchAudioStep(cache: map<string, string>, token: string, filename: string, net: AudioResponse): (f: AudioFetch)
    ensures filename in cache ==> f == AudioFetch(Ok(cache[filename]), None, cache)
    ensures filename !in cache ==> f.request == Some(AudioRequest(token, filename))
    ensures filename !in cache && net.Failed? ==> f.result == Err(FetchAudioError) && f.cache == cache
    ensures filename !in cache && net.Thrown? ==> f.result == Err(net.message) && f.cache == cache
    ensures filename !in cache && net.Fetched? ==>
      f.result == Ok(net.objectUrl) && f.cache == cache[filename := net.objectUrl]
  {
    if filename in cache then AudioFetch(Ok(cache[filename]), None, cache)
    else if net.Failed? then AudioFetch(Err(FetchAudioError), Some(AudioRequest(token, filename)), cache)
    else if net.Thrown? then AudioFetch(Err(net.message), Some(AudioRequest(token, filename)), cache)
    else AudioFetch(Ok(net.objectUrl), Some(AudioRequest(token, filename)), cache[filename := net.objectUrl])
  }

  /** `after` keeps every entry of `before`: nothing is removed or overwritten. */
  predicate Extends(before: map<string, string>, after: map<string, string>)
  {
    forall k :: k in before ==> k in after && after[k] == before[k]
  }

  /** One fetch adds at most the requested key, and only on success; it never changes an entry. */
  lemma FetchAudioGrows(cache: map<string, string>, token: string, filename: string, net: AudioResponse)
    ensures var f := FetchAudioStep(cache, token, filename, net);
      Extends(cache, f.cache) && f.cache.Keys <= cache.Keys + {filename} &&
      (filename in f.cache <==> f.result.Ok?) &&
      (f.result.Ok? ==> f.cache[filename] == f.result.value)
  {
  }

  /** After a successful fetch, fetching the same file again sends nothing and returns the same URL. */
  lemma FetchAudioIdempotent(cache: map<string, string>, token: string, filename: string, net: AudioResponse,
                             token': string, net': AudioResponse)
    requires FetchAudioStep(cache, token, filename, net).result.Ok?
    ensures var first := FetchAudioStep(cache, token, filename, net);
      var second := FetchAudioStep(first.cache, token', filename, net');
      second == AudioFetch(first.result, None, first.cache)
  {
  }

  /** A request `fetchAudio` is called with, and what the network would answer if asked. */
  datatype FetchCall = FetchCall(token: string, filename: string, net: AudioResponse)

  /** The cache after a sequence of `fetchAudio` calls, made one after another. */
  function CacheAfter(cache: map<string, string>, calls: seq<FetchCall>): map<string, string>
    decreases |calls|
  {
    if calls == [] then cache
    else
      var c := calls[0];
      CacheAfter(FetchAudioStep(cache, c.token, c.filename, c.net).cache, calls[1..])
  }

  /**
   * Over any sequence of calls the cache only grows: every entry present at the start,
   * and every URL a call returns, is still there, unchanged, at the end.
   */
  lemma {:induction false} CacheOnlyGrows(cache: map<string, string>, calls: seq<FetchCall>)
    ensures Extends(cache, CacheAfter(cache, calls))
    ensures forall k :: 0 <= k < |calls| ==>
      var c := calls[k];
      var f := FetchAudioStep(CacheAfter(cache, calls[..k]), c.token, c.filename, c.net);
      f.result.Ok? ==> c.filename in CacheAfter(cache, calls) && CacheAfter(cache, calls)[c.filename] == f.result.value
    decreases |calls|
  {
    if calls != [] {
      var c := calls[0];
      var next := FetchAudioStep(cache, c.token, c.filename, c.net).cache;
      FetchAudioGrows(cache, c.token, c.filename, c.net);
      CacheOnlyGrows(next, calls[1..]);
      forall k | 0 <= k < |calls|
        ensures var c := calls[k];
          var f := FetchAudioStep(CacheAfter(cache, calls[..k]), c.token, c.filename, c.net);
          f.result.Ok? ==> c.filename in CacheAfter(cache, calls) && CacheAfter(cache, calls)[c.filename] == f.result.value
      {
        if 0 < k {
          assert calls[..k][1..] == calls[1..][..k - 1];
          assert calls[k] == calls[1..][k - 1];
        } else {
          assert calls[..0] == [];
        }
      }
    }
  }

  /** The page-wide `audioCache`, from file name to object URL, and the `fetchAudio` that fills it. */
  class AudioClient {
    var audioCache: map<string, string>

    constructor ()
      ensures audioCache == map[]
    {
      audioCache := map[];
    }

    /**
     * `fetchAudio(token, filename)`, where `net` is what the network would answer if asked.
     * Returns the URL or the error thrown, and the request sent, if any.
     */
    method FetchAudio(token: string, filename: string, net: AudioResponse)
      returns (result: Result<string>, request: Option<HttpRequest>)
      modifies this
      ensures AudioFetch(result, request, audioCache) == FetchAudioStep(old(audioCache), token, filename, net)
      ensures Extends(old(audioCache), audioCache)
    {
      if filename in audioCache {
        return Ok(audioCache[filename]), None;
      }
      request := Some(AudioRequest(token, filename));
      if net.Failed? {
        return Err(FetchAudioError), request;
      }
      if net.Thrown? {
        return Err(net.message), request;
      }
      var audioUrl := net.objectUrl;
      audioCache := audioCache[filename := audioUrl];
      result := Ok(audioUrl);
    }
  }
}
