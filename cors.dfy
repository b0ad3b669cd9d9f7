/** pkg/middleware/cors/cors.go: the CORS middleware. It writes the
    response headers for a request and then either ends a preflight
    (`OPTIONS`) request with 204 or hands the request on. The gin context is
    a class holding the request's method and headers and the response
    headers, status and abort flag it updates; `Next` counts the calls to
    the next handler. */
module Cors {
  import opened Text

  datatype CorsConfig = CorsConfig(allowedOrigins: seq<string>, allowedMethods: seq<string>,
                                   allowedHeaders: seq<string>, maxAge: int)

  /** `DefaultCORSConfig`. */
  function DefaultCorsConfig(): (c: CorsConfig)
    ensures c.allowedOrigins == ["*"]
    ensures c.allowedMethods == ["GET", "POST", "PUT", "DELETE", "OPTIONS"]
    ensures c.allowedHeaders == ["Content-Type", "Authorization"]
    ensures c.maxAge == 86400
  {
    CorsConfig(["*"], ["GET", "POST", "PUT", "DELETE", "OPTIONS"], ["Content-Type", "Authorization"], 86400)
  }

  /** `joinStrings`: the first element, then ", " and each later one. */
  method JoinStrings(xs: seq<string>) returns (result: string)
    ensures result == Join(xs, ", ")
  {
    if |xs| == 0 {
      return "";
    }
    result := xs[0];
    var i := 1;
    while i < |xs|
      invariant 1 <= i <= |xs|
      invariant result == Join(xs[..i], ", ")
    {
      JoinAppend(xs[..i], [xs[i]], ", ");
      assert xs[..i] + [xs[i]] == xs[..i + 1];
      result := result + ", " + xs[i];
      i := i + 1;
    }
    assert xs[..i] == xs;
  }

  const OriginHeader: string := "Origin"
  const AllowOrigin: string := "Access-Control-Allow-Origin"
  const AllowCredentials: string := "Access-Control-Allow-Credentials"
  const AllowMethods: string := "Access-Control-Allow-Methods"
  const AllowHeaders: string := "Access-Control-Allow-Headers"
  const MaxAge: string := "Access-Control-Max-Age"
  const StatusNoContent: int := 204

  /** `http.Header.Get`: "" when the header is absent. */
  function HeaderGet(h: map<string, string>, key: string): string
  {
    if key in h then h[key] else ""
  }

  class GinContext {
    const requestMethod: string
    const requestHeader: map<string, string>
    var header: map<string, string>
    var status: int
    var aborted: bool
    var nextCalls: nat

    constructor (requestMethod: string, requestHeader: map<string, string>)
      ensures this.requestMethod == requestMethod && this.requestHeader == requestHeader
      ensures header == map[] && status == 200 && !aborted && nextCalls == 0
    {
      this.requestMethod := requestMethod;
      this.requestHeader := requestHeader;
      header := map[];
      status := 200;
      aborted := false;
      nextCalls := 0;
    }

    method SetHeader(key: string, value: string)
      modifies this`header
      ensures header == old(header)[key := value]
    {
      header := header[key := value];
    }

    method AbortWithStatus(code: int)
      modifies this`status, this`aborted
      ensures status == code && aborted
    {
      status := code;
      aborted := true;
    }

    /** Runs the rest of the chain. */
    method Next()
      modifies this`nextCalls
      ensures nextCalls == old(nextCalls) + 1
    {
      nextCalls := nextCalls + 1;
    }
  }

  /** The handler `CORS(config)` returns, run on one request. */
  method HandleCors(config: CorsConfig, c: GinContext)
    modifies c
    ensures AllowOrigin in c.header && c.header[AllowOrigin] == HeaderGet(c.requestHeader, OriginHeader)
    ensures AllowCredentials in c.header && c.header[AllowCredentials] == "true"
    ensures c.requestMethod == "OPTIONS" ==>
      AllowMethods in c.header && AllowHeaders in c.header && MaxAge in c.header &&
      c.header[AllowMethods] == Join(config.allowedMethods, ", ") &&
      c.header[AllowHeaders] == Join(config.allowedHeaders, ", ") &&
      c.header[MaxAge] == Itoa(config.maxAge) &&
      c.aborted && c.status == StatusNoContent && c.nextCalls == old(c.nextCalls)
    ensures c.requestMethod != "OPTIONS" ==>
      c.nextCalls == old(c.nextCalls) + 1 && c.aborted == old(c.aborted) && c.status == old(c.status)
    ensures forall k :: k !in {AllowOrigin, AllowCredentials, AllowMethods, AllowHeaders, MaxAge} ==>
      (k in c.header <==> k in old(c.header)) && (k in c.header ==> c.header[k] == old(c.header)[k])
    ensures c.requestMethod != "OPTIONS" ==> forall k :: k in {AllowMethods, AllowHeaders, MaxAge} ==>
      (k in c.header <==> k in old(c.header)) && (k in c.header ==> c.header[k] == old(c.header)[k])
  {
    var origin := HeaderGet(c.requestHeader, OriginHeader);
    if c.requestMethod == "OPTIONS" {
      var methods := JoinStrings(config.allowedMethods);
      c.SetHeader(AllowMethods, methods);
      var headers := JoinStrings(config.allowedHeaders);
      c.SetHeader(AllowHeaders, headers);
      c.SetHeader(MaxAge, Itoa(config.maxAge));
    }
    c.SetHeader(AllowOrigin, origin);
    c.SetHeader(AllowCredentials, "true");
    if c.requestMethod == "OPTIONS" {
      c.AbortWithStatus(StatusNoContent);
      return;
    }
    c.Next();
  }

  /** With the default configuration a preflight answer allows the five
      methods and the two headers, for a day. */
  lemma DefaultPreflight()
    ensures Join(DefaultCorsConfig().allowedMethods, ", ") == "GET, POST, PUT, DELETE, OPTIONS"
    ensures Join(DefaultCorsConfig().allowedHeaders, ", ") == "Content-Type, Authorization"
    ensures Itoa(DefaultCorsConfig().maxAge) == "86400"
  {
    DefaultMethodsJoined();
    DefaultHeadersJoined();
    DefaultMaxAgeText();
  }

  lemma DefaultMethodsJoined()
    ensures Join(DefaultCorsConfig().allowedMethods, ", ") == "GET, POST, PUT, DELETE, OPTIONS"
  {
    var ms := DefaultCorsConfig().allowedMethods;
    assert ms[1..] == ["POST", "PUT", "DELETE", "OPTIONS"];
    assert ms[1..][1..] == ["PUT", "DELETE", "OPTIONS"];
    assert ms[1..][1..][1..] == ["DELETE", "OPTIONS"];
    assert ms[1..][1..][1..][1..] == ["OPTIONS"];
  }

  lemma DefaultHeadersJoined()
    ensures Join(DefaultCorsConfig().allowedHeaders, ", ") == "Content-Type, Authorization"
  {
    var hs := DefaultCorsConfig().allowedHeaders;
    assert hs[1..] == ["Authorization"];
  }

  lemma DefaultMaxAgeText()
    ensures Itoa(DefaultCorsConfig().maxAge) == "86400"
  {
    assert Digits(8) == "8";
    assert Digits(86) == "86";
    assert Digits(864) == "864";
    assert Digits(8640) == "8640";
    assert Digits(86400) == "86400";
  }
}
