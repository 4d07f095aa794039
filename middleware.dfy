/**
 * The request middleware: CORS preflight answers for API routes and CORS
 * headers on API responses, following the CORS protocol of section 3.2 of
 * the WHATWG Fetch Standard. The session refresh is a parameter: the
 * response it produces.
 */
module Middleware {
  import opened Wrappers
  import opened Strings

  const AllowOriginHeader: string := "Access-Control-Allow-Origin"

  /** Origins are matched by prefix. */
  const AllowedOrigins: seq<string> := ["chrome-extension://", "http://localhost:3000", "http://127.0.0.1:3000"]

  /** `origin && allowedOrigins.some(a => origin.startsWith(a))`. */
  predicate IsAllowed(origin: Option<string>) {
    origin.Some? && origin.value != "" && exists i :: 0 <= i < |AllowedOrigins| && StartsWith(origin.value, AllowedOrigins[i])
  }

  /** `getCorsHeaders(origin)`, in the order the object lists them. */
  function CorsHeaders(origin: Option<string>): (hs: seq<(string, string)>)
    ensures |hs| == 5 && hs[0].0 == AllowOriginHeader
    ensures hs[0].1 == if IsAllowed(origin) then origin.value else ""
    ensures forall i :: 1 <= i < 5 ==> hs[i].1 != "" && hs[i].0 != AllowOriginHeader
  {
    [ (AllowOriginHeader, if IsAllowed(origin) then origin.value else ""),
      ("Access-Control-Allow-Methods", "GET, POST, PUT, PATCH, DELETE, OPTIONS"),
      ("Access-Control-Allow-Headers", "Content-Type, Authorization"),
      ("Access-Control-Allow-Credentials", "true"),
      ("Access-Control-Max-Age", "86400") ]
  }

  /** The extension and both local development origins are allowed, on any
      path after them; a prefix match also lets other ports and hosts that
      merely start with an allowed origin through. */
  lemma AllowedOriginsSpec(ext: string, rest: string)
    ensures IsAllowed(Some("chrome-extension://" + ext))
    ensures IsAllowed(Some("http://localhost:3000" + rest))
    ensures IsAllowed(Some("http://127.0.0.1:3000" + rest))
    ensures !IsAllowed(None) && !IsAllowed(Some(""))
  {
    assert StartsWith("chrome-extension://" + ext, AllowedOrigins[0]) by {
      assert ("chrome-extension://" + ext)[..|AllowedOrigins[0]|] == AllowedOrigins[0];
    }
    assert StartsWith("http://localhost:3000" + rest, AllowedOrigins[1]) by {
      assert ("http://localhost:3000" + rest)[..|AllowedOrigins[1]|] == AllowedOrigins[1];
    }
    assert StartsWith("http://127.0.0.1:3000" + rest, AllowedOrigins[2]) by {
      assert ("http://127.0.0.1:3000" + rest)[..|AllowedOrigins[2]|] == AllowedOrigins[2];
    }
  }

  /** The response headers after copying the CORS headers with a non-empty
      value, one `headers.set` after the other. */
  function WithCors(headers: map<string, string>, cors: seq<(string, string)>): map<string, string>
    decreases |cors|
  {
    if cors == [] then headers
    else WithCors(if cors[0].1 != "" then headers[cors[0].0 := cors[0].1] else headers, cors[1..])
  }

  /** A header that no non-empty CORS entry names is left as it was. */
  lemma {:induction false} WithCorsUntouched(headers: map<string, string>, cors: seq<(string, string)>, k: string)
    requires forall i :: 0 <= i < |cors| ==> cors[i].0 != k || cors[i].1 == ""
    ensures var h := WithCors(headers, cors);
            (k in h <==> k in headers) && (k in h ==> h[k] == headers[k])
    decreases |cors|
  {
    if cors != [] {
      var next := if cors[0].1 != "" then headers[cors[0].0 := cors[0].1] else headers;
      assert forall i :: 0 <= i < |cors[1..]| ==> cors[1..][i] == cors[i + 1];
      WithCorsUntouched(next, cors[1..], k);
    }
  }

  /** A header named by a non-empty entry takes the value of the last such
      entry. */
  lemma {:induction false} WithCorsLastWins(headers: map<string, string>, cors: seq<(string, string)>, i: nat, k: string)
    requires i < |cors| && cors[i].0 == k && cors[i].1 != ""
    requires forall j :: i < j < |cors| ==> cors[j].0 != k || cors[j].1 == ""
    ensures var h := WithCors(headers, cors); k in h && h[k] == cors[i].1
    decreases |cors|
  {
    var next := if cors[0].1 != "" then headers[cors[0].0 := cors[0].1] else headers;
    assert forall j :: 0 <= j < |cors[1..]| ==> cors[1..][j] == cors[j + 1];
    if i == 0 {
      WithCorsUntouched(next, cors[1..], k);
    } else {
      WithCorsLastWins(next, cors[1..], i - 1, k);
    }
  }

  /** What the middleware answers. */
  datatype Reply =
    | Preflight(cors: seq<(string, string)>)   // 204, no session refresh
    | Forward(headers: map<string, string>)       // the session response

  function Handle(httpMethod: string, path: string, origin: Option<string>, session: map<string, string>): Reply {
    var isApi := StartsWith(path, "/api/");
    if isApi && httpMethod == "OPTIONS" then Preflight(CorsHeaders(origin))
    else if isApi && origin.Some? && origin.value != "" then Forward(WithCors(session, CorsHeaders(origin)))
    else Forward(session)
  }

  /** The header-copy loop of the middleware. */
  method CopyCorsHeaders(headers: map<string, string>, cors: seq<(string, string)>) returns (out: map<string, string>)
    ensures out == WithCors(headers, cors)
  {
    out := headers;
    for i := 0 to |cors|
      invariant WithCors(out, cors[i..]) == WithCors(headers, cors)
    {
      assert cors[i..][1..] == cors[i + 1..];
      if cors[i].1 != "" {
        out := out[cors[i].0 := cors[i].1];
      }
    }
  }

  /** An OPTIONS request on an API path is a 204 preflight carrying the CORS
      headers. Other API responses to a request with an origin get the four
      constant headers, and an Allow-Origin echoing the origin only when it
      is allowed; a disallowed origin leaves Allow-Origin as the session set
      it. Non-API paths pass through untouched. */
  lemma HandleSpec(httpMethod: string, path: string, origin: Option<string>, session: map<string, string>)
    ensures var r := Handle(httpMethod, path, origin, session);
            (r.Preflight? <==> StartsWith(path, "/api/") && httpMethod == "OPTIONS")
            && (r.Preflight? ==> r.cors == CorsHeaders(origin))
            && (!StartsWith(path, "/api/") ==> r == Forward(session))
    ensures var r := Handle(httpMethod, path, origin, session);
            r.Forward? && StartsWith(path, "/api/") && origin.Some? && origin.value != "" ==>
              (IsAllowed(origin) ==> AllowOriginHeader in r.headers && r.headers[AllowOriginHeader] == origin.value)
              && (!IsAllowed(origin) ==> (AllowOriginHeader in r.headers <==> AllowOriginHeader in session)
                                         && (AllowOriginHeader in session ==> r.headers[AllowOriginHeader] == session[AllowOriginHeader]))
              && "Access-Control-Allow-Credentials" in r.headers && r.headers["Access-Control-Allow-Credentials"] == "true"
  {
    var cors := CorsHeaders(origin);
    if StartsWith(path, "/api/") && httpMethod != "OPTIONS" && origin.Some? && origin.value != "" {
      if IsAllowed(origin) {
        WithCorsLastWins(session, cors, 0, AllowOriginHeader);
      } else {
        WithCorsUntouched(session, cors, AllowOriginHeader);
      }
      assert cors[3] == ("Access-Control-Allow-Credentials", "true");
      WithCorsLastWins(session, cors, 3, "Access-Control-Allow-Credentials");
    }
  }

  /** The middleware with its header-copy loop. */
  method Middleware(httpMethod: string, path: string, origin: Option<string>, session: map<string, string>) returns (r: Reply)
    ensures r == Handle(httpMethod, path, origin, session)
  {
    var isApi := StartsWith(path, "/api/");
    if isApi && httpMethod == "OPTIONS" {
      return Preflight(CorsHeaders(origin));
    }
    if isApi && origin.Some? && origin.value != "" {
      var headers := CopyCorsHeaders(session, CorsHeaders(origin));
      return Forward(headers);
    }
    r := Forward(session);
  }
}
