/** `JwtAuthenticationFilter`: which request paths skip token handling, and where
    the token is taken from for the rest. Token parsing and validation belong to
    `JwtUtil` and the security context; they appear here only as the decision of
    whether a token is handed on. */
module JwtFilter {
  import opened Wrappers
  import opened JavaText

  /** Paths served without authentication when they start with one of these. */
  const PublicPrefixes: seq<string> := [
    "/health", "/actuator",
    "/ws", "/app/", "/topic/", "/user/",
    "/api/auth/", "/api/contact/", "/api/locations/cities", "/api/places/",
    "/api/proxy/", "/uploads/", "/api/test/public"]

  /** The one path that is public only when matched exactly. */
  const TravelInfoPath: string := "/api/rides/travel-info"

  /** Whether `path` starts with one of `prefixes`, trying them in order. */
  function StartsWithAny(path: string, prefixes: seq<string>): (r: bool)
    ensures r <==> exists i :: 0 <= i < |prefixes| && StartsWith(path, prefixes[i])
  {
    if prefixes == [] then false
    else if StartsWith(path, prefixes[0]) then true
    else
      assert forall i :: 1 <= i < |prefixes| ==> prefixes[i] == prefixes[1..][i - 1];
      StartsWithAny(path, prefixes[1..])
  }

  /** `isPublicEndpoint`. */
  predicate IsPublicEndpoint(path: string) {
    StartsWithAny(path, PublicPrefixes) || path == TravelInfoPath
  }

  const BearerPrefix: string := "Bearer "

  /** What the filter does with a request before passing it down the chain, which
      it always does: skip a public path, hand the text after "Bearer " to the token
      check, or carry on anonymously. */
  datatype FilterAction = SkipPublic | CheckToken(jwt: string) | Anonymous

  /** `doFilterInternal`, up to the token check. */
  function FilterRequest(path: string, authorization: JString): (r: FilterAction)
    ensures IsPublicEndpoint(path) <==> r == SkipPublic
    ensures r.CheckToken? <==> !IsPublicEndpoint(path) && authorization.Some? && StartsWith(authorization.value, BearerPrefix)
    ensures r.CheckToken? ==> BearerPrefix + r.jwt == authorization.value
  {
    if IsPublicEndpoint(path) then SkipPublic
    else if authorization.Some? && StartsWith(authorization.value, BearerPrefix) then
      assert authorization.value == BearerPrefix + authorization.value[7..];
      CheckToken(authorization.value[7..])
    else Anonymous
  }

  /** Whatever token follows "Bearer " is exactly the one handed to the check. */
  lemma BearerRoundTrip(path: string, token: string)
    requires !IsPublicEndpoint(path)
    ensures FilterRequest(path, Some(BearerPrefix + token)) == CheckToken(token)
  {
    assert (BearerPrefix + token)[..7] == BearerPrefix;
    assert (BearerPrefix + token)[7..] == token;
  }

  /** The prefixes are raw string prefixes: "/ws" also opens "/wsx", and "/health"
      opens "/healthz/private". */
  lemma PrefixesAreRaw()
    ensures IsPublicEndpoint("/wsx")
    ensures IsPublicEndpoint("/healthz/private")
  {
    assert StartsWith("/wsx", PublicPrefixes[2]);
    assert StartsWith("/healthz/private", PublicPrefixes[0]);
  }

  /** The ride endpoints stay protected: a path under "/api/r" is public only when it
      is exactly the travel-info path, so nothing beneath that path is public. */
  lemma RidesStayProtected(path: string)
    requires StartsWith(path, "/api/r")
    ensures IsPublicEndpoint(path) <==> path == TravelInfoPath
  {
    NoPrefixOpensRides(path);
  }

  /** No public prefix covers a path under "/api/r": each differs from "/api/r" at
      some position before its end. */
  lemma NoPrefixOpensRides(path: string)
    requires StartsWith(path, "/api/r")
    ensures !StartsWithAny(path, PublicPrefixes)
  {
    forall i | 0 <= i < |PublicPrefixes|
      ensures !StartsWith(path, PublicPrefixes[i])
    {
      var p := PublicPrefixes[i];
      var k := if i in {0, 2, 4, 5, 11} then 1 else if i == 1 then 2 else if i == 3 then 3 else 5;
      assert k < |p| && p[k] != "/api/r"[k];
      assert path[k] == path[..6][k];
    }
  }
}
