/** How the request handed to the policy is assembled from an HTTP
    request (the rest of the interceptor, which writes the HTTP response,
    is not part of this model). */
module RateLimitInterceptor {
  import opened Wrappers
  import opened IdentifierExtractor
  import opened RateLimiterRequests
  import opened KeyBuilder

  /** `buildRateLimiterRequest`: every field from the extractor, stamped
      with the clock reading `now`. */
  function BuildRateLimiterRequest(http: HttpRequest, now: int): (req: RateLimiterRequest)
    requires IpHeadersWellFormed(http)
    ensures req.endpoint == Some(http.requestUri)
    ensures req.identifier == Some(ExtractPrimaryIdentifier(http)) && req.identifier.value != ""
    ensures req.ipAddress == Some(ExtractIpAddress(http))
    ensures req.userId == ExtractUserId(http) && req.apiKey == ExtractApiKey(http)
    ensures req.timestamp == now
  {
    RateLimiterRequest(
      endpoint := Some(ExtractEndpoint(http)),
      identifier := Some(ExtractPrimaryIdentifier(http)),
      ipAddress := Some(ExtractIpAddress(http)),
      userId := ExtractUserId(http),
      apiKey := ExtractApiKey(http),
      timestamp := now)
  }

  /** Requests built from HTTP always carry an identifier, so the user
      bucket is keyed on the primary identifier and never on the policy's
      own "ip:" fallback; an anonymous caller's key is still its address,
      through the identifier's "ip:" tag. */
  lemma HttpRequestsKeyOnPrimaryIdentifier(http: HttpRequest, now: int, path: string)
    requires IpHeadersWellFormed(http)
    ensures var req := BuildRateLimiterRequest(http, now);
            && UserKey(path, req.identifier, req.ipAddress) == UserKey(path, Some(ExtractPrimaryIdentifier(http)), None)
            && (Anonymous(http) ==> UserIdentity(req.identifier, req.ipAddress) == "ip:" + ExtractIpAddress(http))
  {
  }
}
