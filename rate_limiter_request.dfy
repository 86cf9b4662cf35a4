/** What the policy is asked about one request. Any field may be null. */
module RateLimiterRequests {
  import opened Wrappers

  datatype RateLimiterRequest = RateLimiterRequest(
    endpoint: Option<string>,
    identifier: Option<string>,
    ipAddress: Option<string>,
    userId: Option<string>,
    apiKey: Option<string>,
    timestamp: int)   // epoch seconds; carried, never read by the policy
}
