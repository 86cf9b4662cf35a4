/** Storage keys of the two tiers: the character sanitizer, the removal of
    "/gateway" from the request path, and the key strings built from them. */
module KeyBuilder {
  import opened Wrappers
  import opened CommonConstants

  /** The gateway segment removed from endpoints before keys are built. */
  const GatewaySegment: string := "/gateway"

  /** Per-character replacement: safe characters stay, every other
      character becomes '_'. */
  function SanitizeChars(s: string): (r: string)
    ensures |r| == |s|
    ensures forall i :: 0 <= i < |r| ==> IsKeySafe(r[i])
    ensures forall i :: 0 <= i < |s| && IsKeySafe(s[i]) ==> r[i] == s[i]
    ensures forall i :: 0 <= i < |s| && !IsKeySafe(s[i]) ==> r[i] == Replacement
  {
    if s == [] then []
    else [if IsKeySafe(s[0]) then s[0] else Replacement] + SanitizeChars(s[1..])
  }

  /** `sanitize`: null becomes "unknown"; otherwise every character outside
      [A-Za-z0-9_:.-] is replaced by '_'. An empty string stays empty. */
  function Sanitize(input: Option<string>): (r: string)
    ensures input.None? ==> r == DefaultUserKey
    ensures input.Some? ==> |r| == |input.value|
    ensures input.Some? ==> forall i :: 0 <= i < |r| && IsKeySafe(input.value[i]) ==> r[i] == input.value[i]
    ensures input.Some? ==> forall i :: 0 <= i < |r| && !IsKeySafe(input.value[i]) ==> r[i] == Replacement
    ensures forall i :: 0 <= i < |r| ==> IsKeySafe(r[i])
  {
    match input
    case None => DefaultUserKey
    case Some(s) => SanitizeChars(s)
  }

  /** A string made only of safe characters passes through unchanged. */
  lemma SanitizeKeepsSafe(s: string)
    requires forall i :: 0 <= i < |s| ==> IsKeySafe(s[i])
    ensures Sanitize(Some(s)) == s
  {
  }

  /** Sanitizing twice is sanitizing once. */
  lemma SanitizeIdempotent(input: Option<string>)
    ensures Sanitize(Some(Sanitize(input))) == Sanitize(input)
  {
    SanitizeKeepsSafe(Sanitize(input));
  }

  /** Distinct inputs can share a sanitized form. */
  lemma SanitizeCollides()
    ensures Sanitize(Some("a/b")) == Sanitize(Some("a b")) == "a_b"
  {
  }

  /** True when `target` occurs in `s` starting at `i`. */
  predicate OccursAt(s: string, target: string, i: nat)
  {
    i + |target| <= |s| && s[i..i + |target|] == target
  }

  /** True when `target` occurs anywhere in `s`. */
  ghost predicate Contains(s: string, target: string)
  {
    exists i: nat :: OccursAt(s, target, i)
  }

  /** An occurrence in `s[1..]` is an occurrence in `s` one place later,
      and the other way round. */
  lemma OccursAtShift(s: string, target: string)
    requires |s| > 0
    ensures Contains(s, target) <==> OccursAt(s, target, 0) || Contains(s[1..], target)
  {
    forall i: nat | OccursAt(s[1..], target, i)
      ensures OccursAt(s, target, i + 1)
    {
      assert s[1..][i..i + |target|] == s[i + 1..i + 1 + |target|];
    }
    forall i: nat | i > 0 && OccursAt(s, target, i)
      ensures OccursAt(s[1..], target, i - 1)
    {
      assert s[1..][i - 1..i - 1 + |target|] == s[i..i + |target|];
    }
  }

  /** Java's `s.replace(target, "")`: scanning left to right, every
      non-overlapping occurrence of `target` is removed. The string is
      left unchanged exactly when `target` does not occur in it, and
      otherwise it becomes shorter. */
  function RemoveAll(s: string, target: string): (r: string)
    requires |target| > 0
    ensures |r| <= |s|
    ensures r == s <==> !Contains(s, target)
    ensures r != s ==> |r| < |s|
    decreases |s|
  {
    if |s| < |target| then s
    else if s[..|target|] == target then
      assert OccursAt(s, target, 0);
      RemoveAll(s[|target|..], target)
    else
      OccursAtShift(s, target);
      [s[0]] + RemoveAll(s[1..], target)
  }

  /** One step of the removal at an occurrence: drop it, carry on after it. */
  lemma RemoveAllAtOccurrence(s: string, target: string)
    requires |target| > 0 && OccursAt(s, target, 0)
    ensures RemoveAll(s, target) == RemoveAll(s[|target|..], target)
  {
  }

  /** One step of the removal where `target` does not start: keep the first
      character, carry on after it. */
  lemma RemoveAllAtMismatch(s: string, target: string)
    requires |target| > 0 && |target| <= |s| && !OccursAt(s, target, 0)
    ensures RemoveAll(s, target) == [s[0]] + RemoveAll(s[1..], target)
  {
  }

  /** An occurrence at `k` in `s` is an occurrence at 0 in `s[k..]`. */
  lemma OccursAtSuffix(s: string, target: string, k: nat)
    requires k <= |s|
    ensures OccursAt(s[k..], target, 0) <==> OccursAt(s, target, k)
  {
    if k + |target| <= |s| {
      assert s[k..][0..|target|] == s[k..k + |target|];
    }
  }

  /** Run from an occurrence at `k`, the removal drops it. */
  lemma RemoveAllDropsAt(s: string, target: string, k: nat)
    requires |target| > 0 && OccursAt(s, target, k)
    ensures RemoveAll(s[k..], target) == RemoveAll(s[k + |target|..], target)
  {
    OccursAtSuffix(s, target, k);
    RemoveAllAtOccurrence(s[k..], target);
    assert s[k..][|target|..] == s[k + |target|..];
  }

  /** Run from a position `k` where `target` does not start, the removal
      keeps `s[k]`. */
  lemma RemoveAllKeepsAt(s: string, target: string, k: nat)
    requires |target| > 0 && k + |target| <= |s| && !OccursAt(s, target, k)
    ensures RemoveAll(s[k..], target) == [s[k]] + RemoveAll(s[k + 1..], target)
  {
    OccursAtSuffix(s, target, k);
    RemoveAllAtMismatch(s[k..], target);
    assert s[k..][1..] == s[k + 1..];
  }

  /** The removal run from position `k`, with no occurrence in `k..i` and
      one at `i`, keeps `s[k..i]`, drops the occurrence and carries on
      after it. */
  lemma {:induction false} RemoveAllSkipsFrom(s: string, target: string, k: nat, i: nat)
    requires |target| > 0
    requires k <= i && OccursAt(s, target, i)
    requires forall j: nat :: k <= j < i ==> !OccursAt(s, target, j)
    ensures RemoveAll(s[k..], target) == s[k..i] + RemoveAll(s[i + |target|..], target)
    decreases i - k
  {
    if k == i {
      RemoveAllDropsAt(s, target, k);
      assert s[k..i] == [];
    } else {
      calc {
        RemoveAll(s[k..], target);
        { RemoveAllKeepsAt(s, target, k); }
        [s[k]] + RemoveAll(s[k + 1..], target);
        { RemoveAllSkipsFrom(s, target, k + 1, i); }
        [s[k]] + (s[k + 1..i] + RemoveAll(s[i + |target|..], target));
        { assert [s[k]] + s[k + 1..i] == s[k..i]; }
        s[k..i] + RemoveAll(s[i + |target|..], target);
      }
    }
  }

  /** Java's own loop for `replace`: find the first occurrence, keep what
      comes before it, drop it, and carry on after it. The removal agrees
      with that loop at every first occurrence, so together with "unchanged
      when `target` does not occur" it removes every occurrence it meets. */
  lemma {:induction false} RemoveAllSkipsToFirstOccurrence(s: string, target: string, i: nat)
    requires |target| > 0
    requires OccursAt(s, target, i)
    requires forall j: nat :: j < i ==> !OccursAt(s, target, j)
    ensures RemoveAll(s, target) == s[..i] + RemoveAll(s[i + |target|..], target)
  {
    RemoveAllSkipsFrom(s, target, 0, i);
    assert s[0..] == s && s[0..i] == s[..i];
  }

  /** The service-relative path: the endpoint with every "/gateway" removed. */
  function RequestPath(endpoint: string): (path: string)
    ensures |path| <= |endpoint|
    ensures path == endpoint <==> !Contains(endpoint, GatewaySegment)
  {
    RemoveAll(endpoint, GatewaySegment)
  }

  /** "/gateway" is removed wherever it appears, not only in front. */
  lemma RequestPathRemovesInnerSegment()
    ensures RequestPath("/gateway/api") == "/api"
    ensures RequestPath("/x/gateway") == "/x"
  {
    assert "/gateway/api"[..8] == GatewaySegment;
    assert "/x/gateway"[..8][1] != GatewaySegment[1];
    assert "x/gateway"[..8][0] != GatewaySegment[0];
    assert "/gateway"[..8] == GatewaySegment;
  }

  /** Every occurrence is removed, not only the first: the removal goes on
      after the first "/gateway" and drops the second one too. */
  lemma RequestPathRemovesEveryOccurrence()
    ensures RequestPath("/gateway/a/gateway/b") == "/a/b"
  {
    var s, t := "/gateway/a/gateway/b", "/a/gateway/b";
    assert OccursAt(s, GatewaySegment, 0) && s[8..] == t;
    RemoveAllAtOccurrence(s, GatewaySegment);
    SecondGatewayRemoved();
  }

  /** The rest of that example: "/a" is kept, then "/gateway" is dropped. */
  lemma SecondGatewayRemoved()
    ensures RemoveAll("/a/gateway/b", GatewaySegment) == "/a/b"
  {
    var t := "/a/gateway/b";
    assert OccursAt(t, GatewaySegment, 2) && t[..2] == "/a" && t[10..] == "/b";
    assert !OccursAt(t, GatewaySegment, 0) by { assert t[1] != GatewaySegment[1]; }
    assert !OccursAt(t, GatewaySegment, 1) by { assert t[1] != GatewaySegment[0]; }
    RemoveAllSkipsToFirstOccurrence(t, GatewaySegment, 2);
    assert RemoveAll("/b", GatewaySegment) == "/b";
  }

  /** The removal is a single pass: what it leaves can contain "/gateway"
      again, so applying it twice can differ from applying it once. */
  lemma RequestPathNotIdempotent()
    ensures RequestPath("/ga/gatewayteway") == "/gateway"
    ensures RequestPath(RequestPath("/ga/gatewayteway")) == ""
  {
    SplitGatewayRemoved("/ga/gatewayteway");
    assert OccursAt("/gateway", GatewaySegment, 0) && "/gateway"[8..] == [];
    RemoveAllAtOccurrence("/gateway", GatewaySegment);
    assert RemoveAll([], GatewaySegment) == [];
  }

  /** The first pass over "/ga/gatewayteway": "/ga" is kept, "/gateway" is
      dropped and "teway" is kept, which joins into "/gateway" again. */
  lemma SplitGatewayRemoved(s: string)
    requires s == "/ga/gatewayteway"
    ensures RemoveAll(s, GatewaySegment) == "/gateway"
  {
    FirstGatewayAtThree(s);
    RemoveAllSkipsToFirstOccurrence(s, GatewaySegment, 3);
    var kept, rest := s[..3], s[11..];
    assert RemoveAll(rest, GatewaySegment) == rest by { assert |rest| < |GatewaySegment|; }
    assert kept + rest == "/gateway" by { assert kept == "/ga" && rest == "teway"; }
  }

  /** In "/ga/gatewayteway" the first "/gateway" starts at index 3. */
  lemma FirstGatewayAtThree(s: string)
    requires s == "/ga/gatewayteway"
    ensures OccursAt(s, GatewaySegment, 3)
    ensures forall j: nat :: j < 3 ==> !OccursAt(s, GatewaySegment, j)
  {
    assert s[3..11] == GatewaySegment;
    assert s[3] != GatewaySegment[3] && s[1] != GatewaySegment[0] && s[2] != GatewaySegment[0];
    assert s[0..8][3] == s[3] && s[1..9][0] == s[1] && s[2..10][0] == s[2];
  }

  /** The global-tier key: "rate_limit:global:" + sanitize(path). */
  function GlobalKey(path: string): (k: string)
    ensures GlobalRedisBaseKey <= k
    ensures |k| == |GlobalRedisBaseKey| + |path|
  {
    GlobalRedisBaseKey + Sanitize(Some(path))
  }

  /** Java's string concatenation of a possibly null string. */
  function JavaString(s: Option<string>): string
  {
    match s
    case None => "null"
    case Some(v) => v
  }

  /** The identity the user tier is keyed on: the request's identifier, or
      "ip:" + ipAddress when the identifier is null or empty. */
  function UserIdentity(identifier: Option<string>, ipAddress: Option<string>): (id: string)
    ensures identifier.Some? && identifier.value != "" ==> id == identifier.value
    ensures identifier.None? || identifier.value == "" ==> id == "ip:" + JavaString(ipAddress)
  {
    if identifier.None? || identifier.value == "" then "ip:" + JavaString(ipAddress)
    else identifier.value
  }

  /** The user-tier key:
      "rate_limit:user:" + sanitize(path) + ":" + sanitize(identity). */
  function UserKey(path: string, identifier: Option<string>, ipAddress: Option<string>): (k: string)
    ensures UserRedisBaseKey <= k
    ensures |k| == |UserRedisBaseKey| + |path| + 1 + |UserIdentity(identifier, ipAddress)|
    ensures k[|UserRedisBaseKey| + |path|] == ':'
  {
    UserRedisBaseKey + Sanitize(Some(path)) + ":" + Sanitize(Some(UserIdentity(identifier, ipAddress)))
  }

  /** The key `resetUserRateLimit` deletes: no "/gateway" removal and no ip
      fallback; a null endpoint or identifier becomes "unknown". */
  function ResetUserKey(endpoint: Option<string>, identifier: Option<string>): (k: string)
    ensures UserRedisBaseKey <= k
    ensures endpoint.Some? && identifier.Some? && identifier.value != "" ==>
              k == UserKey(endpoint.value, identifier, None)
    ensures identifier.None? ==> k == UserRedisBaseKey + Sanitize(endpoint) + ":" + DefaultUserKey
    ensures endpoint.None? && identifier.Some? ==> k == UserRedisBaseKey + DefaultUserKey + ":" + Sanitize(identifier)
    ensures endpoint.Some? && identifier == Some("") ==> k == UserRedisBaseKey + Sanitize(endpoint) + ":"
  {
    UserRedisBaseKey + Sanitize(endpoint) + ":" + Sanitize(identifier)
  }

  /** The key `resetGlobalRateLimit` deletes: no "/gateway" removal. */
  function ResetGlobalKey(endpoint: Option<string>): (k: string)
    ensures GlobalRedisBaseKey <= k
    ensures endpoint.Some? ==> k == GlobalKey(endpoint.value)
    ensures endpoint.None? ==> k == GlobalRedisBaseKey + DefaultUserKey
  {
    GlobalRedisBaseKey + Sanitize(endpoint)
  }

  /** No user-tier key is a global-tier key: the two prefixes differ at
      their twelfth character. */
  lemma TierKeysDisjoint(userKey: string, globalKey: string)
    requires UserRedisBaseKey <= userKey
    requires GlobalRedisBaseKey <= globalKey
    ensures userKey != globalKey
  {
    assert userKey[11] == UserRedisBaseKey[11] == 'u';
    assert globalKey[11] == GlobalRedisBaseKey[11] == 'g';
  }

  /** Every character after the global prefix is a safe one, and the part
      after the prefix is the sanitized path. */
  lemma GlobalKeyShape(path: string)
    ensures var k := GlobalKey(path);
            && k[|GlobalRedisBaseKey|..] == Sanitize(Some(path))
            && forall i :: |GlobalRedisBaseKey| <= i < |k| ==> IsKeySafe(k[i])
  {
    var k := GlobalKey(path);
    assert k[|GlobalRedisBaseKey|..] == Sanitize(Some(path));
  }

  /** After the user prefix come the sanitized path, ':' and the sanitized
      identity, and every one of those characters is safe. */
  lemma UserKeyShape(path: string, identifier: Option<string>, ipAddress: Option<string>)
    ensures var k, n := UserKey(path, identifier, ipAddress), |UserRedisBaseKey|;
            && k[n..n + |path|] == Sanitize(Some(path))
            && k[n + |path| + 1..] == Sanitize(Some(UserIdentity(identifier, ipAddress)))
            && forall i :: n <= i < |k| ==> IsKeySafe(k[i])
  {
    var k, n := UserKey(path, identifier, ipAddress), |UserRedisBaseKey|;
    var p, id := Sanitize(Some(path)), Sanitize(Some(UserIdentity(identifier, ipAddress)));
    assert k == UserRedisBaseKey + p + ":" + id;
    assert k[n..n + |path|] == p;
    assert k[n + |path| + 1..] == id;
    forall i | n <= i < |k|
      ensures IsKeySafe(k[i])
    {
      if i < n + |path| {
        assert k[i] == p[i - n];
      } else if i > n + |path| {
        assert k[i] == id[i - n - |path| - 1];
      }
    }
  }

  /** The user key does not determine its parts: ':' is a safe character,
      so an endpoint and identifier split differently give the same key. */
  lemma UserKeyAmbiguous()
    ensures UserKey("/a:b", Some("c"), None) == UserKey("/a", Some("b:c"), None)
  {
    assert UserKey("/a:b", Some("c"), None) == "rate_limit:user:_a:b:c";
    assert UserKey("/a", Some("b:c"), None) == "rate_limit:user:_a:b:c";
  }

  /** For an endpoint without "/gateway" and a non-empty identifier, the
      reset operations delete exactly the keys the checks use. */
  lemma ResetKeysMatchCheckKeys(endpoint: string, identifier: string, ipAddress: Option<string>)
    requires !Contains(endpoint, GatewaySegment)
    requires identifier != ""
    ensures ResetUserKey(Some(endpoint), Some(identifier)) == UserKey(RequestPath(endpoint), Some(identifier), ipAddress)
    ensures ResetGlobalKey(Some(endpoint)) == GlobalKey(RequestPath(endpoint))
  {
  }

  /** Without an identifier, the user reset deletes the "unknown" key of the
      endpoint, while the check keys the caller on "ip:" + address: the two
      keys differ right after the endpoint part. */
  lemma ResetUserMissesIpFallback(endpoint: string, ipAddress: Option<string>)
    ensures ResetUserKey(Some(endpoint), None) != UserKey(endpoint, None, ipAddress)
  {
    var n := |UserRedisBaseKey| + |endpoint| + 1;
    var resetKey, checkKey := ResetUserKey(Some(endpoint), None), UserKey(endpoint, None, ipAddress);
    assert resetKey == UserRedisBaseKey + Sanitize(Some(endpoint)) + ":" + DefaultUserKey;
    assert resetKey[n] == 'u';
    var id := "ip:" + JavaString(ipAddress);
    assert checkKey == UserRedisBaseKey + Sanitize(Some(endpoint)) + ":" + Sanitize(Some(id));
    assert IsKeySafe(id[0]);
    assert Sanitize(Some(id))[0] == 'i';
    assert checkKey[n] == 'i';
  }

  /** With an empty identifier, the user reset deletes the endpoint's key
      ending in ':', while the check keys the caller on "ip:" + address: the
      reset key is the shorter of the two. */
  lemma ResetUserMissesEmptyIdentifier(endpoint: string, ipAddress: Option<string>)
    ensures ResetUserKey(Some(endpoint), Some("")) != UserKey(endpoint, Some(""), ipAddress)
  {
    assert |ResetUserKey(Some(endpoint), Some(""))| == |UserRedisBaseKey| + |endpoint| + 1;
    assert |UserIdentity(Some(""), ipAddress)| >= 3;
  }

  /** With "/gateway" in the endpoint, the global reset misses the key the
      check uses. */
  lemma ResetGlobalMissesGatewayEndpoint()
    ensures ResetGlobalKey(Some("/gateway/api")) != GlobalKey(RequestPath("/gateway/api"))
  {
    assert "/gateway/api"[..8] == GatewaySegment;
    assert RequestPath("/gateway/api") == "/api";
    assert |ResetGlobalKey(Some("/gateway/api"))| != |GlobalKey("/api")|;
  }
}
