/** Who is making a request, read from an abstract HTTP request: its
    headers, query parameters, optional session and remote address. */
module IdentifierExtractor {
  import opened Wrappers

  /** An existing HTTP session: its id and its "userId" attribute, if set
      (as the attribute's `toString`). */
  datatype Session = Session(id: string, userIdAttribute: Option<string>)

  /** The parts of a servlet request the extractor reads. Header names are
      looked up exactly as written. */
  datatype HttpRequest = HttpRequest(
    headers: map<string, string>,
    parameters: map<string, string>,
    session: Option<Session>,
    remoteAddr: string,
    requestUri: string)

  /** Proxy headers that may carry the client address, in the order they
      are tried. */
  const IpHeaderCandidates: seq<string> :=
    ["X-Forwarded-For", "X-Real-IP", "Proxy-Client-IP", "WL-Proxy-Client-IP",
     "HTTP_X_FORWARDED_FOR", "HTTP_CLIENT_IP"]

  function Header(req: HttpRequest, name: string): Option<string>
  {
    if name in req.headers then Some(req.headers[name]) else None
  }

  function Parameter(req: HttpRequest, name: string): Option<string>
  {
    if name in req.parameters then Some(req.parameters[name]) else None
  }

  /** `c` equals the lower-case ASCII letter `lower` ignoring case as Java's
      `equalsIgnoreCase` compares characters: the letter itself, its upper
      case, and for 'k' also the Kelvin sign, whose lower case is 'k'. */
  predicate SameLetterIgnoringCase(c: char, lower: char)
    requires 'a' <= lower <= 'z'
  {
    c == lower || c as int == lower as int - 32 || (lower == 'k' && c == '\U{212A}')
  }

  /** `"unknown".equalsIgnoreCase(s)`. */
  predicate IsUnknownIgnoringCase(s: string)
  {
    |s| == 7 && forall i :: 0 <= i < 7 ==> SameLetterIgnoringCase(s[i], "unknown"[i])
  }

  /** A header value the extractor accepts: present, non-empty and not
      "unknown" in any case. */
  predicate UsableIp(v: Option<string>)
  {
    v.Some? && v.value != "" && !IsUnknownIgnoringCase(v.value)
  }

  /** The position of the first candidate header with a usable value. */
  function FirstUsableHeader(req: HttpRequest, candidates: seq<string>): (r: Option<nat>)
    ensures r.Some? ==> r.value < |candidates| && UsableIp(Header(req, candidates[r.value]))
    ensures r.Some? ==> forall j :: 0 <= j < r.value ==> !UsableIp(Header(req, candidates[j]))
    ensures r.None? ==> forall j :: 0 <= j < |candidates| ==> !UsableIp(Header(req, candidates[j]))
  {
    if candidates == [] then None
    else if UsableIp(Header(req, candidates[0])) then Some(0)
    else
      match FirstUsableHeader(req, candidates[1..])
      case None => None
      case Some(i) => Some(i + 1)
  }

  /** Every character of `s` is a comma: Java's `s.split(",")` is then
      empty and taking its first element throws. */
  predicate OnlyCommas(s: string)
  {
    forall i :: 0 <= i < |s| ==> s[i] == ','
  }

  /** The text before the first comma (all of `s` if there is none). */
  function BeforeFirstComma(s: string): (r: string)
    ensures r <= s && ',' !in r
    ensures |r| < |s| ==> s[|r|] == ','
  {
    if s == [] || s[0] == ',' then [] else [s[0]] + BeforeFirstComma(s[1..])
  }

  /** Java's `trim` at the front: drops leading characters up to ' '. */
  function TrimStart(s: string): (r: string)
    ensures |r| <= |s| && r == s[|s| - |r|..]
    ensures forall k :: 0 <= k < |s| - |r| ==> s[k] <= ' '
    ensures r == [] || r[0] > ' '
  {
    if s != [] && s[0] <= ' ' then TrimStart(s[1..]) else s
  }

  /** Java's `trim` at the back: drops trailing characters up to ' '. */
  function TrimEnd(s: string): (r: string)
    ensures r <= s
    ensures forall k :: |r| <= k < |s| ==> s[k] <= ' '
    ensures r == [] || r[|r| - 1] > ' '
  {
    if s != [] && s[|s| - 1] <= ' ' then TrimEnd(s[..|s| - 1]) else s
  }

  /** Java's `trim`. */
  function Trim(s: string): string
  {
    TrimEnd(TrimStart(s))
  }

  /** `trim` keeps only characters of its input. */
  lemma TrimKeepsCharacters(s: string)
    ensures forall c :: c in Trim(s) ==> c in s
  {
    var t := TrimStart(s);
    assert forall c :: c in t ==> c in s;
    var u := TrimEnd(t);
    assert forall c :: c in u ==> c in t;
  }

  /** What `trim` keeps is empty or begins and ends with a character above
      ' '. */
  lemma TrimEndsAreNotBlank(s: string)
    ensures Trim(s) == [] || (Trim(s)[0] > ' ' && Trim(s)[|Trim(s)| - 1] > ' ')
  {
    var t := TrimStart(s);
    var u := TrimEnd(t);
    assert u != [] ==> u[0] == t[0];
  }

  /** The usable proxy header value, if one exists. */
  function SelectedIpHeader(req: HttpRequest): (v: Option<string>)
    ensures v.Some? ==> UsableIp(v)
    ensures v.None? <==> forall j :: 0 <= j < |IpHeaderCandidates| ==> !UsableIp(Header(req, IpHeaderCandidates[j]))
    ensures v.Some? ==> exists i :: 0 <= i < |IpHeaderCandidates| && v == Header(req, IpHeaderCandidates[i])
                          && forall j :: 0 <= j < i ==> !UsableIp(Header(req, IpHeaderCandidates[j]))
  {
    match FirstUsableHeader(req, IpHeaderCandidates)
    case None => None
    case Some(i) => Header(req, IpHeaderCandidates[i])
  }

  /** The request does not make `extractIpAddress` throw: the selected
      header, if any, is not made of commas alone. */
  predicate IpHeadersWellFormed(req: HttpRequest)
  {
    SelectedIpHeader(req).None? || !OnlyCommas(SelectedIpHeader(req).value)
  }

  /** `extractIpAddress`: the first usable proxy header in candidate order,
      cut at its first comma and trimmed when it lists several addresses;
      the remote address when no header is usable. */
  function ExtractIpAddress(req: HttpRequest): (ip: string)
    requires IpHeadersWellFormed(req)
    ensures SelectedIpHeader(req).None? ==> ip == req.remoteAddr
    ensures SelectedIpHeader(req).Some? && ',' !in SelectedIpHeader(req).value ==> ip == SelectedIpHeader(req).value
    ensures SelectedIpHeader(req).Some? && ',' in SelectedIpHeader(req).value ==>
              ip == Trim(BeforeFirstComma(SelectedIpHeader(req).value)) && ',' !in ip
  {
    match SelectedIpHeader(req)
    case None => req.remoteAddr
    case Some(v) =>
      if ',' in v then
        var first := BeforeFirstComma(v);
        TrimKeepsCharacters(first);
        Trim(first)
      else v
  }

  /** The first address of a forwarded list wins, trimmed. */
  lemma ForwardedListGivesFirstAddress(remoteAddr: string, uri: string)
    ensures var req := HttpRequest(map["X-Forwarded-For" := " 1.2, 3.4"], map[], None, remoteAddr, uri);
            IpHeadersWellFormed(req) && ExtractIpAddress(req) == "1.2"
  {
    var v := " 1.2, 3.4";
    var req := HttpRequest(map["X-Forwarded-For" := v], map[], None, remoteAddr, uri);
    assert Header(req, IpHeaderCandidates[0]) == Some(v);
    assert UsableIp(Some(v)) by { assert |v| != 7; }
    assert SelectedIpHeader(req) == Some(v);
    assert v[4] == ',';
    assert !OnlyCommas(v) by { assert v[0] != ','; }
    assert BeforeFirstComma(v) == " 1.2" by {
      assert v[0] != ',' && v[1] != ',' && v[2] != ',' && v[3] != ',';
      assert v[1..][1..][1..][1..] == v[4..];
    }
    assert TrimStart(" 1.2") == "1.2" by { assert " 1.2"[1..] == "1.2"; }
  }

  /** A header that says "unknown", in any case, is passed over for the
      next candidate. */
  lemma UnknownHeaderIsSkipped(remoteAddr: string, uri: string)
    ensures var req := HttpRequest(map["X-Forwarded-For" := "UnKnOwN", "X-Real-IP" := "9.9"], map[], None, remoteAddr, uri);
            IpHeadersWellFormed(req) && ExtractIpAddress(req) == "9.9"
  {
    var req := HttpRequest(map["X-Forwarded-For" := "UnKnOwN", "X-Real-IP" := "9.9"], map[], None, remoteAddr, uri);
    assert Header(req, IpHeaderCandidates[0]) == Some("UnKnOwN");
    assert IsUnknownIgnoringCase("UnKnOwN");
    assert Header(req, IpHeaderCandidates[1]) == Some("9.9");
    assert UsableIp(Some("9.9")) by { assert |"9.9"| != 7; }
    assert FirstUsableHeader(req, IpHeaderCandidates[1..]) == Some(0);
    assert SelectedIpHeader(req) == Some("9.9");
    assert !OnlyCommas("9.9") by { assert "9.9"[0] != ','; }
    assert ',' !in "9.9";
  }

  /** `equalsIgnoreCase` accepts "unknown" in any mix of cases, including
      the Kelvin sign for 'k', and nothing of another length or spelling. */
  lemma UnknownIgnoringCaseExamples()
    ensures IsUnknownIgnoringCase("unknown") && IsUnknownIgnoringCase("UNKNOWN")
    ensures IsUnknownIgnoringCase("un\U{212A}nown")
    ensures !IsUnknownIgnoringCase("unknow") && !IsUnknownIgnoringCase("unkn0wn")
    ensures !UsableIp(Some("Unknown")) && !UsableIp(Some("")) && !UsableIp(None)
    ensures UsableIp(Some("10.0.0.1"))
  {
    assert !SameLetterIgnoringCase("unkn0wn"[4], "unknown"[4]);
    assert "10.0.0.1"[0] == '1';
    assert !SameLetterIgnoringCase('1', 'u');
  }

  /** The header "X-User-Id" or, when that is missing or empty, the
      session's "userId" attribute; null when neither is there. */
  function ExtractUserId(req: HttpRequest): (r: Option<string>)
    ensures Header(req, "X-User-Id").Some? && Header(req, "X-User-Id").value != "" ==> r == Header(req, "X-User-Id")
    ensures (Header(req, "X-User-Id").None? || Header(req, "X-User-Id").value == "") ==>
              r == (if req.session.Some? then req.session.value.userIdAttribute else None)
    ensures r.Some? && r != Header(req, "X-User-Id") ==> req.session.Some? && r == req.session.value.userIdAttribute
  {
    var header := Header(req, "X-User-Id");
    if header.Some? && header.value != "" then header
    else if req.session.Some? then req.session.value.userIdAttribute
    else None
  }

  /** The header "X-API-Key" or, when that is missing or empty, the
      "api_key" parameter; null when neither is non-empty. */
  function ExtractApiKey(req: HttpRequest): (r: Option<string>)
    ensures r.Some? ==> r.value != "" && (r == Header(req, "X-API-Key") || r == Parameter(req, "api_key"))
    ensures Header(req, "X-API-Key").Some? && Header(req, "X-API-Key").value != "" ==> r == Header(req, "X-API-Key")
    ensures r.None? ==>
              && (Header(req, "X-API-Key").None? || Header(req, "X-API-Key").value == "")
              && (Parameter(req, "api_key").None? || Parameter(req, "api_key").value == "")
  {
    var header := Header(req, "X-API-Key");
    if header.Some? && header.value != "" then header
    else
      var param := Parameter(req, "api_key");
      if param.Some? && param.value != "" then param else None
  }

  /** The session id when a session exists, else null. */
  function ExtractSessionId(req: HttpRequest): (r: Option<string>)
    ensures r.Some? <==> req.session.Some?
    ensures r.Some? ==> r.value == req.session.value.id
  {
    match req.session
    case None => None
    case Some(s) => Some(s.id)
  }

  /** The request URI, taken as the endpoint. */
  function ExtractEndpoint(req: HttpRequest): (endpoint: string)
    ensures endpoint == req.requestUri
  {
    req.requestUri
  }

  /** The kinds of identity, in priority order. */
  datatype IdentitySource = UserSource | ApiKeySource | SessionSource | IpSource

  function Rank(src: IdentitySource): nat
  {
    match src
    case UserSource => 0
    case ApiKeySource => 1
    case SessionSource => 2
    case IpSource => 3
  }

  function Tag(src: IdentitySource): string
  {
    match src
    case UserSource => "user:"
    case ApiKeySource => "apikey:"
    case SessionSource => "session:"
    case IpSource => "ip:"
  }

  /** The value a request offers for one kind of identity. */
  function SourceValue(req: HttpRequest, src: IdentitySource): Option<string>
    requires src == IpSource ==> IpHeadersWellFormed(req)
  {
    match src
    case UserSource => ExtractUserId(req)
    case ApiKeySource => ExtractApiKey(req)
    case SessionSource => ExtractSessionId(req)
    case IpSource => Some(ExtractIpAddress(req))
  }

  /** Only the client address is left to identify the request. */
  predicate Anonymous(req: HttpRequest)
  {
    ExtractUserId(req).None? && ExtractApiKey(req).None? && ExtractSessionId(req).None?
  }

  /** `extractPrimaryIdentifier`: the first of user id, API key, session id
      and IP address that the request offers, tagged with its kind. */
  function ExtractPrimaryIdentifier(req: HttpRequest): (id: string)
    requires Anonymous(req) ==> IpHeadersWellFormed(req)
    ensures id != []
    ensures Anonymous(req) <==> "ip:" <= id
  {
    var userId := ExtractUserId(req);
    if userId.Some? then
      assert ("user:" + userId.value)[0] == 'u';
      "user:" + userId.value
    else
      var apiKey := ExtractApiKey(req);
      if apiKey.Some? then
        assert ("apikey:" + apiKey.value)[0] == 'a';
        "apikey:" + apiKey.value
      else
        var sessionId := ExtractSessionId(req);
        if sessionId.Some? then
          assert ("session:" + sessionId.value)[0] == 's';
          "session:" + sessionId.value
        else "ip:" + ExtractIpAddress(req)
  }

  /** Reads the kind and value back from a tagged identifier. */
  function ParseIdentifier(id: string): Option<(IdentitySource, string)>
  {
    if Tag(UserSource) <= id then Some((UserSource, id[|Tag(UserSource)|..]))
    else if Tag(ApiKeySource) <= id then Some((ApiKeySource, id[|Tag(ApiKeySource)|..]))
    else if Tag(SessionSource) <= id then Some((SessionSource, id[|Tag(SessionSource)|..]))
    else if Tag(IpSource) <= id then Some((IpSource, id[|Tag(IpSource)|..]))
    else None
  }

  /** The primary identifier names the highest-priority kind of identity
      the request offers, with that kind's value: it parses back to a kind
      whose value is the payload, and every kind of higher priority is
      absent from the request. */
  lemma PrimaryIdentifierPicksBestSource(req: HttpRequest)
    requires Anonymous(req) ==> IpHeadersWellFormed(req)
    ensures var parsed := ParseIdentifier(ExtractPrimaryIdentifier(req));
            && parsed.Some?
            && (parsed.value.0 == IpSource ==> IpHeadersWellFormed(req))
            && (parsed.value.0 == IpSource || SourceValue(req, parsed.value.0) == Some(parsed.value.1))
            && (parsed.value.0 == IpSource ==> parsed.value.1 == ExtractIpAddress(req))
            && forall other :: Rank(other) < Rank(parsed.value.0) ==> SourceValue(req, other).None?
  {
    var id := ExtractPrimaryIdentifier(req);
    var src: IdentitySource, payload: string;
    if ExtractUserId(req).Some? {
      src, payload := UserSource, ExtractUserId(req).value;
    } else if ExtractApiKey(req).Some? {
      src, payload := ApiKeySource, ExtractApiKey(req).value;
    } else if ExtractSessionId(req).Some? {
      src, payload := SessionSource, ExtractSessionId(req).value;
    } else {
      src, payload := IpSource, ExtractIpAddress(req);
    }
    assert id == Tag(src) + payload;
    assert Tag(src) <= id;
    assert id[|Tag(src)|..] == payload;
    forall other | Rank(other) < Rank(src) && other != src
      ensures !(Tag(other) <= id)
    {
      assert id[0] == Tag(src)[0];
    }
    assert ParseIdentifier(id) == Some((src, payload));
  }
}
