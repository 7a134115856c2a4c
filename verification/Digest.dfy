/**
 The Connection Request check of src/ConnectionRequestServer.cpp. The hash is a
 parameter: nothing here depends on which function it is.
 */
module Digest {
  import opened Wrappers
  import opened Text

  type Hash = string -> string

  const CRLF := "\r\n"

  // ---------------------------------------------------------------------
  // Header lines, src/ConnectionRequestServer.cpp:62-84

  function SkipBlanks(s: string, from: nat, end: nat): (r: nat)
    requires from <= end <= |s|
    ensures from <= r <= end
    decreases end - from
  {
    if from < end && (s[from] == ' ' || s[from] == '\t') then SkipBlanks(s, from + 1, end) else from
  }

  // strcasecmp on the C strings of two texts.
  predicate SameName(a: string, b: string) {
    Lower(CString(a)) == Lower(CString(b))
  }

  // The header's value if the line [start, end) is that header.
  function LineValue(request: string, start: nat, end: nat, name: string): Option<string>
    requires start <= end <= |request|
  {
    match Find(request, ":", start)
    case None => None
    case Some(colon) =>
      if colon < end && SameName(request[start..colon], name) then
        Some(request[SkipBlanks(request, colon + 1, end)..end])
      else None
  }

  function HeaderFrom(request: string, start: nat, name: string): string
    requires start <= |request|
    decreases |request| - start
  {
    if start == |request| then ""
    else
      match Find(request, CRLF, start)
      case None => ""
      case Some(end) =>
        if end == start then ""
        else
          match LineValue(request, start, end, name)
          case Some(value) => value
          case None => HeaderFrom(request, end + 2, name)
  }

  function HeaderValue(request: string, name: string): string {
    match Find(request, CRLF, 0)
    case None => ""
    case Some(first) => HeaderFrom(request, first + 2, name)
  }

  method SkipBlanksLoop(s: string, from: nat, end: nat) returns (i: nat)
    requires from <= end <= |s|
    ensures i == SkipBlanks(s, from, end)
  {
    i := from;
    while i < end && (s[i] == ' ' || s[i] == '\t')
      invariant i <= end && SkipBlanks(s, from, end) == SkipBlanks(s, i, end)
    {
      i := i + 1;
    }
  }

  method HeaderValueLoop(request: string, name: string) returns (value: string)
    ensures value == HeaderValue(request, name)
  {
    hide Find, SameName, SkipBlanks, OccursAt;
    var first := Find(request, CRLF, 0);
    if first.None? {
      return "";
    }
    assert first.value + 2 <= |request| by { FindFits(request, CRLF, 0); }
    var lineStart := first.value + 2;
    while lineStart < |request|
      invariant lineStart <= |request|
      invariant HeaderValue(request, name) == HeaderFrom(request, lineStart, name)
      decreases |request| - lineStart
    {
      var lineEnd := Find(request, CRLF, lineStart);
      if lineEnd.None? || lineEnd.value == lineStart {
        return "";
      }
      assert lineEnd.value + 2 <= |request| by { FindFits(request, CRLF, lineStart); }
      var colon := Find(request, ":", lineStart);
      if colon.Some? && colon.value < lineEnd.value {
        if SameName(request[lineStart..colon.value], name) {
          var valueStart := SkipBlanksLoop(request, colon.value + 1, lineEnd.value);
          return request[valueStart..lineEnd.value];
        }
      }
      lineStart := lineEnd.value + 2;
    }
    return "";
  }

  lemma FindFits(s: string, pattern: string, from: nat)
    ensures Find(s, pattern, from).Some? ==> Find(s, pattern, from).value + |pattern| <= |s|
  {
  }

  // ---------------------------------------------------------------------
  // Credential fields, src/ConnectionRequestServer.cpp:86-98

  function DropBlanks(s: string): string {
    if s != "" && s[|s| - 1] == ' ' then DropBlanks(s[..|s| - 1]) else s
  }

  function UpTo(s: string, from: nat, c: string): string
    requires from <= |s| && c != ""
  {
    match Find(s, c, from)
    case Some(end) => s[from..end]
    case None => s[from..]
  }

  function DigestValue(auth: string, key: string): string {
    match Find(auth, key + "=", 0)
    case None => ""
    case Some(at) =>
      var pos := at + |key| + 1;
      if pos < |auth| && auth[pos] == '\"' then UpTo(auth, pos + 1, "\"") else DropBlanks(UpTo(auth, pos, ","))
  }

  method DigestValueLoop(auth: string, key: string) returns (value: string)
    ensures value == DigestValue(auth, key)
  {
    hide Find, OccursAt;
    FindFits(auth, key + "=", 0);
    var found := Find(auth, key + "=", 0);
    if found.None? {
      return "";
    }
    var pos := found.value + |key| + 1;
    if pos < |auth| && auth[pos] == '\"' {
      pos := pos + 1;
      FindFits(auth, "\"", pos);
      var end := Find(auth, "\"", pos);
      return if end.None? then auth[pos..] else auth[pos..end.value];
    }
    FindFits(auth, ",", pos);
    var end := Find(auth, ",", pos);
    value := if end.None? then auth[pos..] else auth[pos..end.value];
    value := DropBlanksLoop(value);
  }

  method DropBlanksLoop(s: string) returns (value: string)
    ensures value == DropBlanks(s)
  {
    value := s;
    while value != "" && value[|value| - 1] == ' '
      invariant DropBlanks(value) == DropBlanks(s)
      decreases |value|
    {
      value := value[..|value| - 1];
    }
  }

  // ---------------------------------------------------------------------
  // The check, src/ConnectionRequestServer.cpp:100-143

  datatype Server = Server(username: string, password: string, auth: string, realm: string, nonce: string)

  const DIGEST_SCHEME := "Digest "

  function Expected(server: Server, h: Hash, method_: string, username: string, realm: string, nonce: string, uri: string,
                    qop: string, nc: string, cnonce: string): string {
    var ha1 := h(username + ":" + realm + ":" + server.password);
    var ha2 := h(method_ + ":" + uri);
    if qop == "" then h(ha1 + ":" + nonce + ":" + ha2)
    else h(ha1 + ":" + nonce + ":" + nc + ":" + cnonce + ":" + qop + ":" + ha2)
  }

  predicate Authorized(server: Server, h: Hash, request: string, method_: string) {
    Lower(server.auth) == "none" ||
    (var auth := HeaderValue(request, "Authorization");
     |auth| >= |DIGEST_SCHEME| && auth[..|DIGEST_SCHEME|] == DIGEST_SCHEME &&
     (var username := DigestValue(auth, "username");
      var realm := DigestValue(auth, "realm");
      var nonce := DigestValue(auth, "nonce");
      var uri := DigestValue(auth, "uri");
      var response := DigestValue(auth, "response");
      var qop := DigestValue(auth, "qop");
      var nc := DigestValue(auth, "nc");
      var cnonce := DigestValue(auth, "cnonce");
      username == server.username && realm == server.realm && nonce == server.nonce && uri != "" &&
      response == Expected(server, h, method_, username, realm, nonce, uri, qop, nc, cnonce)))
  }

  function Challenge(server: Server): string {
    "HTTP/1.1 401 Unauthorized" + CRLF + ("WWW-Authenticate: " + ChallengeValue(server) + CRLF) +
    "Content-Length: 0" + CRLF + "Connection: close" + CRLF + CRLF
  }

  function ChallengeValue(server: Server): string {
    "Digest realm=\"" + server.realm + "\", nonce=\"" + server.nonce + "\", algorithm=MD5, qop=\"auth\""
  }

  // src/ConnectionRequestServer.cpp:146-155
  function RequestLine(request: string): string {
    match Find(request, CRLF, 0)
    case Some(end) => request[..end]
    case None => request
  }

  function RequestMethod(request: string): string {
    var line := RequestLine(request);
    match Find(line, " ", 0)
    case Some(space) => line[..space]
    case None => ""
  }

  // What serve() makes of a request: bad request, accepted, or challenged.
  datatype Verdict = BadRequest | NoContent | Unauthorized

  function Serve(server: Server, h: Hash, request: string): Verdict {
    var method_ := RequestMethod(request);
    if method_ == "" then BadRequest
    else if Authorized(server, h, request, method_) then NoContent
    else Unauthorized
  }
}
