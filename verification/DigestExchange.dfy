/** The whole Connection Request exchange: challenge, answer, verdict, with MD5 as the hash. */
module DigestExchange {
  import opened Wrappers
  import opened Text
  import opened Digest
  import opened DigestProof
  import opened DigestVerdict
  import Md5

  function Bytes(s: string): seq<Md5.Byte> {
    seq(|s|, i requires 0 <= i < |s| => (s[i] as int % 256) as Md5.Byte)
  }

  function Md5Text(s: string): string {
    Md5.RfcHex(Bytes(s))
  }

  lemma Md5TextIsToken(s: string)
    ensures IsToken(Md5Text(s))
  {
    hide Md5.RfcDigest, Md5.HexState;
    Md5.HexStateReadsBack(Md5.RfcDigest(Bytes(s)));
  }

  // ---------------------------------------------------------------------
  // Requests and their first line.

  datatype Request = Request(
    method_: string,
    target: string,
    before: seq<string>,
    label_: string,
    gap: string,
    after: string)

  function FirstLine(q: Request): string {
    q.method_ + " " + q.target
  }

  function OwnLine(q: Request, credentials: string): string {
    q.label_ + (":" + (q.gap + credentials))
  }

  function RequestText(q: Request, credentials: string): string {
    FirstLine(q) + (CRLF + Lines(q.before, OwnLine(q, credentials) + (CRLF + q.after)))
  }

  // Any request line, any header lines before the credentials, any blanks after the colon, anything after them.
  ghost predicate IsRequest(q: Request) {
    && q.method_ != "" && ' ' !in q.method_ && '\n' !in q.method_ && '\n' !in q.target
    && (forall i :: 0 <= i < |q.before| ==> IsOtherHeader(q.before[i], "Authorization"))
    && IsBlanks(q.gap) && ':' !in q.label_ && '\n' !in q.label_ && SameName(q.label_, "Authorization")
  }

  lemma OneLine(s: string)
    requires '\n' !in s
    ensures Absent(s, CRLF)
  {
    forall i ensures !OccursAt(s, CRLF, i) {
      OccurrenceCharacter(s, CRLF, i, 1);
    }
  }

  // The header block of a message with the given first line.
  lemma HeaderAfterFirstLine(line: string, rest: string, name: string)
    requires '\n' !in line
    ensures HeaderValue(line + (CRLF + rest), name) == HeaderFrom(rest, 0, name)
  {
    hide Find, HeaderFrom, OccursAt;
    OneLine(line);
    LineEnds(line, rest);
    assert line + (CRLF + rest) == (line + CRLF) + rest;
    HeaderShifts(line + CRLF, rest, 0, name);
  }

  lemma MethodIsRead(q: Request, credentials: string)
    requires IsRequest(q)
    ensures RequestMethod(RequestText(q, credentials)) == q.method_
  {
    hide Find, Lines, SameName, IsOtherHeader, OccursAt, OwnLine;
    var rest := Lines(q.before, OwnLine(q, credentials) + (CRLF + q.after));
    OneLine(FirstLine(q));
    LineEnds(FirstLine(q), rest);
    FirstMark(q.method_, q.target, ' ', FirstLine(q));
  }

  lemma BlanksAreOneLine(gap: string)
    requires IsBlanks(gap)
    ensures '\n' !in gap
  {
  }

  lemma CredentialsAreRead(q: Request, credentials: string)
    requires IsRequest(q) && '\n' !in credentials && credentials != "" && credentials[0] == 'D'
    ensures HeaderValue(RequestText(q, credentials), "Authorization") == credentials
  {
    hide Find, Lines, HeaderFrom, HeaderValue, SameName, IsOtherHeader, OccursAt;
    var own := OwnLine(q, credentials) + (CRLF + q.after);
    HeaderAfterFirstLine(FirstLine(q), Lines(q.before, own), "Authorization");
    HeaderAmongLines(q.before, own, "Authorization");
    BlanksAreOneLine(q.gap);
    OneLine(OwnLine(q, credentials));
    HeaderIsTaken(q.label_, q.gap, credentials, q.after, "Authorization");
  }

  // ---------------------------------------------------------------------
  // Requests and their verdict.

  predicate IsOneLineField(f: Field) {
    '\n' !in f.lead && '\n' !in f.key && '\n' !in f.value
  }

  predicate AreOneLine(fs: seq<Field>) {
    forall j :: 0 <= j < |fs| ==> IsOneLineField(fs[j])
  }

  lemma {:induction false} RestIsOneLine(fs: seq<Field>)
    requires AreOneLine(fs)
    ensures '\n' !in Rest(fs)
  {
    if fs != [] {
      FieldIsOneLine(fs[0]);
      RestIsOneLine(fs[1..]);
    }
  }

  lemma FieldIsOneLine(f: Field)
    requires IsOneLineField(f)
    ensures '\n' !in FieldText(f)
  {
  }

  lemma CredentialsAreOneLine(fs: seq<Field>)
    requires fs != [] && AreOneLine(fs)
    ensures '\n' !in Credentials(fs) && Credentials(fs) != "" && Credentials(fs)[0] == 'D'
  {
    hide FieldText, Rest;
    FieldIsOneLine(fs[0]);
    RestIsOneLine(fs[1..]);
  }

  /** Any request with a delimited credential list is answered by what is seen of the list alone. */
  lemma RequestIsJudged(server: Server, q: Request, fs: seq<Field>)
    requires IsRequest(q) && IsList(fs) && AreOneLine(fs) && Lower(server.auth) != "none"
    ensures Serve(server, Md5Text, RequestText(q, Credentials(fs))) ==
            if IsAccepted(server, Md5Text, q.method_, fs) then NoContent else Unauthorized
  {
    hide RequestText, Credentials, Authorized, IsAccepted, HeaderValue, RequestMethod, IsDelimited;
    CredentialsAreOneLine(fs);
    CredentialsAreRead(q, Credentials(fs));
    MethodIsRead(q, Credentials(fs));
    ListIsJudged(server, Md5Text, RequestText(q, Credentials(fs)), q.method_, fs);
  }

  /**
   An answer with its fields in any order and among any others, in every request: 204 exactly when its
   response is the digest from the server's password and nonce stands before cnonce or equals it.
   */
  lemma AnswerIsServed(server: Server, client: Client, response: string, q: Request, fs: seq<Field>)
    requires IsRequest(q) && AreOneLine(fs) && Lower(server.auth) != "none"
    requires IsAnswer(server, client, response, fs)
    requires HidesNoKey(fs, VALUE_KEYS + {"username", "realm", "nonce"})
    ensures fs != [] && Serve(server, Md5Text, RequestText(q, Credentials(fs))) ==
                        if response == WantedResponse(server, Md5Text, q.method_, client) && NonceComesFirst(fs)
                        then NoContent else Unauthorized
  {
    hide RequestText, Serve, IsAccepted, NonceComesFirst, HidesNoKey, IsRequest, Credentials, AreOneLine, WantedResponse;
    RequestIsJudged(server, q, fs);
    AnswerNeedsNonceFirst(server, Md5Text, q.method_, client, response, fs);
  }

  /** A client that has the password and answers by section 3.2.2 of RFC 2617: only the place of nonce is left. */
  lemma RightAnswerIsServed(server: Server, client: Client, q: Request, fs: seq<Field>)
    requires IsRequest(q) && AreOneLine(fs) && Lower(server.auth) != "none"
    requires IsRightAnswer(server, Md5Text, q.method_, client, fs)
    requires HidesNoKey(fs, VALUE_KEYS + {"username", "realm", "nonce"})
    ensures fs != [] && Serve(server, Md5Text, RequestText(q, Credentials(fs))) ==
                        if NonceComesFirst(fs) then NoContent else Unauthorized
  {
    hide RequestText, Serve, NonceComesFirst, HidesNoKey, IsRequest, Credentials, AreOneLine, RightResponse, IsAnswer;
    AnswerIsServed(server, client, RightResponse(server, Md5Text, q.method_, client), q, fs);
  }

  // The fields beside the response hold no equals sign and no line end.
  predicate IsPlainBesideResponse(fs: seq<Field>) {
    forall j :: 0 <= j < |fs| && fs[j].key != "response" ==> '=' !in fs[j].value && IsOneLineField(fs[j])
  }

  lemma ResponseIsToken(server: Server, method_: string, client: Client)
    ensures IsToken(RightResponse(server, Md5Text, method_, client))
  {
    hide Md5Text, IsToken;
    forall s: string ensures IsToken(Md5Text(s)) {
      Md5TextIsToken(s);
    }
  }

  lemma ResponseIsPlain(server: Server, client: Client, q: Request, fs: seq<Field>)
    requires IsRightAnswer(server, Md5Text, q.method_, client, fs) && IsPlainBesideResponse(fs)
    ensures AllPlain(fs) && AreOneLine(fs)
  {
    hide RightResponse, IsToken, IsDelimited, IsSuffix, KeyList;
    var response := RightResponse(server, Md5Text, q.method_, client);
    ResponseIsToken(server, q.method_, client);
    TokenHasNoMarks(response);
    var i: nat :| i < |fs| && IsThe(fs, "response", i) && fs[i].value == response;
    assert HasProperKey(fs[i]);
    BlanksAreOneLine(fs[i].lead);
    forall j: nat | j < |fs| ensures '=' !in fs[j].value && IsOneLineField(fs[j]) {
    }
  }

  /** Values without equals signs, the digest aside, meet every condition: only the place of nonce is left. */
  lemma PlainAnswerIsServed(server: Server, client: Client, q: Request, fs: seq<Field>)
    requires IsRequest(q) && Lower(server.auth) != "none" && IsPlainBesideResponse(fs)
    requires IsRightAnswer(server, Md5Text, q.method_, client, fs)
    ensures fs != [] && Serve(server, Md5Text, RequestText(q, Credentials(fs))) ==
                        if NonceComesFirst(fs) then NoContent else Unauthorized
  {
    hide RequestText, Serve, NonceComesFirst, HidesNoKey, IsRequest, Credentials, AreOneLine, AllPlain, IsRightAnswer;
    ResponseIsPlain(server, client, q, fs);
    PlainAnswerHidesNoKey(fs, VALUE_KEYS + {"username", "realm", "nonce"});
    RightAnswerIsServed(server, client, q, fs);
  }

  // ---------------------------------------------------------------------
  // The challenge tells the client what it needs.

  function ChallengeFields(server: Server): seq<Field> {
    [Field("", "realm", server.realm, true), Field(" ", "nonce", server.nonce, true),
     Field(" ", "algorithm", "MD5", false), Field(" ", "qop", "auth", true)]
  }

  lemma ChallengeIsAList(server: Server)
    ensures ChallengeValue(server) == Credentials(ChallengeFields(server))
  {
    var fs := ChallengeFields(server);
    var last, two, three := [fs[3]], [fs[2], fs[3]], [fs[1], fs[2], fs[3]];
    assert last[1..] == [] && two[1..] == last && three[1..] == two && fs[1..] == three;
    assert Rest([]) == "" && Rest(last) == "," + (FieldText(fs[3]) + "");
    assert Rest(two) == "," + (FieldText(fs[2]) + Rest(last));
    assert Rest(three) == "," + (FieldText(fs[1]) + Rest(two));
    ChallengeText(server.realm, server.nonce);
  }

  lemma ChallengeText(realm: string, nonce: string)
    ensures "Digest realm=\"" + realm + "\", nonce=\"" + nonce + "\", algorithm=MD5, qop=\"auth\"" ==
            "Digest " + ((("" + "realm") + "=" + ("\"" + realm + "\"")) +
            ("," + (((" " + "nonce") + "=" + ("\"" + nonce + "\"")) +
            ("," + (((" " + "algorithm") + "=" + "MD5") + ("," + (((" " + "qop") + "=" + ("\"" + "auth" + "\"")) + "")))))))
  {
    FirstLiterals();
    LastLiteral();
    Join("Digest ", ("" + "realm") + "=", "\"", realm, ",", (" " + "nonce") + "=", nonce,
         ((" " + "algorithm") + "=" + "MD5") + ("," + (((" " + "qop") + "=" + ("\"" + "auth" + "\"")) + "")));
  }

  lemma FirstLiterals()
    ensures "Digest realm=\"" == "Digest " + ((("" + "realm") + "=") + "\"")
    ensures "\", nonce=\"" == "\"" + ("," + (((" " + "nonce") + "=") + "\""))
  {
  }

  lemma LastLiteral()
    ensures "\", algorithm=MD5, qop=\"auth\"" ==
            "\"" + ("," + (((" " + "algorithm") + "=" + "MD5") +
            ("," + (((" " + "qop") + "=" + ("\"" + "auth" + "\"")) + ""))))
  {
  }

  lemma Join(scheme: string, key1: string, quote: string, value1: string, comma: string, key2: string, value2: string,
             rest: string)
    ensures (scheme + (key1 + quote)) + value1 + (quote + (comma + (key2 + quote))) + value2 + (quote + (comma + rest)) ==
            scheme + ((key1 + (quote + value1 + quote)) + (comma + ((key2 + (quote + value2 + quote)) + (comma + rest))))
  {
  }

  // The nonce is a digest, so it is a token (src/ConnectionRequestServer.cpp:25-26).
  ghost predicate IsPlainRealm(server: Server) {
    '\"' !in server.realm && '\n' !in server.realm && IsToken(server.nonce) &&
    Absent(server.realm, Pattern("nonce")) && Absent(server.realm, Pattern("qop"))
  }

  function Challenged(server: Server): string {
    HeaderValue(Challenge(server), "WWW-Authenticate")
  }

  lemma ChallengeIsDelimited(server: Server)
    requires IsPlainRealm(server)
    ensures IsList(ChallengeFields(server)) && AreOneLine(ChallengeFields(server))
  {
    hide IsDelimited, IsOneLineField, IsPlainRealm;
    var fs := ChallengeFields(server);
    RealmAndNonceAreDelimited(server);
    OthersAreDelimited(server);
    assert IsOneLineField(fs[0]) && IsOneLineField(fs[1]) && IsOneLineField(fs[2]) && IsOneLineField(fs[3]);
  }

  lemma RealmAndNonceAreDelimited(server: Server)
    requires IsPlainRealm(server)
    ensures var fs := ChallengeFields(server);
            IsDelimited(fs[0]) && IsOneLineField(fs[0]) && IsDelimited(fs[1]) && IsOneLineField(fs[1])
  {
    hide IsToken, OccursAt;
    TokenHasNoMarks(server.nonce);
  }

  lemma OthersAreDelimited(server: Server)
    ensures var fs := ChallengeFields(server);
            IsDelimited(fs[2]) && IsOneLineField(fs[2]) && IsDelimited(fs[3]) && IsOneLineField(fs[3])
  {
  }

  lemma ChallengeKeys(server: Server)
    ensures var fs := ChallengeFields(server);
            && IsSuffix("realm", Head(fs[0])) && IsSuffix("nonce", Head(fs[1])) && IsSuffix("qop", Head(fs[3]))
            && !IsSuffix("nonce", Head(fs[0])) && !IsSuffix("qop", Head(fs[0])) && !IsSuffix("qop", Head(fs[1]))
            && !IsSuffix("qop", Head(fs[2]))
  {
    SuffixByLast("nonce", "" + "realm");
    SuffixByLast("qop", "" + "realm");
    SuffixByLast("qop", " " + "nonce");
    SuffixByLast("qop", " " + "algorithm");
  }

  lemma ChallengeIsRead(server: Server)
    requires IsPlainRealm(server)
    ensures DigestValue(ChallengeValue(server), "realm") == server.realm
    ensures DigestValue(ChallengeValue(server), "nonce") == server.nonce
    ensures DigestValue(ChallengeValue(server), "qop") == QOP
  {
    hide OccursAt, IsKeyName, DigestValue, IsToken, ChallengeValue, IsSuffix, Credentials, IsList, Head, Seen, Find;
    var fs := ChallengeFields(server);
    KeysAreNames();
    ChallengeIsAList(server);
    ChallengeIsDelimited(server);
    ChallengeKeys(server);
    TokenHasNoMarks(server.nonce);
    ListIsRead(fs, "realm");
    ListIsRead(fs, "nonce");
    ListIsRead(fs, "qop");
    NoEqualsSign(server.nonce, "qop");
    NoEqualsSign("MD5", "qop");
    ClearUpTo(fs, "realm", 0);
    ClearUpTo(fs, "nonce", 1);
    ClearUpTo(fs, "qop", 3);
    UndisturbedIsClaimed(fs, "realm");
    UndisturbedIsClaimed(fs, "nonce");
    UndisturbedIsClaimed(fs, "qop");
    ClaimedAt(fs, "realm", 0);
    ClaimedAt(fs, "nonce", 1);
    ClaimedAt(fs, "qop", 3);
  }

  function HeaderLine(name: string, value: string): string {
    name + (":" + (" " + value))
  }

  lemma ChallengeIsNested(value: string)
    ensures "HTTP/1.1 401 Unauthorized" + CRLF + ("WWW-Authenticate: " + value + CRLF) + "Content-Length: 0" + CRLF +
            "Connection: close" + CRLF + CRLF ==
            "HTTP/1.1 401 Unauthorized" + (CRLF + (HeaderLine("WWW-Authenticate", value) +
            (CRLF + (HeaderLine("Content-Length", "0") + (CRLF + (HeaderLine("Connection", "close") + (CRLF + CRLF)))))))
  {
    hide HeaderLine;
    ShortLines();
    var a, b, c := "HTTP/1.1 401 Unauthorized", "Content-Length: 0", "Connection: close";
    Nested(a, CRLF, HeaderLine("WWW-Authenticate", value), b, c);
    assert "WWW-Authenticate: " + value == HeaderLine("WWW-Authenticate", value) by { OwnHeaderLine(value); }
  }

  lemma OwnHeaderLine(value: string)
    ensures "WWW-Authenticate: " + value == HeaderLine("WWW-Authenticate", value)
  {
    assert "WWW-Authenticate: " == "WWW-Authenticate" + (":" + " ");
  }

  lemma ShortLines()
    ensures "Content-Length: 0" == HeaderLine("Content-Length", "0") && "Connection: close" == HeaderLine("Connection", "close")
  {
  }

  lemma Nested(a: string, e: string, own: string, b: string, c: string)
    ensures a + e + (own + e) + b + e + c + e + e == a + (e + (own + (e + (b + (e + (c + (e + e)))))))
  {
  }

  lemma OtherName(name: string, value: string, other: string)
    requires NUL !in name && NUL !in other && |name| != |other|
    requires ':' !in name && '\n' !in name && '\n' !in value && name != ""
    ensures IsOtherHeader(HeaderLine(name, value), other)
  {
    hide Find, OccursAt, Lower, CString;
    var line := HeaderLine(name, value);
    OneLine(line);
    FirstMark(name, " " + value, ':', line);
    assert line[..|name|] == name;
  }

  lemma HeaderNames()
    ensures NUL !in "WWW-Authenticate" && NUL !in "Content-Length" && NUL !in "Connection"
    ensures ':' !in "WWW-Authenticate" && ':' !in "Content-Length" && ':' !in "Connection"
  {
  }

  lemma HeaderLinesAreOne()
    ensures '\n' !in "WWW-Authenticate" && '\n' !in "Content-Length" && '\n' !in "Connection" && '\n' !in "close"
  {
  }

  lemma ChallengeHeaderIsRead(server: Server)
    requires IsPlainRealm(server)
    ensures Challenged(server) == ChallengeValue(server)
  {
    hide HeaderFrom, HeaderValue, HeaderLine, ChallengeValue, IsPlainRealm;
    var value := ChallengeValue(server);
    var rest := HeaderLine("Content-Length", "0") + (CRLF + (HeaderLine("Connection", "close") + (CRLF + CRLF)));
    ChallengeIsNested(value);
    ChallengeIsOneLine(server);
    HeaderNames();
    HeaderLinesAreOne();
    HeaderAfterFirstLine("HTTP/1.1 401 Unauthorized", HeaderLine("WWW-Authenticate", value) + (CRLF + rest),
                         "WWW-Authenticate");
    HeaderLineIsTaken("WWW-Authenticate", value, rest);
  }

  /** The challenge is a 401 without a body, after which the connection is closed. */
  lemma ChallengeIsComplete(server: Server)
    requires IsPlainRealm(server)
    ensures RequestLine(Challenge(server)) == "HTTP/1.1 401 Unauthorized"
    ensures HeaderValue(Challenge(server), "Content-Length") == "0"
    ensures HeaderValue(Challenge(server), "Connection") == "close"
  {
    hide HeaderFrom, HeaderValue, HeaderLine, ChallengeValue, Find, OccursAt, Lower, CString, IsOtherHeader, IsPlainRealm;
    var status := "HTTP/1.1 401 Unauthorized";
    var own, length := HeaderLine("WWW-Authenticate", ChallengeValue(server)), HeaderLine("Content-Length", "0");
    var last := HeaderLine("Connection", "close") + (CRLF + CRLF);
    ChallengeIsNested(ChallengeValue(server));
    ChallengeIsOneLine(server);
    HeaderNames();
    HeaderLinesAreOne();
    assert Challenge(server) == status + (CRLF + (own + (CRLF + (length + (CRLF + last)))));
    OneLine(status);
    LineEnds(status, own + (CRLF + (length + (CRLF + last))));
    OtherName("WWW-Authenticate", ChallengeValue(server), "Content-Length");
    OtherName("WWW-Authenticate", ChallengeValue(server), "Connection");
    OtherName("Content-Length", "0", "Connection");
    HeaderAfterFirstLine(status, own + (CRLF + (length + (CRLF + last))), "Content-Length");
    HeaderAfterFirstLine(status, own + (CRLF + (length + (CRLF + last))), "Connection");
    LineIsPassed(own, length + (CRLF + last), "Content-Length");
    LineIsPassed(own, length + (CRLF + last), "Connection");
    LineIsPassed(length, last, "Connection");
    HeaderLineIsTaken("Content-Length", "0", last);
    HeaderLineIsTaken("Connection", "close", CRLF);
  }

  lemma LineIsPassed(line: string, rest: string, name: string)
    requires IsOtherHeader(line, name)
    ensures HeaderFrom(line + (CRLF + rest), 0, name) == HeaderFrom(rest, 0, name)
  {
    hide HeaderFrom, IsOtherHeader;
    assert [line][1..] == [];
    HeaderAmongLines([line], rest, name);
  }

  lemma HeaderLineIsTaken(name: string, value: string, rest: string)
    requires ':' !in name && '\n' !in name && '\n' !in value && value != "" && value[0] != ' ' && value[0] != '\t'
    ensures HeaderFrom(HeaderLine(name, value) + (CRLF + rest), 0, name) == value
  {
    hide HeaderFrom, OccursAt, Lower, CString;
    OneLine(HeaderLine(name, value));
    HeaderIsTaken(name, " ", value, rest, name);
  }

  lemma ChallengeIsOneLine(server: Server)
    requires IsPlainRealm(server)
    ensures '\n' !in ChallengeValue(server) && ChallengeValue(server) != "" && ChallengeValue(server)[0] == 'D'
  {
    hide OccursAt, Credentials, ChallengeFields, IsDelimited, AreOneLine, ChallengeValue;
    ChallengeIsAList(server);
    ChallengeIsDelimited(server);
    CredentialsAreOneLine(ChallengeFields(server));
  }

  /** And so is a client that knows the password and takes realm and nonce from the challenge. */
  lemma ChallengedClientIsServed(server: Server, client: Client, q: Request, fs: seq<Field>)
    requires IsRequest(q) && AreOneLine(fs) && Lower(server.auth) != "none" && IsPlainRealm(server)
    requires var told := server.(realm := DigestValue(Challenged(server), "realm"),
                                 nonce := DigestValue(Challenged(server), "nonce"));
             IsRightAnswer(told, Md5Text, q.method_, client, fs)
    requires HidesNoKey(fs, VALUE_KEYS + {"username", "realm", "nonce"})
    ensures DigestValue(Challenged(server), "qop") == QOP
    ensures fs != [] && Serve(server, Md5Text, RequestText(q, Credentials(fs))) ==
                        if NonceComesFirst(fs) then NoContent else Unauthorized
  {
    hide RequestText, Serve, NonceComesFirst, IsRightAnswer, HeaderValue, DigestValue, ChallengeValue, Challenged,
         HidesNoKey, IsRequest, Credentials, AreOneLine;
    ChallengeHeaderIsRead(server);
    ChallengeIsRead(server);
    RightAnswerIsServed(server, client, q, fs);
  }

  predicate IsOneLineExchange(server: Server, client: Client) {
    '\n' !in server.username && '\n' !in server.realm && '\n' !in server.nonce && '\n' !in client.uri &&
    (client.useQop ==> '\n' !in client.cnonce)
  }

  lemma UsualAnswerIsOneLine(server: Server, client: Client, response: string)
    requires IsOneLineExchange(server, client) && IsPresentable(server, client) && IsToken(response)
    ensures AreOneLine(UsualAnswer(server, client, response))
  {
    hide IsToken, KeyList;
    var fs := UsualAnswer(server, client, response);
    UsualKeys(server, client, response);
    TokenHasNoMarks(response);
    if client.useQop {
      TokenHasNoMarks(client.nc);
    }
    forall j: nat | j < |fs| ensures IsOneLineField(fs[j]) {
      KeyIsOneLine(j);
    }
  }

  lemma KeyIsOneLine(j: nat)
    requires j < 8
    ensures '\n' !in KeyList()[j]
  {
    KeysAreNames();
  }

  /**
   The usual answer, in every request, whenever name, realm, nonce, uri, nc and cnonce can be written
   down and none of them holds a later key with an equals sign: only the wanted response gets 204.
   */
  lemma UsualAnswerIsServed(server: Server, client: Client, response: string, q: Request)
    requires IsPresentable(server, client) && HoldsNoLaterKey(server, client) && IsOneLineExchange(server, client)
    requires IsRequest(q) && client.uri != "" && Lower(server.auth) != "none" && IsToken(response)
    ensures var fs := UsualAnswer(server, client, response);
            fs != [] && Serve(server, Md5Text, RequestText(q, Credentials(fs))) ==
                        if response == WantedResponse(server, Md5Text, q.method_, client) then NoContent else Unauthorized
  {
    hide RequestText, Serve, NonceComesFirst, IsAnswer, HidesNoKey, IsRequest, Credentials, AreOneLine, UsualAnswer,
         WantedResponse, HoldsNoLaterKey, IsPresentable, IsToken;
    UsualAnswerIsAnswer(server, client, response);
    UsualAnswerHidesNoKey(server, client, response);
    UsualAnswerIsOneLine(server, client, response);
    AnswerIsServed(server, client, response, q, UsualAnswer(server, client, response));
  }

  /** The usual answer with the digest from the client's password: served whenever that is the server's password. */
  lemma UsualClientIsServed(server: Server, client: Client, q: Request)
    requires IsPresentable(server, client) && HoldsNoLaterKey(server, client) && IsOneLineExchange(server, client)
    requires IsRequest(q) && client.uri != "" && Lower(server.auth) != "none" && client.password == server.password
    ensures var fs := UsualAnswer(server, client, RightResponse(server, Md5Text, q.method_, client));
            fs != [] && Serve(server, Md5Text, RequestText(q, Credentials(fs))) == NoContent
  {
    hide RequestText, Serve, IsRequest, Credentials, UsualAnswer, RightResponse, HoldsNoLaterKey, IsPresentable, IsToken,
         IsOneLineExchange;
    ResponseIsToken(server, q.method_, client);
    UsualAnswerIsServed(server, client, RightResponse(server, Md5Text, q.method_, client), q);
  }

  // ---------------------------------------------------------------------
  // Requests that are not judged by their credentials.

  /** A request is bad exactly when no method stands before a space in its first line. */
  lemma NoMethodIsBadRequest(server: Server, h: Hash, line: string, rest: string)
    requires '\n' !in line
    ensures Serve(server, h, line + ("\r\n" + rest)) == BadRequest <==> ' ' !in line || line[0] == ' '
  {
    hide Find, Authorized, OccursAt;
    OneLine(line);
    LineEnds(line, rest);
    var space := Find(line, " ", 0);
    if space.None? {
      forall i | 0 <= i < |line| ensures line[i] != ' ' {
        assert !OccursAt(line, " ", i);
        SpaceOccurs(line, i);
      }
    } else {
      FindFits(line, " ", 0);
      SpaceOccurs(line, space.value);
      if ' ' in line && line[0] == ' ' {
        SpaceOccurs(line, 0);
      }
    }
  }

  lemma SpaceOccurs(s: string, i: nat)
    requires i < |s|
    ensures OccursAt(s, " ", i) <==> s[i] == ' '
  {
    assert s[i..i + 1] == [s[i]];
  }

  /** With authentication off, every other request is taken. */
  lemma NoAuthenticationTakesAll(server: Server, h: Hash, request: string)
    requires Lower(server.auth) == "none" && Serve(server, h, request) != BadRequest
    ensures Serve(server, h, request) == NoContent
  {
    hide RequestMethod;
  }
}
