/**
 Which credentials are accepted. The fields of section 3.2.2 of RFC 2617 may come in any
 order, among others and with blanks before them, but scheme and field names must be
 written as the program writes them.
 */
module DigestVerdict {
  import opened Wrappers
  import opened Text
  import opened Digest
  import opened DigestProof
  import opened Rfc2617

  // ---------------------------------------------------------------------
  // The verdict on any list.

  // What the check makes of the eight values it sees.
  predicate IsAccepted(server: Server, h: Hash, method_: string, fs: seq<Field>) {
    && Seen(fs, "username") == server.username
    && Seen(fs, "realm") == server.realm
    && Seen(fs, "nonce") == server.nonce
    && Seen(fs, "uri") != ""
    && Seen(fs, "response") == RequestDigest(h, A1(server.username, server.realm, server.password),
                                             A2(method_, Seen(fs, "uri")), server.nonce, SeenProtection(fs))
  }

  function SeenProtection(fs: seq<Field>): Option<Protection> {
    if Seen(fs, "qop") == "" then None else Some(Protection(Seen(fs, "qop"), Seen(fs, "nc"), Seen(fs, "cnonce")))
  }

  // The program's digest is the one of RFC 2617, a missing qop being an empty one.
  lemma ExpectedIsRequestDigest(server: Server, h: Hash, method_: string, username: string, realm: string, nonce: string,
                                uri: string, qop: string, nc: string, cnonce: string)
    ensures Expected(server, h, method_, username, realm, nonce, uri, qop, nc, cnonce) ==
            RequestDigest(h, A1(username, realm, server.password), A2(method_, uri), nonce,
                          if qop == "" then None else Some(Protection(qop, nc, cnonce)))
  {
    assert username + ":" + realm + ":" + server.password == A1(username, realm, server.password);
    assert method_ + ":" + uri == A2(method_, uri);
    ThreeJoined(h(A1(username, realm, server.password)), nonce, h(A2(method_, uri)));
    SixJoined(h(A1(username, realm, server.password)), nonce, nc, cnonce, qop, h(A2(method_, uri)));
  }

  lemma ThreeJoined(a: string, b: string, c: string)
    ensures a + ":" + b + ":" + c == Joined(a, Joined(b, c))
  {
  }

  lemma SixJoined(a: string, b: string, c: string, d: string, e: string, f: string)
    ensures a + ":" + b + ":" + c + ":" + d + ":" + e + ":" + f ==
            Joined(a, Joined(b, Joined(c, Joined(d, Joined(e, f)))))
  {
  }

  lemma CredentialsStartWithScheme(fs: seq<Field>)
    requires fs != []
    ensures |Credentials(fs)| >= |DIGEST_SCHEME| && Credentials(fs)[..|DIGEST_SCHEME|] == DIGEST_SCHEME
  {
  }

  lemma KeysAreNames()
    ensures IsKeyName("username") && IsKeyName("realm") && IsKeyName("nonce") && IsKeyName("uri")
    ensures IsKeyName("response") && IsKeyName("qop") && IsKeyName("nc") && IsKeyName("cnonce")
  {
  }

  /** Any delimited credential list, in any order and with any values, is judged by what is seen of it. */
  lemma ListIsJudged(server: Server, h: Hash, request: string, method_: string, fs: seq<Field>)
    requires IsList(fs) && HeaderValue(request, "Authorization") == Credentials(fs)
    ensures Authorized(server, h, request, method_) <==>
            Lower(server.auth) == "none" || IsAccepted(server, h, method_, fs)
  {
    hide DigestValue, HeaderValue, Credentials, Lower, Seen, IsKeyName, Expected, RequestDigest, A1, A2;
    ExpectedIsRequestDigest(server, h, method_, server.username, server.realm, server.nonce,
                            Seen(fs, "uri"), Seen(fs, "qop"), Seen(fs, "nc"), Seen(fs, "cnonce"));
    CredentialsStartWithScheme(fs);
    KeysAreNames();
    ListIsRead(fs, "username");
    ListIsRead(fs, "realm");
    ListIsRead(fs, "nonce");
    ListIsRead(fs, "uri");
    ListIsRead(fs, "response");
    ListIsRead(fs, "qop");
    ListIsRead(fs, "nc");
    ListIsRead(fs, "cnonce");
  }

  /** The scheme is matched letter by letter: what RFC 2617 takes for the same scheme is refused. */
  lemma OtherSpellingIsRefused(server: Server, h: Hash, request: string, method_: string, scheme: string, rest: string)
    requires |scheme| == |DIGEST_SCHEME| && Lower(scheme) == Lower(DIGEST_SCHEME) && scheme != DIGEST_SCHEME
    requires HeaderValue(request, "Authorization") == scheme + rest && Lower(server.auth) != "none"
    ensures !Authorized(server, h, request, method_)
  {
    hide HeaderValue, DigestValue, Lower, Expected;
    assert (scheme + rest)[..|scheme|] == scheme;
  }

  // ---------------------------------------------------------------------
  // Right answers.

  function KeyList(): (keys: seq<string>)
    ensures |keys| == 8
  {
    ["username", "realm", "nonce", "uri", "response", "qop", "nc", "cnonce"]
  }

  // Only blanks before the key, and no other key ends in one of the eight, which themselves overlap once.
  predicate HasProperKey(f: Field) {
    IsBlanks(f.lead) &&
    forall i :: 0 <= i < 8 && IsSuffix(KeyList()[i], f.key) ==> f.key == KeyList()[i] || (i == 2 && f.key == "cnonce")
  }

  predicate HasProperKeys(fs: seq<Field>) {
    forall j :: 0 <= j < |fs| ==> HasProperKey(fs[j])
  }

  predicate IsThe(fs: seq<Field>, key: string, i: nat) {
    i < |fs| && fs[i].key == key && forall j :: 0 <= j < |fs| && j != i ==> fs[j].key != key
  }

  // The key stands once, with this value.
  predicate HoldsOnce(fs: seq<Field>, key: string, value: string) {
    exists i :: 0 <= i < |fs| && IsThe(fs, key, i) && fs[i].value == value
  }

  predicate HoldsNo(fs: seq<Field>, key: string) {
    forall j :: 0 <= j < |fs| ==> fs[j].key != key
  }

  datatype Client = Client(password: string, uri: string, useQop: bool, nc: string, cnonce: string)

  const QOP := "auth"

  // The digest of section 3.2.2 of RFC 2617, from the client's own password.
  function RightResponse(server: Server, h: Hash, method_: string, client: Client): string {
    RequestDigest(h, A1(server.username, server.realm, client.password), A2(method_, client.uri), server.nonce,
                  if client.useQop then Some(Protection(QOP, client.nc, client.cnonce)) else None)
  }

  // What the server takes for right: the digest from its own password.
  function WantedResponse(server: Server, h: Hash, method_: string, client: Client): string {
    RightResponse(server, h, method_, client.(password := server.password))
  }

  /**
   An answer with each field that section 3.2.2 asks for once, in any order, among any other
   fields, and with any text at all for the response.
   */
  predicate IsAnswer(server: Server, client: Client, response: string, fs: seq<Field>) {
    && IsList(fs) && HasProperKeys(fs) && client.uri != ""
    && HoldsOnce(fs, "username", server.username) && HoldsOnce(fs, "realm", server.realm)
    && HoldsOnce(fs, "nonce", server.nonce) && HoldsOnce(fs, "uri", client.uri)
    && HoldsOnce(fs, "response", response)
    && if client.useQop then
         HoldsOnce(fs, "qop", QOP) && HoldsOnce(fs, "nc", client.nc) && HoldsOnce(fs, "cnonce", client.cnonce)
       else HoldsNo(fs, "qop") && HoldsNo(fs, "nc") && HoldsNo(fs, "cnonce")
  }

  // The answer of a client that has the server's password and computes the digest from it.
  predicate IsRightAnswer(server: Server, h: Hash, method_: string, client: Client, fs: seq<Field>) {
    client.password == server.password && IsAnswer(server, client, RightResponse(server, h, method_, client), fs)
  }

  // The value of the first field whose key ends in the given one.
  function Claimed(fs: seq<Field>, key: string): string {
    if fs == [] then "" else if IsSuffix(key, Head(fs[0])) then fs[0].value else Claimed(fs[1..], key)
  }

  // No value before that field contains the key and an equals sign.
  ghost predicate Undisturbed(fs: seq<Field>, key: string) {
    fs == [] || IsSuffix(key, Head(fs[0])) || (Absent(fs[0].value, Pattern(key)) && Undisturbed(fs[1..], key))
  }

  lemma {:induction false} UndisturbedIsClaimed(fs: seq<Field>, key: string)
    requires Undisturbed(fs, key)
    ensures Seen(fs, key) == Claimed(fs, key)
  {
    hide OccursAt, IsSuffix, Head, Leak, Find;
    if fs != [] && !IsSuffix(key, Head(fs[0])) {
      NothingFound(fs[0].value, Pattern(key));
      UndisturbedIsClaimed(fs[1..], key);
    }
  }

  lemma LeadIsNoKey(f: Field, key: string)
    requires IsKeyName(key) && IsBlanks(f.lead)
    ensures IsSuffix(key, Head(f)) <==> IsSuffix(key, f.key)
  {
    hide IsSuffix;
    if f.lead == "" {
      assert f.lead + f.key == f.key;
    } else {
      assert f.lead[|f.lead| - 1] !in key;
      SuffixStays(f.lead, key, f.key);
    }
  }

  lemma OwnSuffix(key: string)
    ensures IsSuffix(key, key)
  {
  }

  lemma {:induction false} ClaimedAt(fs: seq<Field>, key: string, i: nat)
    requires i < |fs| && IsSuffix(key, Head(fs[i])) && forall j :: 0 <= j < i ==> !IsSuffix(key, Head(fs[j]))
    ensures Claimed(fs, key) == fs[i].value
  {
    hide IsSuffix, Head;
    if i > 0 {
      ClaimedAt(fs[1..], key, i - 1);
    }
  }

  lemma {:induction false} NothingClaimed(fs: seq<Field>, key: string)
    requires forall j :: 0 <= j < |fs| ==> !IsSuffix(key, Head(fs[j]))
    ensures Claimed(fs, key) == ""
  {
    hide IsSuffix, Head;
    if fs != [] {
      NothingClaimed(fs[1..], key);
    }
  }

  lemma KeyEnds(fs: seq<Field>, j: nat, i: nat)
    requires HasProperKeys(fs) && j < |fs| && i < 8
    ensures IsSuffix(KeyList()[i], Head(fs[j])) <==>
            fs[j].key == KeyList()[i] || (i == 2 && fs[j].key == "cnonce")
  {
    hide IsSuffix, IsKeyName, Head;
    KeysAreNames();
    assert HasProperKey(fs[j]);
    LeadIsNoKey(fs[j], KeyList()[i]);
    OwnSuffix(KeyList()[i]);
    assert IsSuffix("nonce", "cnonce") by { NonceEndsCnonce(); }
  }

  lemma NonceEndsCnonce()
    ensures IsSuffix("nonce", "cnonce")
  {
    assert "cnonce"[1..] == "nonce";
  }

  lemma HeldIsClaimed(fs: seq<Field>, i: nat, value: string)
    requires HasProperKeys(fs) && i < 8 && i != 2
    ensures HoldsOnce(fs, KeyList()[i], value) ==> Claimed(fs, KeyList()[i]) == value
    ensures HoldsNo(fs, KeyList()[i]) ==> Claimed(fs, KeyList()[i]) == ""
  {
    hide IsSuffix, Head, HasProperKeys;
    var key := KeyList()[i];
    forall j | 0 <= j < |fs| ensures IsSuffix(key, Head(fs[j])) <==> fs[j].key == key {
      KeyEnds(fs, j, i);
    }
    if HoldsOnce(fs, key, value) {
      var at :| 0 <= at < |fs| && IsThe(fs, key, at) && fs[at].value == value;
      ClaimedAt(fs, key, at);
    } else if HoldsNo(fs, key) {
      NothingClaimed(fs, key);
    }
  }

  // Either nonce stands before cnonce, or they are the same.
  predicate NonceComesFirst(fs: seq<Field>) {
    forall i, j :: 0 <= i < |fs| && 0 <= j < |fs| && fs[i].key == "cnonce" && fs[j].key == "nonce" ==>
      j < i || fs[i].value == fs[j].value
  }

  predicate HoldsAtMostOnce(fs: seq<Field>, key: string) {
    forall i, j :: 0 <= i < |fs| && 0 <= j < |fs| && fs[i].key == key && fs[j].key == key ==> i == j
  }

  lemma NonceIsClaimed(fs: seq<Field>, nonce: string)
    requires HasProperKeys(fs) && HoldsOnce(fs, "nonce", nonce) && HoldsAtMostOnce(fs, "cnonce")
    ensures Claimed(fs, "nonce") == nonce <==> NonceComesFirst(fs)
  {
    hide IsSuffix, Head, HasProperKeys;
    forall j | 0 <= j < |fs| ensures IsSuffix("nonce", Head(fs[j])) <==> fs[j].key == "nonce" || fs[j].key == "cnonce" {
      KeyEnds(fs, j, 2);
    }
    var n :| 0 <= n < |fs| && IsThe(fs, "nonce", n) && fs[n].value == nonce;
    if c :| 0 <= c < n && fs[c].key == "cnonce" {
      ClaimedAt(fs, "nonce", c);
    } else {
      ClaimedAt(fs, "nonce", n);
    }
  }

  // Values that hide no key: before the field that is meant, none contains it with an equals sign.
  ghost predicate HidesNoKey(fs: seq<Field>, keys: set<string>) {
    forall k :: k in keys ==> Undisturbed(fs, k)
  }

  const VALUE_KEYS: set<string> := {"uri", "response", "qop", "nc", "cnonce"}

  lemma ValuesAreSeen(server: Server, client: Client, response: string, fs: seq<Field>)
    requires IsAnswer(server, client, response, fs) && HidesNoKey(fs, VALUE_KEYS)
    ensures Seen(fs, "uri") == client.uri && Seen(fs, "response") == response
    ensures Seen(fs, "qop") == if client.useQop then QOP else ""
    ensures client.useQop ==> Seen(fs, "nc") == client.nc && Seen(fs, "cnonce") == client.cnonce
  {
    hide Undisturbed, Claimed, Seen, HasProperKeys, HoldsOnce, HoldsNo;
    UndisturbedIsClaimed(fs, "uri");
    UndisturbedIsClaimed(fs, "response");
    UndisturbedIsClaimed(fs, "qop");
    UndisturbedIsClaimed(fs, "nc");
    UndisturbedIsClaimed(fs, "cnonce");
    HeldIsClaimed(fs, 3, client.uri);
    HeldIsClaimed(fs, 4, response);
    HeldIsClaimed(fs, 5, QOP);
    HeldIsClaimed(fs, 6, client.nc);
    HeldIsClaimed(fs, 7, client.cnonce);
  }

  /** An answer is accepted exactly when its response is the wanted one and name, realm and nonce are seen as they are. */
  lemma AnswerNeedsFour(server: Server, h: Hash, method_: string, client: Client, response: string, fs: seq<Field>)
    requires IsAnswer(server, client, response, fs) && HidesNoKey(fs, VALUE_KEYS)
    ensures IsAccepted(server, h, method_, fs) <==>
            response == WantedResponse(server, h, method_, client) &&
            Seen(fs, "username") == server.username && Seen(fs, "realm") == server.realm && Seen(fs, "nonce") == server.nonce
  {
    hide Undisturbed, Seen, HasProperKeys, HoldsOnce, HoldsNo, HidesNoKey, IsList, RequestDigest, A1, A2;
    ValuesAreSeen(server, client, response, fs);
  }

  /** A right answer is accepted exactly when name, realm and nonce are seen as they are. */
  lemma RightAnswerNeedsThree(server: Server, h: Hash, method_: string, client: Client, fs: seq<Field>)
    requires IsRightAnswer(server, h, method_, client, fs) && HidesNoKey(fs, VALUE_KEYS)
    ensures IsAccepted(server, h, method_, fs) <==>
            Seen(fs, "username") == server.username && Seen(fs, "realm") == server.realm && Seen(fs, "nonce") == server.nonce
  {
    hide Seen, HidesNoKey, IsAnswer, IsAccepted, RightResponse;
    AnswerNeedsFour(server, h, method_, client, RightResponse(server, h, method_, client), fs);
  }

  /**
   When no value hides a key, an answer is accepted exactly when its response is the wanted one and
   nonce stands before cnonce or equals it.
   */
  lemma AnswerNeedsNonceFirst(server: Server, h: Hash, method_: string, client: Client, response: string, fs: seq<Field>)
    requires IsAnswer(server, client, response, fs)
    requires HidesNoKey(fs, VALUE_KEYS + {"username", "realm", "nonce"})
    ensures IsAccepted(server, h, method_, fs) <==>
            response == WantedResponse(server, h, method_, client) && NonceComesFirst(fs)
  {
    hide Undisturbed, Seen, Claimed, HasProperKeys, WantedResponse, IsAccepted;
    AnswerNeedsFour(server, h, method_, client, response, fs);
    UndisturbedIsClaimed(fs, "username");
    UndisturbedIsClaimed(fs, "realm");
    UndisturbedIsClaimed(fs, "nonce");
    HeldIsClaimed(fs, 0, server.username);
    HeldIsClaimed(fs, 1, server.realm);
    CnonceIsHeldAtMostOnce(server, client, response, fs);
    NonceIsClaimed(fs, server.nonce);
  }

  /** A right answer is accepted exactly when nonce stands before cnonce or equals it. */
  lemma RightAnswerNeedsNonceFirst(server: Server, h: Hash, method_: string, client: Client, fs: seq<Field>)
    requires IsRightAnswer(server, h, method_, client, fs)
    requires HidesNoKey(fs, VALUE_KEYS + {"username", "realm", "nonce"})
    ensures IsAccepted(server, h, method_, fs) <==> NonceComesFirst(fs)
  {
    hide HidesNoKey, IsAnswer, IsAccepted, RightResponse, NonceComesFirst;
    AnswerNeedsNonceFirst(server, h, method_, client, RightResponse(server, h, method_, client), fs);
  }

  lemma CnonceIsHeldAtMostOnce(server: Server, client: Client, response: string, fs: seq<Field>)
    requires IsAnswer(server, client, response, fs)
    ensures HoldsAtMostOnce(fs, "cnonce")
  {
    hide IsList, HasProperKeys;
  }

  // ---------------------------------------------------------------------
  // Names and realms that hide keys.

  // The lookup finds the value although an earlier quoted text may hold the key: there is no
  // occurrence, or what stands between the first one and the next comma is the value itself.
  predicate SurvivesIn(text: string, key: string, value: string) {
    match Find(text, Pattern(key), 0)
    case None => true
    case Some(at) =>
      FindFits(text, Pattern(key), 0);
      var after := text[at + |key| + 1..];
      match Find(after, ",", 0)
      case None => false
      case Some(comma) => DropBlanks(after[..comma]) == value
  }

  // A value that is no lump of list syntax.
  predicate IsCompact(value: string) {
    '\"' !in value && (value != "" ==> value[0] != ',')
  }

  lemma LeakIsNoRest(f: Field, from: nat, rest: string, value: string)
    requires from <= |f.value| && f.quoted && IsCompact(value) && rest != "" && rest[0] == ','
    ensures Leak(f, from, rest) == value <==>
            var after := f.value[from..];
            Find(after, ",", 0).Some? && DropBlanks(after[..Find(after, ",", 0).value]) == value
  {
    hide Find, OccursAt, DropBlanks;
    var after := f.value[from..];
    if after == "" {
      NothingFound("", ",");
      assert Absent("", ",") by { EmptyHoldsNothing(","); }
      StartsWithComma(rest);
    } else if Find(after, ",", 0).None? {
      assert (after + "\"")[|after|] == '\"';
    }
  }

  lemma EmptyHoldsNothing(pattern: string)
    requires pattern != ""
    ensures Absent("", pattern)
  {
  }

  lemma StartsWithComma(rest: string)
    requires rest != "" && rest[0] == ','
    ensures UpTo(rest, 0, "\"") != "" && UpTo(rest, 0, "\"")[0] == ','
  {
    hide Find;
    assert rest[0..1] == ",";
    assert !OccursAt(rest, "\"", 0);
  }

  lemma SeenPastQuoted(fs: seq<Field>, key: string, value: string)
    requires |fs| > 1 && fs[0].quoted && !IsSuffix(key, Head(fs[0])) && IsCompact(value)
    ensures Find(fs[0].value, Pattern(key), 0).None? ==> Seen(fs, key) == Seen(fs[1..], key)
    ensures Find(fs[0].value, Pattern(key), 0).Some? ==>
              (Seen(fs, key) == value <==> SurvivesIn(fs[0].value, key, value))
  {
    hide Find, OccursAt, IsSuffix, Head, Leak, FieldText;
    if Find(fs[0].value, Pattern(key), 0).Some? {
      FindFits(fs[0].value, Pattern(key), 0);
      var at := Find(fs[0].value, Pattern(key), 0).value;
      LeakIsNoRest(fs[0], at + |key| + 1, Rest(fs[1..]), value);
    }
  }

  // The usual beginning: user name, realm and nonce, the first two quoted.
  predicate BeginsAsUsual(fs: seq<Field>) {
    |fs| >= 3 && fs[0].key == "username" && fs[1].key == "realm" && fs[2].key == "nonce" && fs[0].quoted && fs[1].quoted
  }

  lemma UsualBeginning(server: Server, h: Hash, method_: string, client: Client, fs: seq<Field>)
    requires IsRightAnswer(server, h, method_, client, fs) && BeginsAsUsual(fs)
    ensures fs[0].value == server.username && fs[1].value == server.realm && fs[2].value == server.nonce
    ensures IsSuffix("username", Head(fs[0])) && IsSuffix("realm", Head(fs[1])) && IsSuffix("nonce", Head(fs[2]))
    ensures !IsSuffix("realm", Head(fs[0])) && !IsSuffix("nonce", Head(fs[0])) && !IsSuffix("nonce", Head(fs[1]))
  {
    hide IsList, HasProperKeys, RightResponse, IsSuffix, Head;
    KeyEnds(fs, 0, 0);
    KeyEnds(fs, 1, 1);
    KeyEnds(fs, 2, 2);
    KeyEnds(fs, 0, 1);
    KeyEnds(fs, 0, 2);
    KeyEnds(fs, 1, 2);
    NamesDiffer();
  }

  lemma NamesDiffer()
    ensures "username" != "realm" && "username" != "nonce" && "realm" != "nonce"
    ensures "username" != "cnonce" && "realm" != "cnonce"
  {
    assert "username"[0] != "realm"[0] && "username"[0] != "nonce"[0] && "realm"[0] != "nonce"[0];
  }

  /**
   A right answer in the usual order is accepted exactly when the user name leaves the
   realm to be found, and the user name, or else the realm, the nonce.
   */
  lemma NameMayHideKeys(server: Server, h: Hash, method_: string, client: Client, fs: seq<Field>)
    requires IsRightAnswer(server, h, method_, client, fs) && HidesNoKey(fs, VALUE_KEYS) && BeginsAsUsual(fs)
    requires IsCompact(server.realm) && IsCompact(server.nonce)
    ensures IsAccepted(server, h, method_, fs) <==>
            SurvivesIn(server.username, "realm", server.realm) &&
            if Find(server.username, Pattern("nonce"), 0).Some?
            then SurvivesIn(server.username, "nonce", server.nonce)
            else SurvivesIn(server.realm, "nonce", server.nonce)
  {
    hide IsAccepted, IsRightAnswer, HidesNoKey, IsSuffix, Head, Find, Leak, SurvivesIn;
    RightAnswerNeedsThree(server, h, method_, client, fs);
    UsualBeginning(server, h, method_, client, fs);
    var rest := fs[1..];
    assert rest[0] == fs[1] && rest[1..][0] == fs[2];
    SeenPastQuoted(fs, "realm", server.realm);
    SeenPastQuoted(fs, "nonce", server.nonce);
    SeenPastQuoted(rest, "nonce", server.nonce);
    NoKeySurvives(server.username, "realm", server.realm);
    NoKeySurvives(server.realm, "nonce", server.nonce);
  }

  lemma NoKeySurvives(text: string, key: string, value: string)
    ensures Find(text, Pattern(key), 0).None? ==> SurvivesIn(text, key, value)
  {
  }

  // ---------------------------------------------------------------------
  // The usual answer, field by field.

  predicate IsToken(s: string) {
    s != "" && forall i :: 0 <= i < |s| ==> '0' <= s[i] <= '9' || 'a' <= s[i] <= 'z' || 'A' <= s[i] <= 'Z'
  }

  lemma TokenHasNoMarks(s: string)
    requires IsToken(s)
    ensures '=' !in s && '\"' !in s && ',' !in s && ' ' !in s && '\n' !in s
  {
  }

  function UsualAnswer(server: Server, client: Client, response: string): seq<Field> {
    [Field("", "username", server.username, true), Field(" ", "realm", server.realm, true),
     Field(" ", "nonce", server.nonce, true), Field(" ", "uri", client.uri, true),
     Field(" ", "response", response, true)] +
    (if client.useQop then
       [Field(" ", "qop", QOP, false), Field(" ", "nc", client.nc, false), Field(" ", "cnonce", client.cnonce, true)]
     else [])
  }

  // Values that can stand between quotation marks, and a token where none stand.
  predicate IsPresentable(server: Server, client: Client) {
    && '\"' !in server.username && '\"' !in server.realm && '\"' !in server.nonce && '\"' !in client.uri
    && (client.useQop ==> IsToken(client.nc) && '\"' !in client.cnonce)
  }

  lemma UsualKeys(server: Server, client: Client, response: string)
    ensures var fs := UsualAnswer(server, client, response);
            |fs| == (if client.useQop then 8 else 5) &&
            forall j :: 0 <= j < |fs| ==> fs[j].key == KeyList()[j] && IsBlanks(fs[j].lead)
  {
  }

  lemma SuffixByLast(suffix: string, s: string)
    requires |suffix| >= 2 && |s| >= 2
    requires suffix[|suffix| - 1] != s[|s| - 1] || suffix[|suffix| - 2] != s[|s| - 2] || |suffix| > |s|
    ensures !IsSuffix(suffix, s)
  {
  }

  lemma KeySuffixes(i: nat, j: nat)
    requires i < 8 && j < 8
    ensures IsSuffix(KeyList()[i], KeyList()[j]) ==> i == j || (i == 2 && j == 7)
    ensures KeyList()[i] == KeyList()[j] ==> i == j
  {
    hide IsSuffix;
    if i != j && !(i == 2 && j == 7) {
      SuffixByLast(KeyList()[i], KeyList()[j]);
    }
    OwnSuffix(KeyList()[i]);
    NonceIsNotCnonce();
  }

  lemma NonceIsNotCnonce()
    ensures |KeyList()[2]| != |KeyList()[7]| && KeyList()[7] == "cnonce"
  {
  }

  lemma UsualKeysAreProper(server: Server, client: Client, response: string)
    ensures HasProperKeys(UsualAnswer(server, client, response))
  {
    hide KeyList, IsSuffix, IsBlanks, UsualAnswer;
    var fs := UsualAnswer(server, client, response);
    UsualKeys(server, client, response);
    NonceIsNotCnonce();
    forall j: nat | j < |fs| ensures HasProperKey(fs[j]) {
      forall i: nat | i < 8 && IsSuffix(KeyList()[i], fs[j].key)
        ensures fs[j].key == KeyList()[i] || (i == 2 && fs[j].key == "cnonce")
      {
        KeySuffixes(i, j);
      }
    }
  }

  lemma UsualFieldIsHeld(server: Server, client: Client, response: string, i: nat)
    requires i < 8
    ensures var fs := UsualAnswer(server, client, response);
            if i < |fs| then IsThe(fs, KeyList()[i], i) && HoldsOnce(fs, KeyList()[i], fs[i].value)
            else HoldsNo(fs, KeyList()[i])
  {
    hide KeyList, UsualAnswer;
    var fs := UsualAnswer(server, client, response);
    UsualKeys(server, client, response);
    forall j: nat | j < |fs| && j != i ensures fs[j].key != KeyList()[i] {
      KeySuffixes(j, i);
    }
    if i < |fs| {
      assert IsThe(fs, KeyList()[i], i);
    }
  }

  lemma UsualIsList(server: Server, client: Client, response: string)
    requires IsPresentable(server, client) && IsToken(response)
    ensures IsList(UsualAnswer(server, client, response))
  {
    hide IsToken, KeyList, IsBlanks;
    var fs := UsualAnswer(server, client, response);
    UsualKeys(server, client, response);
    TokenHasNoMarks(response);
    if client.useQop {
      TokenHasNoMarks(client.nc);
    }
    forall j: nat | j < |fs| ensures '=' !in Head(fs[j]) {
      HeadIsPlain(fs[j], j);
    }
  }

  lemma HeadIsPlain(f: Field, j: nat)
    requires j < 8 && f.key == KeyList()[j] && IsBlanks(f.lead)
    ensures '=' !in Head(f)
  {
    KeysAreNames();
  }

  /** The usual answer has every field once, with nonce before cnonce. */
  lemma UsualAnswerIsAnswer(server: Server, client: Client, response: string)
    requires client.uri != "" && IsPresentable(server, client) && IsToken(response)
    ensures var fs := UsualAnswer(server, client, response);
            IsAnswer(server, client, response, fs) && NonceComesFirst(fs) && BeginsAsUsual(fs)
  {
    hide IsList, HasProperKeys, HoldsOnce, HoldsNo, IsToken;
    var fs := UsualAnswer(server, client, response);
    UsualIsList(server, client, response);
    UsualKeysAreProper(server, client, response);
    UsualFieldIsHeld(server, client, response, 0);
    UsualFieldIsHeld(server, client, response, 1);
    UsualFieldIsHeld(server, client, response, 2);
    UsualFieldIsHeld(server, client, response, 3);
    UsualFieldIsHeld(server, client, response, 4);
    UsualFieldIsHeld(server, client, response, 5);
    UsualFieldIsHeld(server, client, response, 6);
    UsualFieldIsHeld(server, client, response, 7);
  }

  /** With the server's password and its digest it is a right answer. */
  lemma UsualAnswerIsRight(server: Server, h: Hash, method_: string, client: Client)
    requires client.uri != "" && IsPresentable(server, client) && IsToken(RightResponse(server, h, method_, client))
    requires client.password == server.password
    ensures var fs := UsualAnswer(server, client, RightResponse(server, h, method_, client));
            IsRightAnswer(server, h, method_, client, fs) && NonceComesFirst(fs) && BeginsAsUsual(fs)
  {
    hide IsAnswer, NonceComesFirst, RightResponse, IsToken;
    UsualAnswerIsAnswer(server, client, RightResponse(server, h, method_, client));
  }

  lemma {:induction false} ClearUpTo(fs: seq<Field>, key: string, i: nat)
    requires i <= |fs| && (i < |fs| ==> IsSuffix(key, Head(fs[i])))
    requires forall j :: 0 <= j < i ==> Absent(fs[j].value, Pattern(key))
    ensures Undisturbed(fs, key)
  {
    hide OccursAt, IsSuffix, Head;
    if i > 0 {
      ClearUpTo(fs[1..], key, i - 1);
    }
  }

  // Each value is free of the keys that come later.
  ghost predicate IsFreeOf(value: string, later: seq<string>) {
    forall k :: k in later ==> Absent(value, Pattern(k))
  }

  ghost predicate HoldsNoLaterKey(server: Server, client: Client) {
    && IsFreeOf(server.username, KeyList()[1..])
    && IsFreeOf(server.realm, KeyList()[2..])
    && IsFreeOf(server.nonce, KeyList()[3..])
    && IsFreeOf(client.uri, KeyList()[4..])
  }

  // One key is found in the usual answer when no value before it holds it.
  lemma UsualKeyIsUndisturbed(server: Server, client: Client, response: string, i: nat)
    requires IsPresentable(server, client) && IsToken(response) && i < 8
    requires forall j :: 0 <= j < 4 && j < i ==> Absent(UsualAnswer(server, client, response)[j].value, Pattern(KeyList()[i]))
    ensures Undisturbed(UsualAnswer(server, client, response), KeyList()[i])
  {
    hide OccursAt, IsSuffix, Head, KeyList, HasProperKeys, IsToken;
    var fs := UsualAnswer(server, client, response);
    var key := KeyList()[i];
    UsualKeys(server, client, response);
    UsualKeysAreProper(server, client, response);
    if i < |fs| {
      KeyEnds(fs, i, i);
    }
    var n := if i < |fs| then i else |fs|;
    forall j: nat | j < n ensures Absent(fs[j].value, Pattern(key)) {
      if j >= 4 && j < 7 {
        LaterValuesArePlain(server, client, response, j);
        NoEqualsSign(fs[j].value, key);
      }
    }
    ClearUpTo(fs, key, n);
  }

  lemma LaterValuesArePlain(server: Server, client: Client, response: string, j: nat)
    requires IsPresentable(server, client) && IsToken(response)
    requires 4 <= j < 7 && j < |UsualAnswer(server, client, response)|
    ensures '=' !in UsualAnswer(server, client, response)[j].value
  {
    hide IsToken;
    TokenHasNoMarks(response);
    if client.useQop {
      TokenHasNoMarks(client.nc);
    }
  }

  /** In the usual answer it is enough that no value holds a later key with an equals sign. */
  lemma UsualAnswerHidesNoKey(server: Server, client: Client, response: string)
    requires IsPresentable(server, client) && IsToken(response) && HoldsNoLaterKey(server, client)
    ensures HidesNoKey(UsualAnswer(server, client, response), VALUE_KEYS + {"username", "realm", "nonce"})
  {
    hide OccursAt, IsSuffix, Head, KeyList, IsPresentable, IsToken;
    forall i: nat | i < 8 ensures Undisturbed(UsualAnswer(server, client, response), KeyList()[i]) {
      forall j: nat | j < 4 && j < i
        ensures Absent(UsualAnswer(server, client, response)[j].value, Pattern(KeyList()[i]))
      {
        assert KeyList()[j + 1..][i - j - 1] == KeyList()[i];
      }
      UsualKeyIsUndisturbed(server, client, response, i);
    }
    TheKeys();
  }

  lemma TheKeys()
    ensures forall k :: k in VALUE_KEYS + {"username", "realm", "nonce"} ==> exists i: nat :: i < 8 && KeyList()[i] == k
    ensures forall k :: k in VALUE_KEYS ==> exists i: nat :: 3 <= i < 8 && KeyList()[i] == k
  {
    assert KeyList()[0] == "username" && KeyList()[1] == "realm" && KeyList()[2] == "nonce" && KeyList()[3] == "uri";
    assert KeyList()[4] == "response" && KeyList()[5] == "qop" && KeyList()[6] == "nc" && KeyList()[7] == "cnonce";
  }

  // ---------------------------------------------------------------------
  // Right answers that are refused, and one that gets through.

  lemma OneKeyInName(v: string, i: nat)
    requires '=' !in v && i < 8 && i != 1
    ensures Absent("realm" + "=" + v, Pattern(KeyList()[i]))
  {
    hide OccursAt, IsSuffix, KeyList, IsKeyName;
    KeysAreNames();
    KeySuffixes(i, 1);
    assert KeyList()[1] == "realm" && IsKeyName(KeyList()[i]) by { KeyAt(i); }
    NoEqualsSign("realm", KeyList()[i]);
    NoEqualsSign(v, KeyList()[i]);
    JoinAtEquals("realm", v, KeyList()[i]);
  }

  lemma KeyAt(i: nat)
    requires i < 8
    ensures IsKeyName(KeyList()[i]) && KeyList()[1] == "realm" && KeyList()[2] == "nonce" && KeyList()[7] == "cnonce"
  {
    hide IsKeyName;
    KeysAreNames();
  }

  // The values beside the user name hold no equals sign.
  predicate IsPlainBesideName(server: Server, client: Client) {
    '=' !in server.realm && '=' !in server.nonce && '=' !in client.uri && (client.useQop ==> '=' !in client.cnonce)
  }

  lemma NameHidesNoValueKey(server: Server, client: Client, response: string, v: string)
    requires IsPresentable(server, client) && IsToken(response) && IsPlainBesideName(server, client)
    requires '=' !in v && server.username == "realm" + "=" + v
    ensures HidesNoKey(UsualAnswer(server, client, response), VALUE_KEYS)
  {
    hide OccursAt, IsSuffix, Head, KeyList, IsPresentable, IsToken;
    forall i: nat | 3 <= i < 8 ensures Undisturbed(UsualAnswer(server, client, response), KeyList()[i]) {
      OneKeyInName(v, i);
      NoEqualsSign(server.realm, KeyList()[i]);
      NoEqualsSign(server.nonce, KeyList()[i]);
      NoEqualsSign(client.uri, KeyList()[i]);
      UsualKeyIsUndisturbed(server, client, response, i);
    }
    TheKeys();
  }

  lemma RealmInName(server: Server, h: Hash, method_: string, client: Client, v: string)
    requires client.password == server.password
    requires client.uri != "" && IsPresentable(server, client) && IsPlainBesideName(server, client)
    requires IsToken(RightResponse(server, h, method_, client)) && IsCompact(server.realm) && IsCompact(server.nonce)
    requires '=' !in v && server.username == "realm" + "=" + v
    ensures var fs := UsualAnswer(server, client, RightResponse(server, h, method_, client));
            IsRightAnswer(server, h, method_, client, fs) &&
            (IsAccepted(server, h, method_, fs) <==> SurvivesIn(server.username, "realm", server.realm))
  {
    hide OccursAt, IsPresentable, IsToken, RightResponse, IsAccepted, IsRightAnswer, SurvivesIn, UsualAnswer, HidesNoKey, Find;
    var response := RightResponse(server, h, method_, client);
    UsualAnswerIsRight(server, h, method_, client);
    NameHidesNoValueKey(server, client, response, v);
    NameMayHideKeys(server, h, method_, client, UsualAnswer(server, client, response));
    NonceIsNowhere(server, v);
    NoKeySurvives(server.realm, "nonce", server.nonce);
  }

  lemma NonceIsNowhere(server: Server, v: string)
    requires '=' !in v && '=' !in server.realm && server.username == "realm" + "=" + v
    ensures Find(server.username, Pattern("nonce"), 0).None? && Find(server.realm, Pattern("nonce"), 0).None?
  {
    hide OccursAt, Find;
    OneKeyInName(v, 2);
    KeyAt(2);
    NothingFound(server.username, Pattern("nonce"));
    NoEqualsSign(server.realm, "nonce");
    NothingFound(server.realm, Pattern("nonce"));
  }

  /** A user name with the realm's key and no comma: the right answer is refused. */
  lemma NameIsRefused(server: Server, h: Hash, method_: string, client: Client, v: string)
    requires client.password == server.password
    requires client.uri != "" && IsPresentable(server, client) && IsPlainBesideName(server, client)
    requires IsToken(RightResponse(server, h, method_, client)) && IsCompact(server.realm) && IsCompact(server.nonce)
    requires '=' !in v && ',' !in v && server.username == "realm" + "=" + v
    ensures var fs := UsualAnswer(server, client, RightResponse(server, h, method_, client));
            IsRightAnswer(server, h, method_, client, fs) && !IsAccepted(server, h, method_, fs)
  {
    hide OccursAt, IsPresentable, IsToken, RightResponse, IsAccepted, IsRightAnswer, UsualAnswer, Find;
    RealmInName(server, h, method_, client, v);
    RealmComesFirst(v);
    NoMarkFound(v, ',');
  }

  /** One that goes on with the realm itself and a comma: the right answer is accepted all the same. */
  lemma NameIsAccepted(server: Server, h: Hash, method_: string, client: Client, rest: string)
    requires client.password == server.password
    requires client.uri != "" && IsPresentable(server, client) && IsPlainBesideName(server, client)
    requires IsToken(RightResponse(server, h, method_, client)) && IsCompact(server.realm) && IsCompact(server.nonce)
    requires ',' !in server.realm && (server.realm != "" ==> server.realm[|server.realm| - 1] != ' ')
    requires '=' !in rest && server.username == "realm" + "=" + (server.realm + "," + rest)
    ensures var fs := UsualAnswer(server, client, RightResponse(server, h, method_, client));
            IsRightAnswer(server, h, method_, client, fs) && IsAccepted(server, h, method_, fs)
  {
    hide OccursAt, IsPresentable, IsToken, RightResponse, IsAccepted, IsRightAnswer, UsualAnswer, Find;
    var v := server.realm + "," + rest;
    RealmInName(server, h, method_, client, v);
    RealmComesFirst(v);
    FirstMark(server.realm, rest, ',', v);
    assert v[..|server.realm|] == server.realm;
  }

  lemma NoMarkFound(s: string, c: char)
    requires c !in s
    ensures Find(s, [c], 0).None?
  {
    hide Find;
    if Find(s, [c], 0).Some? {
      OccurrenceCharacter(s, [c], Find(s, [c], 0).value, 0);
    }
  }

  lemma RealmComesFirst(after: string)
    ensures var s := "realm" + "=" + after;
            Find(s, Pattern("realm"), 0) == Some(0) && s[6..] == after
  {
    assert ("realm" + "=" + after)[0..6] == "realm=" == Pattern("realm");
  }

  // Two fields change places.
  function Swapped(fs: seq<Field>, a: nat, b: nat): (r: seq<Field>)
    requires a < |fs| && b < |fs|
    ensures |r| == |fs|
  {
    fs[a := fs[b]][b := fs[a]]
  }

  lemma SwapKeepsHeld(fs: seq<Field>, a: nat, b: nat, key: string, value: string)
    requires a < |fs| && b < |fs|
    ensures HoldsOnce(fs, key, value) ==> HoldsOnce(Swapped(fs, a, b), key, value)
    ensures HoldsNo(fs, key) ==> HoldsNo(Swapped(fs, a, b), key)
  {
    var r := Swapped(fs, a, b);
    if HoldsOnce(fs, key, value) {
      var i: nat :| i < |fs| && IsThe(fs, key, i) && fs[i].value == value;
      var k := if i == a then b else if i == b then a else i;
      assert IsThe(r, key, k) && r[k].value == value;
    }
  }

  lemma SwapKeepsForm(fs: seq<Field>, a: nat, b: nat)
    requires IsList(fs) && HasProperKeys(fs) && a < |fs| && b < |fs|
    ensures IsList(Swapped(fs, a, b)) && HasProperKeys(Swapped(fs, a, b))
  {
    hide IsDelimited, HasProperKey;
    var r := Swapped(fs, a, b);
    forall j: nat | j < |r|
      ensures exists k :: 0 <= k < |fs| && r[j] == fs[k]
    {
      var k := if j == a then b else if j == b then a else j;
      assert r[j] == fs[k];
    }
  }

  /** The order of the fields does not make an answer right or wrong. */
  lemma SwapKeepsRight(server: Server, h: Hash, method_: string, client: Client, fs: seq<Field>, a: nat, b: nat)
    requires IsRightAnswer(server, h, method_, client, fs) && a < |fs| && b < |fs|
    ensures IsRightAnswer(server, h, method_, client, Swapped(fs, a, b))
  {
    hide HoldsOnce, HoldsNo, RightResponse, IsList, HasProperKeys, Swapped;
    SwapKeepsForm(fs, a, b);
    SwapKeepsHeld(fs, a, b, "username", server.username);
    SwapKeepsHeld(fs, a, b, "realm", server.realm);
    SwapKeepsHeld(fs, a, b, "nonce", server.nonce);
    SwapKeepsHeld(fs, a, b, "uri", client.uri);
    SwapKeepsHeld(fs, a, b, "response", RightResponse(server, h, method_, client));
    SwapKeepsHeld(fs, a, b, "qop", QOP);
    SwapKeepsHeld(fs, a, b, "nc", client.nc);
    SwapKeepsHeld(fs, a, b, "cnonce", client.cnonce);
  }

  // Values that a client can check without thinking of keys.
  predicate AllPlain(fs: seq<Field>) {
    forall j :: 0 <= j < |fs| ==> '=' !in fs[j].value
  }

  /** Values without an equals sign hide no key, in any list. */
  lemma {:induction false} PlainValuesHideNoKey(fs: seq<Field>, key: string)
    requires AllPlain(fs)
    ensures Undisturbed(fs, key)
  {
    hide OccursAt, IsSuffix, Head;
    if fs != [] {
      NoEqualsSign(fs[0].value, key);
      PlainValuesHideNoKey(fs[1..], key);
    }
  }

  lemma PlainAnswerHidesNoKey(fs: seq<Field>, keys: set<string>)
    requires AllPlain(fs)
    ensures HidesNoKey(fs, keys)
  {
    hide Undisturbed;
    forall k | k in keys ensures Undisturbed(fs, k) {
      PlainValuesHideNoKey(fs, k);
    }
  }

  /** The usual answer with nonce and cnonce in each other's place is right, and accepted only if they are equal. */
  lemma SwappedNonceIsRefused(server: Server, h: Hash, method_: string, client: Client)
    requires client.password == server.password
    requires client.uri != "" && client.useQop && IsPresentable(server, client) && IsPlainBesideName(server, client)
    requires IsToken(RightResponse(server, h, method_, client)) && '=' !in server.username
    ensures var fs := Swapped(UsualAnswer(server, client, RightResponse(server, h, method_, client)), 2, 7);
            IsRightAnswer(server, h, method_, client, fs) &&
            (IsAccepted(server, h, method_, fs) <==> client.cnonce == server.nonce)
  {
    hide IsRightAnswer, IsAccepted, IsToken, RightResponse, HidesNoKey, Undisturbed, KeyList;
    var response := RightResponse(server, h, method_, client);
    var fs := Swapped(UsualAnswer(server, client, response), 2, 7);
    UsualAnswerIsRight(server, h, method_, client);
    SwapKeepsRight(server, h, method_, client, UsualAnswer(server, client, response), 2, 7);
    TokenHasNoMarks(response);
    TokenHasNoMarks(client.nc);
    PlainAnswerHidesNoKey(fs, VALUE_KEYS + {"username", "realm", "nonce"});
    RightAnswerNeedsNonceFirst(server, h, method_, client, fs);
    NonceLast(fs);
  }

  // In such a list, eight fields long, the third is cnonce and the last is nonce.
  lemma NonceLast(fs: seq<Field>)
    requires |fs| == 8 && fs[2].key == "cnonce" && fs[7].key == "nonce"
    requires forall j :: 0 <= j < 8 && j != 2 && j != 7 ==> fs[j].key != "cnonce" && fs[j].key != "nonce"
    ensures NonceComesFirst(fs) <==> fs[2].value == fs[7].value
  {
    assert "cnonce"[0] != "nonce"[0];
  }
}
