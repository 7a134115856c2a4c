/** How stored text becomes the daemon's configuration (src/Tr069Daemon.cpp:103-158, src/UciAdapter.cpp:84-100). */
module RuntimeConfig {
  import opened Wrappers
  import opened Text
  import opened UciCommands
  import opened DeviceMap
  import opened Validation
  import opened Transaction
  import opened Reading
  import Acceptance

  // ---------------------------------------------------------------------
  // Numbers.

  const UINT_RANGE: nat := 0x1_0000_0000

  // The largest unsigned long of the targets the daemon is built for.
  predicate IsUlongMax(m: nat) {
    m == 0xffff_ffff || m == 0xffff_ffff_ffff_ffff
  }

  function SpacesBefore(s: string): (n: nat)
    ensures n <= |s|
  {
    if s != "" && IsSpace(s[0]) then 1 + SpacesBefore(s[1..]) else 0
  }

  function DigitsBefore(s: string): (n: nat)
    ensures n <= |s| && forall i :: 0 <= i < n ==> IsDigit(s[i])
    ensures n < |s| ==> !IsDigit(s[n])
  {
    if s != "" && IsDigit(s[0]) then 1 + DigitsBefore(s[1..]) else 0
  }

  datatype Parsed = Parsed(value: nat, consumed: nat)

  // std::stoul in base 10: white space, an optional sign, digits; None for its two exceptions.
  function Stoul(s: string, ulongMax: nat): Option<Parsed> {
    var spaces := SpacesBefore(s);
    var t := s[spaces..];
    var sign := if t != "" && (t[0] == '+' || t[0] == '-') then 1 else 0;
    var digits := DigitsBefore(t[sign..]);
    var magnitude := DecimalValue(t[sign..][..digits]);
    if digits == 0 || magnitude > ulongMax then None
    else
      var negative := sign == 1 && t[0] == '-';
      Some(Parsed(if negative && magnitude > 0 then ulongMax + 1 - magnitude else magnitude, spaces + sign + digits))
  }

  function ToUnsigned(v: nat): (u: nat)
    ensures u < UINT_RANGE
  {
    v % UINT_RANGE
  }

  function Max(a: nat, b: nat): nat {
    if a < b then b else a
  }

  // src/Tr069Daemon.cpp:118-123
  function PeriodicIntervalOf(text: string, ulongMax: nat): nat {
    match Stoul(text, ulongMax)
    case Some(p) => Max(1, ToUnsigned(p.value))
    case None => 300
  }

  // src/Tr069Daemon.cpp:128-134
  function ThrottleOf(text: string, ulongMax: nat): nat {
    match Stoul(text, ulongMax)
    case Some(p) => ToUnsigned(p.value)
    case None => 0
  }

  // src/UciAdapter.cpp:90-100
  function GetUnsigned(value: Option<string>, fallback: nat, ulongMax: nat): nat {
    if value.None? then fallback
    else
      match Stoul(value.value, ulongMax)
      case Some(p) => if p.consumed == |value.value| then ToUnsigned(p.value) else fallback
      case None => fallback
  }

  // src/UciAdapter.cpp:84-88
  function GetBool(value: Option<string>, fallback: bool): bool {
    match value
    case None => fallback
    case Some(v) => v == "1" || v == "true" || v == "yes" || v == "on"
  }

  lemma {:induction false} NumeralIsAllDigits(s: string)
    requires forall i :: 0 <= i < |s| ==> IsDigit(s[i])
    ensures DigitsBefore(s) == |s|
  {
  }

  lemma StoulOfNumeral(s: string, ulongMax: nat)
    requires IsNumeral(s)
    ensures Stoul(s, ulongMax) ==
            if DecimalValue(s) <= ulongMax then Some(Parsed(DecimalValue(s), |s|)) else None
  {
    assert IsDigit(s[0]);
    assert SpacesBefore(s) == 0 && s[0..] == s;
    NumeralIsAllDigits(s);
    assert s[..|s|] == s;
  }

  lemma {:induction false} SpacesAreCounted(spaces: string, rest: string)
    requires AreSpaces(spaces) && (rest == "" || !IsSpace(rest[0]))
    ensures SpacesBefore(spaces + rest) == |spaces|
  {
    if spaces == "" {
      assert spaces + rest == rest;
    } else {
      assert (spaces + rest)[1..] == spaces[1..] + rest;
      SpacesAreCounted(spaces[1..], rest);
    }
  }

  lemma {:induction false} DigitsAreCounted(digits: string, rest: string)
    requires forall i :: 0 <= i < |digits| ==> IsDigit(digits[i])
    requires rest == "" || !IsDigit(rest[0])
    ensures DigitsBefore(digits + rest) == |digits|
  {
    if digits == "" {
      assert digits + rest == rest;
    } else {
      assert (digits + rest)[1..] == digits[1..] + rest;
      DigitsAreCounted(digits[1..], rest);
    }
  }

  predicate IsSign(s: string) {
    s == "" || s == "+" || s == "-"
  }

  // The lengths of the three parts of a number's text.
  ghost predicate HasParts(s: string, spaces: nat, sign: nat, digits: nat) {
    && spaces == SpacesBefore(s) && spaces + sign + digits <= |s|
    && sign == (if spaces < |s| && (s[spaces] == '+' || s[spaces] == '-') then 1 else 0)
    && digits == DigitsBefore(s[spaces + sign..])
  }

  lemma PartsAreFound(spaces: string, sign: string, digits: string, rest: string)
    requires AreSpaces(spaces) && IsSign(sign)
    requires forall i :: 0 <= i < |digits| ==> IsDigit(digits[i])
    requires rest == "" || !IsDigit(rest[0])
    requires sign == "" && digits == "" && rest != "" ==> !IsSpace(rest[0]) && rest[0] != '+' && rest[0] != '-'
    ensures HasParts(spaces + (sign + (digits + rest)), |spaces|, |sign|, |digits|)
  {
    hide AreSpaces;
    var u := digits + rest;
    var t := sign + u;
    var s := spaces + t;
    if sign == "" && digits != "" {
      assert t[0] == digits[0] && IsDigit(digits[0]);
    }
    SpacesAreCounted(spaces, t);
    assert s[|spaces|..] == t && s[|spaces| + |sign|..] == u;
    DigitsAreCounted(digits, rest);
  }

  lemma StoulByParts(s: string, spaces: nat, sign: nat, digits: nat, ulongMax: nat)
    requires HasParts(s, spaces, sign, digits)
    ensures forall i :: spaces + sign <= i < spaces + sign + digits ==> IsDigit(s[i])
    ensures var magnitude := DecimalValue(s[spaces + sign..spaces + sign + digits]);
            Stoul(s, ulongMax) ==
            if digits == 0 || magnitude > ulongMax then None
            else if sign == 1 && s[spaces] == '-' && magnitude > 0 then
              Some(Parsed(ulongMax + 1 - magnitude, spaces + sign + digits))
            else Some(Parsed(magnitude, spaces + sign + digits))
  {
    hide DecimalValue, SpacesBefore;
    var t := s[spaces..];
    assert t[sign..] == s[spaces + sign..];
    assert t[sign..][..digits] == s[spaces + sign..spaces + sign + digits];
  }

  /**
   std::stoul on any text: white space, a sign or none, digits, and anything after them. A negative number
   wraps around; without digits, or beyond the largest unsigned long, there is no number.
   */
  lemma StoulIsExact(spaces: string, sign: string, digits: string, rest: string, ulongMax: nat)
    requires AreSpaces(spaces) && IsSign(sign)
    requires forall i :: 0 <= i < |digits| ==> IsDigit(digits[i])
    requires rest == "" || !IsDigit(rest[0])
    requires sign == "" && digits == "" && rest != "" ==> !IsSpace(rest[0]) && rest[0] != '+' && rest[0] != '-'
    ensures Stoul(spaces + (sign + (digits + rest)), ulongMax) ==
            if digits == "" || DecimalValue(digits) > ulongMax then None
            else
              var n := DecimalValue(digits);
              Some(Parsed(if sign == "-" then (ulongMax + 1 - n) % (ulongMax + 1) else n, |spaces| + |sign| + |digits|))
  {
    hide Stoul, DecimalValue, HasParts, AreSpaces;
    var s := spaces + (sign + (digits + rest));
    PartsAreFound(spaces, sign, digits, rest);
    StoulByParts(s, |spaces|, |sign|, |digits|, ulongMax);
    assert s[|spaces| + |sign|..|spaces| + |sign| + |digits|] == digits;
    if DecimalValue(digits) <= ulongMax {
      WrapsAround(DecimalValue(digits), ulongMax);
    }
  }

  lemma WrapsAround(n: nat, ulongMax: nat)
    requires n <= ulongMax
    ensures (ulongMax + 1 - n) % (ulongMax + 1) == if n > 0 then ulongMax + 1 - n else 0
  {
  }

  // ---------------------------------------------------------------------
  // The whole configuration.

  datatype ListenerConfig = ListenerConfig(
    bindAddress: string,
    port: nat,
    username: string,
    password: string,
    auth: string,
    realm: string)

  datatype DaemonConfig = DaemonConfig(
    enableCwmp: bool,
    acsUrl: string,
    acsUsername: string,
    acsPassword: string,
    caFile: string,
    insecureTls: bool,
    periodicEnable: bool,
    periodicInterval: nat,
    periodicInformTime: string,
    upgradesManaged: bool,
    throttle: nat,
    mockMode: bool,
    bootstrapDone: bool,
    pendingRebootEvent: bool,
    connectionRequestEnable: bool,
    retryMinimumWait: nat,
    retryMultiplier: nat,
    listener: ListenerConfig)

  datatype Platform = Platform(ulongMax: nat, allowMockReboot: bool)

  function NoAnswers(): Getters {
    _ => None
  }

  function Internal(source: Source, p: Parameter): string {
    ReadSpec(SpecOf(p), source, NoAnswers(), true)
  }

  // Everything readConfig reads: parameters through the map, and options by their key.
  datatype Setting =
    | Mapped(p: Parameter)
    | CaFile | CnVerification | MockMode | BootstrapDone | PendingReboot
    | ListenerEnable | Bind | Port | Auth | RetryWait | RetryMultiplier

  function KeyOf(p: Parameter): string {
    if SpecOf(p).uci.Some? then UciKey(SpecOf(p)) else ""
  }

  function SettingKey(s: Setting): string {
    match s
    case Mapped(p) => KeyOf(p)
    case CaFile => "tr69.settings.ssl_ca_cert_path"
    case CnVerification => "tr69.settings.ssl_cn_verification"
    case MockMode => "tr69.settings.mock_mode"
    case BootstrapDone => "tr69.settings.bootstrap_done"
    case PendingReboot => "tr69.settings.pending_reboot_event"
    case ListenerEnable => "tr69.conn_request.enable"
    case Bind => "tr69.settings.bind"
    case Port => "tr69.settings.port"
    case Auth => "tr69.conn_request.auth"
    case RetryWait => "tr69.mgmt_srv.retry_minimum_wait"
    case RetryMultiplier => "tr69.mgmt_srv.retry_multiplier"
  }

  function At(source: Source, s: Setting): Option<string> {
    source(SettingKey(s))
  }

  function Decode(source: Source, platform: Platform): DaemonConfig {
    DaemonConfig(
      Internal(source, EnableCWMP) == "true",
      Internal(source, URL),
      Internal(source, Username),
      Internal(source, Password),
      At(source, CaFile).GetOr(""),
      !GetBool(At(source, CnVerification), true),
      Internal(source, PeriodicInformEnable) == "true",
      PeriodicIntervalOf(Internal(source, PeriodicInformInterval), platform.ulongMax),
      Internal(source, PeriodicInformTime),
      Internal(source, UpgradesManaged) == "true",
      ThrottleOf(Internal(source, DefaultActiveNotificationThrottle), platform.ulongMax),
      platform.allowMockReboot && GetBool(At(source, MockMode), false),
      GetBool(At(source, BootstrapDone), false),
      GetBool(At(source, PendingReboot), false),
      GetBool(At(source, ListenerEnable), true),
      Max(1, GetUnsigned(At(source, RetryWait), 5, platform.ulongMax)),
      Max(1000, GetUnsigned(At(source, RetryMultiplier), 2000, platform.ulongMax)),
      ListenerConfig(
        At(source, Bind).GetOr("0.0.0.0"),
        GetUnsigned(At(source, Port), 7547, platform.ulongMax),
        Internal(source, ConnectionRequestUsername),
        Internal(source, ConnectionRequestPassword),
        At(source, Auth).GetOr("Digest"),
        "tr069d"))
  }

  // The settings readConfig reads, in no particular order.
  function Settings(): set<Setting> {
    {
      Mapped(EnableCWMP), Mapped(URL), Mapped(Username), Mapped(Password), Mapped(PeriodicInformEnable),
      Mapped(PeriodicInformInterval), Mapped(PeriodicInformTime), Mapped(UpgradesManaged),
      Mapped(DefaultActiveNotificationThrottle), Mapped(ConnectionRequestUsername), Mapped(ConnectionRequestPassword),
      CaFile, CnVerification, MockMode, BootstrapDone, PendingReboot,
      ListenerEnable, Bind, Port, Auth, RetryWait, RetryMultiplier
    }
  }

  lemma InternalDependsOnKey(a: Source, b: Source, p: Parameter)
    requires SpecOf(p).uci.Some? && At(a, Mapped(p)) == At(b, Mapped(p))
    ensures Internal(a, p) == Internal(b, p)
  {
    hide SpecOf;
  }

  lemma ListedParametersAreStored(p: Parameter)
    requires Mapped(p) in Settings()
    ensures SpecOf(p).uci.Some?
  {
  }

  /** A configuration depends on the listed settings alone. */
  lemma DecodeDependsOnSettings(a: Source, b: Source, platform: Platform)
    requires forall s :: s in Settings() ==> At(a, s) == At(b, s)
    ensures Decode(a, platform) == Decode(b, platform)
  {
    hide PeriodicIntervalOf, ThrottleOf, GetUnsigned, GetBool, Internal, At, SpecOf;
    forall p | Mapped(p) in Settings() ensures Internal(a, p) == Internal(b, p) {
      ListedParametersAreStored(p);
      InternalDependsOnKey(a, b, p);
    }
  }

  // src/Tr069Daemon.cpp:31-52, field by field.
  predicate ListenerEqual(a: ListenerConfig, b: ListenerConfig) {
    && a.bindAddress == b.bindAddress && a.port == b.port
    && a.username == b.username && a.password == b.password
    && a.auth == b.auth && a.realm == b.realm
  }

  predicate RuntimeEqual(a: DaemonConfig, b: DaemonConfig) {
    && a.enableCwmp == b.enableCwmp && a.acsUrl == b.acsUrl
    && a.acsUsername == b.acsUsername && a.acsPassword == b.acsPassword
    && a.caFile == b.caFile && a.insecureTls == b.insecureTls
    && a.periodicEnable == b.periodicEnable
    && a.periodicInterval == b.periodicInterval
    && a.periodicInformTime == b.periodicInformTime
    && a.upgradesManaged == b.upgradesManaged
    && a.throttle == b.throttle
    && a.mockMode == b.mockMode
    && a.connectionRequestEnable == b.connectionRequestEnable
    && a.retryMinimumWait == b.retryMinimumWait
    && a.retryMultiplier == b.retryMultiplier
    && ListenerEqual(a.listener, b.listener)
  }

  /** Together with the two daemon-owned flags, the comparison misses no field. */
  lemma ComparisonIsComplete(a: DaemonConfig, b: DaemonConfig)
    ensures (RuntimeEqual(a, b) && a.bootstrapDone == b.bootstrapDone && a.pendingRebootEvent == b.pendingRebootEvent)
            <==> a == b
  {
  }

  // ---------------------------------------------------------------------
  // Accepted settings reach the daemon exactly.

  lemma RangeIsRespected(p: Parameter, raw: string, lo: nat, hi: nat)
    requires SpecOf(p).valueType == UnsignedInt && SpecOf(p).range == Some([Range(lo, hi)])
    requires Normalize(SpecOf(p), raw).Good?
    ensures Normalize(SpecOf(p), raw) == Good(raw) && IsNumeral(raw) && lo <= DecimalValue(raw) <= hi
  {
    hide SpecOf, Lower, MatchesDateTime, DecimalValue;
    assert ToNumber(raw) == Some(DecimalValue(raw));
    assert InSomeRange(DecimalValue(raw), SpecOf(p).range.value);
  }

  lemma NumericSpecs()
    ensures SpecOf(PeriodicInformInterval).valueType == UnsignedInt
    ensures SpecOf(PeriodicInformInterval).range == Some([Range(1, 4294967295)])
    ensures SpecOf(CWMPRetryMinimumWaitInterval).valueType == UnsignedInt
    ensures SpecOf(CWMPRetryMinimumWaitInterval).range == Some([Range(1, 65535)])
    ensures SpecOf(CWMPRetryIntervalMultiplier).valueType == UnsignedInt
    ensures SpecOf(CWMPRetryIntervalMultiplier).range == Some([Range(1000, 65535)])
  {
  }

  lemma IntervalIsExact(raw: string, ulongMax: nat)
    requires IsUlongMax(ulongMax) && Normalize(SpecOf(PeriodicInformInterval), raw).Good?
    ensures IsNumeral(raw) && 1 <= DecimalValue(raw) < UINT_RANGE
    ensures PeriodicIntervalOf(raw, ulongMax) == DecimalValue(raw)
  {
    hide SpecOf, Normalize, Stoul, DecimalValue;
    NumericSpecs();
    RangeIsRespected(PeriodicInformInterval, raw, 1, 4294967295);
    StoulOfNumeral(raw, ulongMax);
  }

  lemma RetryWaitIsExact(raw: string, ulongMax: nat)
    requires IsUlongMax(ulongMax) && Normalize(SpecOf(CWMPRetryMinimumWaitInterval), raw).Good?
    ensures IsNumeral(raw) && Max(1, GetUnsigned(Some(raw), 5, ulongMax)) == DecimalValue(raw)
  {
    hide SpecOf, Normalize, Stoul, DecimalValue;
    NumericSpecs();
    RangeIsRespected(CWMPRetryMinimumWaitInterval, raw, 1, 65535);
    StoulOfNumeral(raw, ulongMax);
  }

  lemma RetryMultiplierIsExact(raw: string, ulongMax: nat)
    requires IsUlongMax(ulongMax) && Normalize(SpecOf(CWMPRetryIntervalMultiplier), raw).Good?
    ensures IsNumeral(raw) && Max(1000, GetUnsigned(Some(raw), 2000, ulongMax)) == DecimalValue(raw)
  {
    hide SpecOf, Normalize, Stoul, DecimalValue;
    NumericSpecs();
    RangeIsRespected(CWMPRetryIntervalMultiplier, raw, 1000, 65535);
    StoulOfNumeral(raw, ulongMax);
  }

  /**
   The notification throttle has no range in the map: an accepted value reaches
   the daemon exactly when it fits an unsigned int.
   */
  lemma ThrottleIsExactBelow32Bits(raw: string, ulongMax: nat)
    requires IsUlongMax(ulongMax) && Normalize(SpecOf(DefaultActiveNotificationThrottle), raw).Good?
    ensures IsNumeral(raw)
    ensures ThrottleOf(raw, ulongMax) == DecimalValue(raw) <==> DecimalValue(raw) < UINT_RANGE
  {
    hide SpecOf, Stoul, DecimalValue;
    ThrottleAcceptsNumerals(raw);
    StoulOfNumeral(raw, ulongMax);
  }

  lemma ThrottleAcceptsNumerals(raw: string)
    ensures Normalize(SpecOf(DefaultActiveNotificationThrottle), raw) ==
            if IsNumeral(raw) then Good(raw) else Bad("expected unsignedInt")
  {
  }

  /** An accepted value that does not arrive: 4294967296 is stored and then read as 0. */
  lemma ThrottleCanBeTruncated()
    ensures var raw := Decimal(UINT_RANGE);
            Normalize(SpecOf(DefaultActiveNotificationThrottle), raw) == Good(raw) &&
            ThrottleOf(raw, 0xffff_ffff_ffff_ffff) == 0
  {
    hide SpecOf, Normalize, Stoul, DecimalValue, Decimal;
    var raw := Decimal(UINT_RANGE);
    DecimalReadsBack(UINT_RANGE);
    ThrottleAcceptsNumerals(raw);
    StoulOfNumeral(raw, 0xffff_ffff_ffff_ffff);
  }

  predicate IsBooleanSetting(p: Parameter) {
    p == EnableCWMP || p == PeriodicInformEnable || p == UpgradesManaged
  }

  lemma BooleanKeepsItsMeaning(p: Parameter, raw: string)
    requires IsBooleanSetting(p) && Normalize(SpecOf(p), raw).Good?
    ensures Normalize(SpecOf(p), raw).value == "true" <==> IsTruthy(Lower(raw))
    ensures Normalize(SpecOf(p), raw).value == "false" <==> IsFalsy(Lower(raw))
  {
    hide Lower;
    BooleanWordsAreLower();
  }

  lemma AuthenticationSpec()
    ensures var spec := SpecOf(ConnectionRequestAuthentication);
            spec.uci.Some? && spec.getter.None? && !spec.secret && spec.default == Some("None")
  {
  }

  /**
   The authentication mode that an ACS reads is the one the listener enforces exactly when
   the option is there and not empty. Without it the ACS reads "None" and the listener asks
   for Digest; an empty one reads "None" and is no known mode at all.
   */
  lemma ReadModeIsInForce(source: Source, getters: Getters, platform: Platform)
    ensures Read(DeviceParameters, source, getters, PathOf(ConnectionRequestAuthentication), false) ==
            Some(Decode(source, platform).listener.auth)
            <==> At(source, Auth).Some? && At(source, Auth).value != ""
    ensures At(source, Auth).None? ==>
              Read(DeviceParameters, source, getters, PathOf(ConnectionRequestAuthentication), false) == Some("None") &&
              Decode(source, platform).listener.auth == "Digest"
  {
    hide SpecOf, PathOf, ParameterAt, Internal, GetUnsigned, GetBool, PeriodicIntervalOf, ThrottleOf, SettingKey;
    PathsAreDistinct(ConnectionRequestAuthentication);
    AuthenticationSpec();
    DirectlyReadKeys(ConnectionRequestAuthentication);
    assert "None"[0] != "Digest"[0];
  }

  // The i-th item of an accepted request sets parameter p to the text raw.
  ghost predicate Sets(items: seq<Item>, i: nat, p: Parameter) {
    i < |items| && items[i].name == PathOf(p)
  }

  // What configuration a written parameter must produce.
  ghost predicate Arrives(config: DaemonConfig, p: Parameter, raw: string) {
    match p
    case PeriodicInformInterval => IsNumeral(raw) && config.periodicInterval == DecimalValue(raw)
    case CWMPRetryMinimumWaitInterval => IsNumeral(raw) && config.retryMinimumWait == DecimalValue(raw)
    case CWMPRetryIntervalMultiplier => IsNumeral(raw) && config.retryMultiplier == DecimalValue(raw)
    case DefaultActiveNotificationThrottle =>
      IsNumeral(raw) && (config.throttle == DecimalValue(raw) <==> DecimalValue(raw) < UINT_RANGE)
    case EnableCWMP => config.enableCwmp == IsTruthy(Lower(raw))
    case PeriodicInformEnable => config.periodicEnable == IsTruthy(Lower(raw))
    case UpgradesManaged => config.upgradesManaged == IsTruthy(Lower(raw))
    case URL => config.acsUrl == raw && raw != ""
    case Username => config.acsUsername == raw
    case Password => config.acsPassword == raw
    case PeriodicInformTime => config.periodicInformTime == raw
    case ConnectionRequestUsername => config.listener.username == raw
    case ConnectionRequestPassword => config.listener.password == raw
    case ConnectionRequestAuthentication => config.listener.auth == raw && (raw == "None" || raw == "Digest")
    case _ => false
  }

  // A stored parameter whose option holds an accepted value.
  ghost predicate Holds(source: Source, p: Parameter, raw: string) {
    && SpecOf(p).uci.Some? && SpecOf(p).access == ReadWrite
    && Normalize(SpecOf(p), raw).Good?
    && source(UciKey(SpecOf(p))) == Some(Normalize(SpecOf(p), raw).value)
  }

  lemma HeldValueIsRead(source: Source, p: Parameter, raw: string)
    requires Holds(source, p, raw)
    ensures Internal(source, p) == Normalize(SpecOf(p), raw).value
  {
    hide Lower, MatchesDateTime;
    SpecStoredIsNotComputed(p);
    if Normalize(SpecOf(p), raw).value == "" {
      SpecDefaultNeverMasks(p, raw);
    }
  }

  lemma RetryWaitKey()
    ensures "tr69" + "." + "mgmt_srv" + "." + "retry_minimum_wait" == SettingKey(RetryWait)
  {
  }

  lemma RetryMultiplierKey()
    ensures "tr69" + "." + "mgmt_srv" + "." + "retry_multiplier" == SettingKey(RetryMultiplier)
  {
  }

  lemma AuthenticationKey()
    ensures "tr69" + "." + "conn_request" + "." + "auth" == SettingKey(Auth)
  {
  }

  // Three parameters are read by the literal key instead of through the map.
  lemma DirectlyReadKeys(p: Parameter)
    ensures p == CWMPRetryMinimumWaitInterval ==> KeyOf(p) == SettingKey(RetryWait)
    ensures p == CWMPRetryIntervalMultiplier ==> KeyOf(p) == SettingKey(RetryMultiplier)
    ensures p == ConnectionRequestAuthentication ==> KeyOf(p) == SettingKey(Auth)
  {
    hide SettingKey;
    if p == CWMPRetryMinimumWaitInterval {
      RetryWaitKey();
    } else if p == CWMPRetryIntervalMultiplier {
      RetryMultiplierKey();
    } else if p == ConnectionRequestAuthentication {
      AuthenticationKey();
    }
  }

  lemma WritableParameters(p: Parameter)
    requires SpecOf(p).uci.Some? && SpecOf(p).access == ReadWrite
    ensures Acceptance.IsWritable(p) && (SpecOf(p).valueType == Boolean <==> IsBooleanSetting(p))
  {
  }

  lemma NonBooleanIsKept(spec: ParamSpec, raw: string)
    requires spec.valueType != Boolean && Normalize(spec, raw).Good?
    ensures Normalize(spec, raw).value == raw
  {
  }

  lemma UrlIsRequired(raw: string)
    requires Normalize(SpecOf(URL), raw).Good?
    ensures raw != ""
  {
  }

  lemma AuthenticationIsListed(raw: string)
    requires Normalize(SpecOf(ConnectionRequestAuthentication), raw).Good?
    ensures raw == "None" || raw == "Digest"
  {
  }

  lemma TextIsKept(p: Parameter, raw: string)
    requires SpecOf(p).uci.Some? && SpecOf(p).access == ReadWrite && Normalize(SpecOf(p), raw).Good?
    ensures Acceptance.IsWritable(p)
    ensures !IsBooleanSetting(p) ==> Normalize(SpecOf(p), raw).value == raw
    ensures p == URL ==> raw != ""
    ensures p == ConnectionRequestAuthentication ==> raw == "None" || raw == "Digest"
  {
    hide SpecOf, Normalize;
    WritableParameters(p);
    if !IsBooleanSetting(p) {
      NonBooleanIsKept(SpecOf(p), raw);
    }
    if p == URL {
      UrlIsRequired(raw);
    } else if p == ConnectionRequestAuthentication {
      AuthenticationIsListed(raw);
    }
  }

  // The field of the configuration that a writable parameter feeds.
  ghost predicate FedBy(c: DaemonConfig, source: Source, m: nat) {
    && c.enableCwmp == (Internal(source, EnableCWMP) == "true")
    && c.periodicEnable == (Internal(source, PeriodicInformEnable) == "true")
    && c.upgradesManaged == (Internal(source, UpgradesManaged) == "true")
    && c.acsUrl == Internal(source, URL)
    && c.acsUsername == Internal(source, Username) && c.acsPassword == Internal(source, Password)
    && c.periodicInformTime == Internal(source, PeriodicInformTime)
    && c.listener.username == Internal(source, ConnectionRequestUsername)
    && c.listener.password == Internal(source, ConnectionRequestPassword)
    && c.periodicInterval == PeriodicIntervalOf(Internal(source, PeriodicInformInterval), m)
    && c.throttle == ThrottleOf(Internal(source, DefaultActiveNotificationThrottle), m)
    && c.retryMinimumWait ==
       Max(1, GetUnsigned(source(KeyOf(CWMPRetryMinimumWaitInterval)), 5, m))
    && c.retryMultiplier ==
       Max(1000, GetUnsigned(source(KeyOf(CWMPRetryIntervalMultiplier)), 2000, m))
    && c.listener.auth == source(KeyOf(ConnectionRequestAuthentication)).GetOr("Digest")
  }

  lemma ConfigIsFed(source: Source, platform: Platform)
    ensures FedBy(Decode(source, platform), source, platform.ulongMax)
  {
    hide Internal, GetUnsigned, PeriodicIntervalOf, ThrottleOf, GetBool, KeyOf, SettingKey;
    DirectlyReadKeys(CWMPRetryMinimumWaitInterval);
    DirectlyReadKeys(CWMPRetryIntervalMultiplier);
    DirectlyReadKeys(ConnectionRequestAuthentication);
  }

  predicate IsNumberSetting(p: Parameter) {
    || p == PeriodicInformInterval || p == CWMPRetryMinimumWaitInterval || p == CWMPRetryIntervalMultiplier
    || p == DefaultActiveNotificationThrottle
  }

  lemma HeldNumberArrives(c: DaemonConfig, source: Source, m: nat, p: Parameter, raw: string)
    requires IsUlongMax(m) && IsNumberSetting(p) && FedBy(c, source, m) && Normalize(SpecOf(p), raw).Good?
    requires Internal(source, p) == raw && source(KeyOf(p)) == Some(raw)
    ensures Arrives(c, p, raw)
  {
    hide SpecOf, Normalize, Internal, GetUnsigned, PeriodicIntervalOf, ThrottleOf, IsNumeral, KeyOf, DecimalValue;
    if p == PeriodicInformInterval {
      IntervalIsExact(raw, m);
    } else if p == CWMPRetryMinimumWaitInterval {
      RetryWaitIsExact(raw, m);
    } else if p == CWMPRetryIntervalMultiplier {
      RetryMultiplierIsExact(raw, m);
    } else {
      ThrottleIsExactBelow32Bits(raw, m);
    }
  }

  lemma HeldTextArrives(c: DaemonConfig, source: Source, m: nat, p: Parameter, raw: string)
    requires Acceptance.IsWritable(p) && !IsNumberSetting(p) && FedBy(c, source, m) && Normalize(SpecOf(p), raw).Good?
    requires Internal(source, p) == Normalize(SpecOf(p), raw).value && source(KeyOf(p)) == Some(Internal(source, p))
    requires !IsBooleanSetting(p) ==> Internal(source, p) == raw
    requires (p == URL ==> raw != "") && (p == ConnectionRequestAuthentication ==> raw == "None" || raw == "Digest")
    ensures Arrives(c, p, raw)
  {
    hide SpecOf, Normalize, Internal, GetUnsigned, PeriodicIntervalOf, ThrottleOf, IsNumeral, KeyOf, DecimalValue, Lower,
         IsTruthy;
    if IsBooleanSetting(p) {
      BooleanKeepsItsMeaning(p, raw);
    }
  }

  lemma HeldValueArrives(source: Source, platform: Platform, p: Parameter, raw: string)
    requires IsUlongMax(platform.ulongMax) && Holds(source, p, raw)
    ensures Arrives(Decode(source, platform), p, raw)
  {
    hide SpecOf, Normalize, Internal, UciKey, Decode, FedBy, Arrives, IsUlongMax;
    var c := Decode(source, platform);
    ConfigIsFed(source, platform);
    assert KeyOf(p) == UciKey(SpecOf(p));
    HeldValueIsRead(source, p, raw);
    TextIsKept(p, raw);
    if IsNumberSetting(p) {
      HeldNumberArrives(c, source, platform.ulongMax, p, raw);
    } else {
      HeldTextArrives(c, source, platform.ulongMax, p, raw);
    }
  }

  /** Every setting of an accepted request is what the daemon's next configuration holds. */
  lemma AcceptedSettingsArrive(view: View, items: seq<Item>, parameterKey: string, platform: Platform, i: nat, p: Parameter)
    requires IsUlongMax(platform.ulongMax) && Sets(items, i, p)
    requires PlanOf(DeviceParameters, items, parameterKey).Planned?
    requires UciOutcome(view, PlanOf(DeviceParameters, items, parameterKey).staged).result.Accepted?
    ensures var ws := PlanOf(DeviceParameters, items, parameterKey).staged;
            Arrives(Decode(UciSource(Applied(view, ws)), platform), p, items[i].value)
  {
    hide PlanOf, ParameterAt, PathOf, SpecOf, Normalize, Arrives, Decode;
    var ws := PlanOf(DeviceParameters, items, parameterKey).staged;
    var source := UciSource(Applied(view, ws));
    PlanDescribesItems(DeviceParameters, items, parameterKey);
    var all := items + [Item(PARAMETER_KEY, parameterKey, "")];
    assert Describes(DeviceParameters, all[i], ws[i]);
    PathsAreDistinct(p);
    PlannedItemsAreWritable(items, parameterKey, i);
    assert Holds(source, p, items[i].value);
    HeldValueArrives(source, platform, p, items[i].value);
  }

  lemma PlannedItemsAreWritable(items: seq<Item>, parameterKey: string, i: nat)
    requires PlanOf(DeviceParameters, items, parameterKey).Planned? && i < |items|
    ensures DeviceParameters(items[i].name).Some? && DeviceParameters(items[i].name).value.access == ReadWrite
  {
    hide DeviceParameters;
    StagedAreWritable(DeviceParameters, items, i);
  }
}
