/**
 What every parameter of transformer/maps/Device.map reads as, and what every field of the
 daemon's configuration is, option by option: the reference that the table-driven code is
 compared with.
 */
module DeviceReading {
  import opened Wrappers
  import opened Text
  import opened DeviceMap
  import opened Reading
  import opened RuntimeConfig
  import Acceptance

  // An option's text, or the default where it is missing or empty.
  function OptionOr(source: Source, key: string, default: string): string {
    match source(key)
    case Some(text) => if text == "" then default else text
    case None => default
  }

  function AnswerOr(answer: Option<string>, default: string): string {
    match answer
    case Some(text) => text
    case None => default
  }

  function Management(option: string): string {
    "tr69.mgmt_srv." + option
  }

  function PeriodicInform(option: string): string {
    "tr69.periodic_inform." + option
  }

  function ListenerOption(option: string): string {
    "tr69.conn_request." + option
  }

  function Shown(p: Parameter, source: Source, getters: Getters): string {
    match p
    case RootDataModelVersion => "2.18"
    case Manufacturer => "dev"
    case ManufacturerOUI => "000000"
    case ProductClass => "OpenWrt-RPi5"
    case ModelName => "Raspberry Pi 5"
    case SerialNumber => AnswerOr(getters(GetSerialNumber), "UNKNOWN")
    case SoftwareVersion => AnswerOr(getters(GetSoftwareVersion), "OpenWrt")
    case ConnectionRequestURL => AnswerOr(getters(GetConnectionRequestUrl), "")
    case EnableCWMP => OptionOr(source, Management("enable"), "true")
    case URL => OptionOr(source, Management("url"), "")
    case Username => OptionOr(source, Management("username"), "")
    case Password => OptionOr(source, Management("password"), "")
    case ParameterKey => OptionOr(source, Management("parameter_key"), "")
    case PeriodicInformEnable => OptionOr(source, PeriodicInform("enable"), "true")
    case PeriodicInformInterval => OptionOr(source, PeriodicInform("interval"), "300")
    case PeriodicInformTime => OptionOr(source, PeriodicInform("time"), "1970-01-01T00:00:00Z")
    case ConnectionRequestUsername => OptionOr(source, ListenerOption("username"), "")
    case ConnectionRequestPassword => OptionOr(source, ListenerOption("password"), "")
    case ConnectionRequestAuthentication => OptionOr(source, ListenerOption("auth"), "None")
    case UpgradesManaged => OptionOr(source, Management("upgrades_managed"), "false")
    case DefaultActiveNotificationThrottle => OptionOr(source, Management("defaultactivenotificationthrottle"), "0")
    case CWMPRetryMinimumWaitInterval => OptionOr(source, Management("retry_minimum_wait"), "5")
    case CWMPRetryIntervalMultiplier => OptionOr(source, Management("retry_multiplier"), "2000")
  }

  predicate IsComputed(p: Parameter) {
    p == SerialNumber || p == SoftwareVersion || p == ConnectionRequestURL
  }

  predicate IsConstant(p: Parameter) {
    p == RootDataModelVersion || p == Manufacturer || p == ManufacturerOUI || p == ProductClass || p == ModelName
  }

  lemma Sections()
    ensures "tr69" + "." + "mgmt_srv" + "." == "tr69.mgmt_srv."
    ensures "tr69" + "." + "periodic_inform" + "." == "tr69.periodic_inform."
    ensures "tr69" + "." + "conn_request" + "." == "tr69.conn_request."
  {
  }

  lemma StoredReads(p: Parameter, source: Source, getters: Getters)
    requires !IsComputed(p) && !IsConstant(p)
    ensures ReadSpec(SpecOf(p), source, getters, true) == Shown(p, source, getters)
  {
    Sections();
  }

  lemma ConstantReads(p: Parameter, source: Source, getters: Getters)
    requires IsConstant(p)
    ensures ReadSpec(SpecOf(p), source, getters, true) == Shown(p, source, getters)
  {
  }

  lemma ComputedReads(p: Parameter, source: Source, getters: Getters)
    requires IsComputed(p)
    ensures ReadSpec(SpecOf(p), source, getters, true) == Shown(p, source, getters)
  {
  }

  lemma SpecReads(p: Parameter, source: Source, getters: Getters)
    ensures ReadSpec(SpecOf(p), source, getters, true) == Shown(p, source, getters)
  {
    hide SpecOf, ReadSpec, Shown;
    if IsComputed(p) {
      ComputedReads(p, source, getters);
    } else if IsConstant(p) {
      ConstantReads(p, source, getters);
    } else {
      StoredReads(p, source, getters);
    }
  }

  /** A parameter with neither getter, option nor default reads as empty; Device.map has none. */
  lemma NothingToRead(spec: ParamSpec, source: Source, getters: Getters, showSecrets: bool)
    requires spec.getter.None? && spec.uci.None? && spec.default.None?
    ensures ReadSpec(spec, source, getters, showSecrets) == ""
  {
  }

  // A parameter's value and type as an ACS gets them.
  ghost predicate IsAnswerFor(v: Value, path: string, source: Source, getters: Getters) {
    exists p :: PathOf(p) == path && v.name == path && v.typeName == "xsd:" + Acceptance.TypeName(p) &&
                v.value == if p == Password || p == ConnectionRequestPassword then "" else Shown(p, source, getters)
  }

  /** Every parameter is answered with its own option, default or getter, under its own type; the passwords are empty. */
  lemma ValueIsShown(p: Parameter, source: Source, getters: Getters)
    ensures DeviceParameters(PathOf(p)).Some?
    ensures IsAnswerFor(ValueOf(DeviceParameters, source, getters, PathOf(p), false), PathOf(p), source, getters)
  {
    hide ParameterAt, PathOf, SpecOf, ReadSpec, Shown, Acceptance.TypeName;
    PathsAreDistinct(p);
    SecretParameters(p);
    SpecReads(p, source, getters);
    Acceptance.TableIsDescribed(p);
    if p == Password || p == ConnectionRequestPassword {
      SecretIsEmpty(SpecOf(p), source, getters);
    } else {
      PlainIsShown(SpecOf(p), source, getters);
    }
  }

  lemma SecretIsEmpty(spec: ParamSpec, source: Source, getters: Getters)
    requires spec.secret
    ensures ReadSpec(spec, source, getters, false) == ""
  {
  }

  lemma PlainIsShown(spec: ParamSpec, source: Source, getters: Getters)
    requires !spec.secret
    ensures ReadSpec(spec, source, getters, false) == ReadSpec(spec, source, getters, true)
  {
  }

  // The known paths among the requested ones, in order, and the others.
  ghost predicate IsKnown(path: string) {
    exists p :: PathOf(p) == path
  }

  lemma KnownIsKnown(path: string)
    ensures IsKnown(path) <==> DeviceParameters(path).Some?
  {
    hide ParameterAt, PathOf, SpecOf;
    if ParameterAt(path).Some? {
      PathsAreFound(path);
      assert PathOf(ParameterAt(path).value) == path;
    }
    if p :| PathOf(p) == path {
      PathsAreDistinct(p);
    }
  }

  // ---------------------------------------------------------------------
  // The configuration.

  predicate IsYes(text: string) {
    text in ["1", "true", "yes", "on"]
  }

  function FlagOr(source: Source, key: string, default: bool): bool {
    match source(key)
    case Some(text) => IsYes(text)
    case None => default
  }

  // What a number option is read as: a numeral of 32 bits has its value, a text that ends in no digit the default.
  ghost predicate IsNumberOf(n: nat, value: Option<string>, default: nat, least: nat) {
    match value
    case None => n == Max(least, default)
    case Some(text) =>
      && (IsNumeral(text) && DecimalValue(text) < UINT_RANGE ==> n == Max(least, DecimalValue(text)))
      && (text == "" || !IsDigit(text[|text| - 1]) ==> n == Max(least, default))
  }

  lemma NumbersAreRead(value: Option<string>, default: nat, least: nat, m: nat)
    requires IsUlongMax(m)
    ensures IsNumberOf(Max(least, GetUnsigned(value, default, m)), value, default, least)
  {
    hide Stoul, DecimalValue, IsNumeral;
    if value.Some? {
      if IsNumeral(value.value) {
        StoulOfNumeral(value.value, m);
        NumeralEndsInDigit(value.value);
      }
      WholeTextEndsInDigit(value.value, m);
    }
  }

  lemma NumeralEndsInDigit(s: string)
    requires IsNumeral(s)
    ensures s != "" && IsDigit(s[|s| - 1])
  {
  }

  lemma WholeTextEndsInDigit(s: string, m: nat)
    ensures Stoul(s, m).Some? && Stoul(s, m).value.consumed == |s| ==> s != "" && IsDigit(s[|s| - 1])
  {
    hide DecimalValue;
    var spaces := SpacesBefore(s);
    var t := s[spaces..];
    var sign := if t != "" && (t[0] == '+' || t[0] == '-') then 1 else 0;
    var digits := DigitsBefore(t[sign..]);
    if digits > 0 && spaces + sign + digits == |s| {
      assert IsDigit(t[sign..][digits - 1]);
    }
  }

  /** Every field of the configuration, by its option: what it is when the option is there, and when it is not. */
  lemma ConfigIsDecoded(source: Source, platform: Platform)
    requires IsUlongMax(platform.ulongMax)
    ensures var c := Decode(source, platform);
            && c.enableCwmp == (OptionOr(source, Management("enable"), "true") == "true")
            && c.periodicEnable == (OptionOr(source, PeriodicInform("enable"), "true") == "true")
            && c.upgradesManaged == (OptionOr(source, Management("upgrades_managed"), "false") == "true")
            && c.acsUrl == OptionOr(source, Management("url"), "")
            && c.acsUsername == OptionOr(source, Management("username"), "")
            && c.acsPassword == OptionOr(source, Management("password"), "")
            && c.periodicInformTime == OptionOr(source, PeriodicInform("time"), "1970-01-01T00:00:00Z")
            && c.listener.username == OptionOr(source, ListenerOption("username"), "")
            && c.listener.password == OptionOr(source, ListenerOption("password"), "")
  {
    hide ReadSpec, SpecOf, GetUnsigned, GetBool, PeriodicIntervalOf, ThrottleOf, OptionOr, SettingKey;
    SpecReads(EnableCWMP, source, NoAnswers());
    SpecReads(PeriodicInformEnable, source, NoAnswers());
    SpecReads(UpgradesManaged, source, NoAnswers());
    SpecReads(URL, source, NoAnswers());
    SpecReads(Username, source, NoAnswers());
    SpecReads(Password, source, NoAnswers());
    SpecReads(PeriodicInformTime, source, NoAnswers());
    SpecReads(ConnectionRequestUsername, source, NoAnswers());
    SpecReads(ConnectionRequestPassword, source, NoAnswers());
  }

  lemma OwnKeys()
    ensures SettingKey(CaFile) == "tr69.settings.ssl_ca_cert_path"
    ensures SettingKey(CnVerification) == "tr69.settings.ssl_cn_verification"
    ensures SettingKey(MockMode) == "tr69.settings.mock_mode"
    ensures SettingKey(BootstrapDone) == "tr69.settings.bootstrap_done"
    ensures SettingKey(PendingReboot) == "tr69.settings.pending_reboot_event"
    ensures SettingKey(ListenerEnable) == "tr69.conn_request.enable"
  {
  }

  lemma ListenerKeys()
    ensures SettingKey(Bind) == "tr69.settings.bind" && SettingKey(Port) == "tr69.settings.port"
    ensures SettingKey(Auth) == "tr69.conn_request.auth"
    ensures SettingKey(RetryWait) == "tr69.mgmt_srv.retry_minimum_wait"
    ensures SettingKey(RetryMultiplier) == "tr69.mgmt_srv.retry_multiplier"
  {
  }

  lemma FlagsAreDecoded(source: Source, platform: Platform)
    ensures var c := Decode(source, platform);
            && c.insecureTls == !FlagOr(source, "tr69.settings.ssl_cn_verification", true)
            && c.mockMode == (platform.allowMockReboot && FlagOr(source, "tr69.settings.mock_mode", false))
            && c.bootstrapDone == FlagOr(source, "tr69.settings.bootstrap_done", false)
            && c.pendingRebootEvent == FlagOr(source, "tr69.settings.pending_reboot_event", false)
            && c.connectionRequestEnable == FlagOr(source, "tr69.conn_request.enable", true)
  {
    hide Internal, SpecOf, GetUnsigned, PeriodicIntervalOf, ThrottleOf, GetBool, IsYes, SettingKey;
    OwnKeys();
    YesIsTrue(source(SettingKey(CnVerification)), true);
    YesIsTrue(source(SettingKey(MockMode)), false);
    YesIsTrue(source(SettingKey(BootstrapDone)), false);
    YesIsTrue(source(SettingKey(PendingReboot)), false);
    YesIsTrue(source(SettingKey(ListenerEnable)), true);
  }

  lemma TextsAreDecoded(source: Source, platform: Platform)
    ensures var c := Decode(source, platform);
            && c.caFile == AnswerOr(source("tr69.settings.ssl_ca_cert_path"), "")
            && c.listener.bindAddress == AnswerOr(source("tr69.settings.bind"), "0.0.0.0")
            && c.listener.auth == AnswerOr(source("tr69.conn_request.auth"), "Digest")
            && c.listener.realm == "tr069d"
  {
    hide Internal, SpecOf, GetUnsigned, PeriodicIntervalOf, ThrottleOf, GetBool, SettingKey;
    OwnKeys();
    ListenerKeys();
  }

  lemma YesIsTrue(value: Option<string>, default: bool)
    ensures GetBool(value, default) == if value.Some? then IsYes(value.value) else default
  {
  }

  lemma NumbersAreDecoded(source: Source, platform: Platform)
    requires IsUlongMax(platform.ulongMax)
    ensures var c := Decode(source, platform);
            && IsNumberOf(c.listener.port, source("tr69.settings.port"), 7547, 0)
            && IsNumberOf(c.retryMinimumWait, source("tr69.mgmt_srv.retry_minimum_wait"), 5, 1)
            && IsNumberOf(c.retryMultiplier, source("tr69.mgmt_srv.retry_multiplier"), 2000, 1000)
            && c.periodicInterval ==
               PeriodicIntervalOf(OptionOr(source, PeriodicInform("interval"), "300"), platform.ulongMax)
            && c.throttle ==
               ThrottleOf(OptionOr(source, Management("defaultactivenotificationthrottle"), "0"), platform.ulongMax)
  {
    hide ReadSpec, SpecOf, GetUnsigned, PeriodicIntervalOf, ThrottleOf, GetBool, IsNumberOf, OptionOr, SettingKey;
    ListenerKeys();
    var m := platform.ulongMax;
    NumbersAreRead(source("tr69.settings.port"), 7547, 0, m);
    NumbersAreRead(source("tr69.mgmt_srv.retry_minimum_wait"), 5, 1, m);
    NumbersAreRead(source("tr69.mgmt_srv.retry_multiplier"), 2000, 1000, m);
    SpecReads(PeriodicInformInterval, source, NoAnswers());
    SpecReads(DefaultActiveNotificationThrottle, source, NoAnswers());
  }

  /** The interval and the throttle, from any numeral that fits, and from a text that begins with a letter or is empty. */
  lemma TimersAreRead(text: string, m: nat)
    requires IsUlongMax(m)
    ensures IsNumeral(text) && DecimalValue(text) < UINT_RANGE ==>
              PeriodicIntervalOf(text, m) == Max(1, DecimalValue(text)) && ThrottleOf(text, m) == DecimalValue(text)
    ensures text == "" || 'a' <= text[0] <= 'z' || 'A' <= text[0] <= 'Z' ==>
              PeriodicIntervalOf(text, m) == 300 && ThrottleOf(text, m) == 0
  {
    hide Stoul, DecimalValue, IsNumeral;
    if IsNumeral(text) {
      StoulOfNumeral(text, m);
      NumeralStartsWithDigit(text);
    }
    LettersAreNoNumber(text, m);
  }

  lemma LettersAreNoNumber(text: string, m: nat)
    ensures text == "" || 'a' <= text[0] <= 'z' || 'A' <= text[0] <= 'Z' ==> Stoul(text, m).None?
  {
    assert text[0..] == text;
  }

  lemma NumeralStartsWithDigit(s: string)
    requires IsNumeral(s)
    ensures s != "" && IsDigit(s[0])
  {
  }
}
