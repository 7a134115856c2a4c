/** Parameter descriptions, and the table of transformer/maps/Device.map. */
module DeviceMap {
  import opened Wrappers
  import opened Text
  import opened UciCommands

  datatype Access = ReadOnly | ReadWrite

  datatype ValueType = String | Boolean | UnsignedInt | Int | DateTime {
    function Name(): string {
      match this
      case String => "string"
      case Boolean => "boolean"
      case UnsignedInt => "unsignedInt"
      case Int => "int"
      case DateTime => "dateTime"
    }
  }

  datatype Getter = GetSerialNumber | GetSoftwareVersion | GetConnectionRequestUrl

  datatype Range = Range(min: int, max: int)

  datatype UciLocation = UciLocation(config: string, section: string, option: string)

  datatype ParamSpec = ParamSpec(
    access: Access,
    valueType: ValueType,
    default: Option<string>,
    max: Option<nat>,
    required: bool,
    secret: bool,
    getter: Option<Getter>,
    range: Option<seq<Range>>,
    enumeration: Option<seq<string>>,
    uci: Option<UciLocation>)

  // A parameter table: the description of each known path.
  type Model = string -> Option<ParamSpec>

  // transformer/transformer.lua:109-111
  function UciKey(spec: ParamSpec): string
    requires spec.uci.Some?
  {
    var loc := spec.uci.value;
    loc.config + "." + loc.section + "." + loc.option
  }

  ghost predicate WellFormed(model: Model) {
    forall path :: model(path).Some? && model(path).value.uci.Some? ==> IsKey(UciKey(model(path).value))
  }

  predicate IsStored(model: Model, path: string) {
    model(path).Some? && model(path).value.uci.Some?
  }

  // No two parameters share a UCI option.
  ghost predicate KeysAreDistinct(model: Model) {
    forall p, q :: IsStored(model, p) && IsStored(model, q) && UciKey(model(p).value) == UciKey(model(q).value) ==> p == q
  }

  // ---------------------------------------------------------------------
  // The table.

  const PLAIN := ParamSpec(ReadOnly, String, None, None, false, false, None, None, None, None)

  function Stored(section: string, option: string, spec: ParamSpec): ParamSpec {
    spec.(uci := Some(UciLocation("tr69", section, option)))
  }

  datatype Parameter =
    | RootDataModelVersion
    | Manufacturer
    | ManufacturerOUI
    | ProductClass
    | ModelName
    | SerialNumber
    | SoftwareVersion
    | EnableCWMP
    | URL
    | Username
    | Password
    | ParameterKey
    | PeriodicInformEnable
    | PeriodicInformInterval
    | PeriodicInformTime
    | ConnectionRequestUsername
    | ConnectionRequestPassword
    | ConnectionRequestAuthentication
    | ConnectionRequestURL
    | UpgradesManaged
    | DefaultActiveNotificationThrottle
    | CWMPRetryMinimumWaitInterval
    | CWMPRetryIntervalMultiplier

  function PathOf(p: Parameter): string {
    match p
    case RootDataModelVersion => "Device.RootDataModelVersion"
    case Manufacturer => "Device.DeviceInfo.Manufacturer"
    case ManufacturerOUI => "Device.DeviceInfo.ManufacturerOUI"
    case ProductClass => "Device.DeviceInfo.ProductClass"
    case ModelName => "Device.DeviceInfo.ModelName"
    case SerialNumber => "Device.DeviceInfo.SerialNumber"
    case SoftwareVersion => "Device.DeviceInfo.SoftwareVersion"
    case EnableCWMP => "Device.ManagementServer.EnableCWMP"
    case URL => "Device.ManagementServer.URL"
    case Username => "Device.ManagementServer.Username"
    case Password => "Device.ManagementServer.Password"
    case ParameterKey => "Device.ManagementServer.ParameterKey"
    case PeriodicInformEnable => "Device.ManagementServer.PeriodicInformEnable"
    case PeriodicInformInterval => "Device.ManagementServer.PeriodicInformInterval"
    case PeriodicInformTime => "Device.ManagementServer.PeriodicInformTime"
    case ConnectionRequestUsername => "Device.ManagementServer.ConnectionRequestUsername"
    case ConnectionRequestPassword => "Device.ManagementServer.ConnectionRequestPassword"
    case ConnectionRequestAuthentication => "Device.ManagementServer.ConnectionRequestAuthentication"
    case ConnectionRequestURL => "Device.ManagementServer.ConnectionRequestURL"
    case UpgradesManaged => "Device.ManagementServer.UpgradesManaged"
    case DefaultActiveNotificationThrottle => "Device.ManagementServer.DefaultActiveNotificationThrottle"
    case CWMPRetryMinimumWaitInterval => "Device.ManagementServer.CWMPRetryMinimumWaitInterval"
    case CWMPRetryIntervalMultiplier => "Device.ManagementServer.CWMPRetryIntervalMultiplier"
  }

  function ParameterAt(path: string): Option<Parameter> {
    if path == PathOf(RootDataModelVersion) then Some(RootDataModelVersion)
    else if path == PathOf(Manufacturer) then Some(Manufacturer)
    else if path == PathOf(ManufacturerOUI) then Some(ManufacturerOUI)
    else if path == PathOf(ProductClass) then Some(ProductClass)
    else if path == PathOf(ModelName) then Some(ModelName)
    else if path == PathOf(SerialNumber) then Some(SerialNumber)
    else if path == PathOf(SoftwareVersion) then Some(SoftwareVersion)
    else if path == PathOf(EnableCWMP) then Some(EnableCWMP)
    else if path == PathOf(URL) then Some(URL)
    else if path == PathOf(Username) then Some(Username)
    else if path == PathOf(Password) then Some(Password)
    else if path == PathOf(ParameterKey) then Some(ParameterKey)
    else if path == PathOf(PeriodicInformEnable) then Some(PeriodicInformEnable)
    else if path == PathOf(PeriodicInformInterval) then Some(PeriodicInformInterval)
    else if path == PathOf(PeriodicInformTime) then Some(PeriodicInformTime)
    else if path == PathOf(ConnectionRequestUsername) then Some(ConnectionRequestUsername)
    else if path == PathOf(ConnectionRequestPassword) then Some(ConnectionRequestPassword)
    else if path == PathOf(ConnectionRequestAuthentication) then Some(ConnectionRequestAuthentication)
    else if path == PathOf(ConnectionRequestURL) then Some(ConnectionRequestURL)
    else if path == PathOf(UpgradesManaged) then Some(UpgradesManaged)
    else if path == PathOf(DefaultActiveNotificationThrottle) then Some(DefaultActiveNotificationThrottle)
    else if path == PathOf(CWMPRetryMinimumWaitInterval) then Some(CWMPRetryMinimumWaitInterval)
    else if path == PathOf(CWMPRetryIntervalMultiplier) then Some(CWMPRetryIntervalMultiplier)
    else None
  }

  function SpecOf(p: Parameter): ParamSpec {
    match p
    case RootDataModelVersion => PLAIN.(default := Some("2.18"))
    case Manufacturer => PLAIN.(default := Some("dev"))
    case ManufacturerOUI => PLAIN.(default := Some("000000"))
    case ProductClass => PLAIN.(default := Some("OpenWrt-RPi5"))
    case ModelName => PLAIN.(default := Some("Raspberry Pi 5"))
    case SerialNumber => PLAIN.(getter := Some(GetSerialNumber), default := Some("UNKNOWN"))
    case SoftwareVersion => PLAIN.(getter := Some(GetSoftwareVersion), default := Some("OpenWrt"))
    case EnableCWMP => Stored("mgmt_srv", "enable", PLAIN.(access := ReadWrite, valueType := Boolean, default := Some("true")))
    case URL => Stored("mgmt_srv", "url", PLAIN.(access := ReadWrite, max := Some(512), required := true))
    case Username => Stored("mgmt_srv", "username", PLAIN.(access := ReadWrite, max := Some(256)))
    case Password => Stored("mgmt_srv", "password", PLAIN.(access := ReadWrite, max := Some(256), secret := true))
    case ParameterKey => Stored("mgmt_srv", "parameter_key", PLAIN.(max := Some(32), default := Some("")))
    case PeriodicInformEnable => Stored("periodic_inform", "enable",
        PLAIN.(access := ReadWrite, valueType := Boolean, default := Some("true")))
    case PeriodicInformInterval => Stored("periodic_inform", "interval",
        PLAIN.(access := ReadWrite, valueType := UnsignedInt, range := Some([Range(1, 4294967295)]),
        default := Some("300")))
    case PeriodicInformTime => Stored("periodic_inform", "time",
        PLAIN.(access := ReadWrite, valueType := DateTime, default := Some("1970-01-01T00:00:00Z")))
    case ConnectionRequestUsername => Stored("conn_request", "username", PLAIN.(access := ReadWrite, max := Some(256)))
    case ConnectionRequestPassword => Stored("conn_request", "password", PLAIN.(access := ReadWrite, max := Some(256), secret := true))
    case ConnectionRequestAuthentication => Stored("conn_request", "auth",
        PLAIN.(access := ReadWrite, enumeration := Some(["None", "Digest"]), default := Some("None")))
    case ConnectionRequestURL => PLAIN.(getter := Some(GetConnectionRequestUrl))
    case UpgradesManaged => Stored("mgmt_srv", "upgrades_managed",
        PLAIN.(access := ReadWrite, valueType := Boolean, default := Some("false")))
    case DefaultActiveNotificationThrottle => Stored("mgmt_srv", "defaultactivenotificationthrottle",
        PLAIN.(access := ReadWrite, valueType := UnsignedInt, default := Some("0")))
    case CWMPRetryMinimumWaitInterval => Stored("mgmt_srv", "retry_minimum_wait",
        PLAIN.(access := ReadWrite, valueType := UnsignedInt, range := Some([Range(1, 65535)]), default := Some("5")))
    case CWMPRetryIntervalMultiplier => Stored("mgmt_srv", "retry_multiplier",
        PLAIN.(access := ReadWrite, valueType := UnsignedInt, range := Some([Range(1000, 65535)]),
        default := Some("2000")))
  }

  function DeviceParameters(path: string): Option<ParamSpec> {
    match ParameterAt(path)
    case Some(p) => Some(SpecOf(p))
    case None => None
  }

  const PARAMETER_KEY := PathOf(ParameterKey)

  // ---------------------------------------------------------------------
  // Facts about the table that the transaction theorems rest on.

  lemma PathsAreFound(path: string)
    requires ParameterAt(path).Some?
    ensures path == PathOf(ParameterAt(path).value)
  {
  }

  // The length and one character tell the paths apart.
  function Mark(path: string): (int, char)
    requires |path| > 8
  {
    (|path|, path[|path| - 8])
  }

  function MarkOf(p: Parameter): (int, char) {
    match p
    case RootDataModelVersion => (27, 'l')
    case Manufacturer => (30, 'f')
    case ManufacturerOUI => (33, 't')
    case ProductClass => (30, 'u')
    case ModelName => (27, 'o')
    case SerialNumber => (30, 'a')
    case SoftwareVersion => (33, 'e')
    case EnableCWMP => (34, 'a')
    case URL => (27, 'r')
    case Username => (32, 'U')
    case Password => (32, 'P')
    case ParameterKey => (36, 'm')
    case PeriodicInformEnable => (44, 'r')
    case PeriodicInformInterval => (46, 'I')
    case PeriodicInformTime => (42, 'f')
    case ConnectionRequestUsername => (49, 'U')
    case ConnectionRequestPassword => (49, 'P')
    case ConnectionRequestAuthentication => (55, 't')
    case ConnectionRequestURL => (44, 'q')
    case UpgradesManaged => (39, 's')
    case DefaultActiveNotificationThrottle => (57, 'T')
    case CWMPRetryMinimumWaitInterval => (52, 'I')
    case CWMPRetryIntervalMultiplier => (51, 'l')
  }

  lemma PathHasMark(p: Parameter)
    ensures |PathOf(p)| > 8 && Mark(PathOf(p)) == MarkOf(p)
  {
    hide PathOf, Mark, MarkOf;
    if MarkOf(p).0 < 33 {
      ShortPathHasMark(p);
    } else if MarkOf(p).0 < 46 {
      MediumPathHasMark(p);
    } else if MarkOf(p).0 < 51 {
      LongPathHasMark(p);
    } else {
      LongestPathHasMark(p);
    }
  }

  lemma ShortPathHasMark(p: Parameter)
    requires MarkOf(p).0 < 33
    ensures |PathOf(p)| > 8 && Mark(PathOf(p)) == MarkOf(p)
  {
  }

  lemma MediumPathHasMark(p: Parameter)
    requires 33 <= MarkOf(p).0 < 46
    ensures |PathOf(p)| > 8 && Mark(PathOf(p)) == MarkOf(p)
  {
  }

  lemma LongPathHasMark(p: Parameter)
    requires 46 <= MarkOf(p).0 < 51
    ensures |PathOf(p)| > 8 && Mark(PathOf(p)) == MarkOf(p)
  {
  }

  lemma LongestPathHasMark(p: Parameter)
    requires 51 <= MarkOf(p).0
    ensures |PathOf(p)| > 8 && Mark(PathOf(p)) == MarkOf(p)
  {
  }

  lemma MarksAreDistinct(p: Parameter, q: Parameter)
    requires MarkOf(p) == MarkOf(q)
    ensures p == q
  {
  }

  lemma PathIsFound(p: Parameter)
    ensures ParameterAt(PathOf(p)).Some?
  {
    hide PathOf;
  }

  lemma PathsAreDistinct(p: Parameter)
    ensures ParameterAt(PathOf(p)) == Some(p)
  {
    hide PathOf, Mark, MarkOf, ParameterAt;
    PathIsFound(p);
    var q := ParameterAt(PathOf(p)).value;
    PathsAreFound(PathOf(p));
    PathHasMark(p);
    PathHasMark(q);
    MarksAreDistinct(p, q);
  }

  predicate IsUciName(s: string) {
    s != "" && forall i :: 0 <= i < |s| ==> IsKeyChar(s[i]) && s[i] != '.'
  }

  predicate HasNames(loc: UciLocation) {
    loc.config == "tr69" && IsUciName(loc.section) && IsUciName(loc.option)
  }

  lemma LocationsAreNames(p: Parameter)
    requires SpecOf(p).uci.Some?
    ensures HasNames(SpecOf(p).uci.value)
  {
    hide IsUciName;
    NamesInUse();
    LongNamesInUse();
  }

  lemma NamesInUse()
    ensures IsUciName("mgmt_srv") && IsUciName("periodic_inform") && IsUciName("conn_request")
    ensures IsUciName("enable") && IsUciName("url") && IsUciName("username") && IsUciName("password")
    ensures IsUciName("parameter_key") && IsUciName("interval") && IsUciName("time") && IsUciName("auth")
  {
  }

  lemma LongNamesInUse()
    ensures IsUciName("upgrades_managed") && IsUciName("defaultactivenotificationthrottle")
    ensures IsUciName("retry_minimum_wait") && IsUciName("retry_multiplier")
  {
  }

  lemma KeyOfNames(loc: UciLocation)
    requires HasNames(loc)
    ensures IsKey(loc.config + "." + loc.section + "." + loc.option)
  {
  }

  lemma DeviceMapIsWellFormed()
    ensures WellFormed(DeviceParameters)
  {
    hide ParameterAt, SpecOf, HasNames;
    forall path | IsStored(DeviceParameters, path) ensures IsKey(UciKey(DeviceParameters(path).value)) {
      var p := ParameterAt(path).value;
      LocationsAreNames(p);
      KeyOfNames(SpecOf(p).uci.value);
    }
  }

  // The parameter that owns a UCI option.
  function Owner(section: string, option: string): Parameter {
    if section == "mgmt_srv" then
      if option == "enable" then EnableCWMP
      else if option == "url" then URL
      else if option == "username" then Username
      else if option == "password" then Password
      else if option == "parameter_key" then ParameterKey
      else if option == "upgrades_managed" then UpgradesManaged
      else if option == "retry_minimum_wait" then CWMPRetryMinimumWaitInterval
      else if option == "retry_multiplier" then CWMPRetryIntervalMultiplier
      else DefaultActiveNotificationThrottle
    else if section == "periodic_inform" then
      if option == "enable" then PeriodicInformEnable
      else if option == "interval" then PeriodicInformInterval
      else PeriodicInformTime
    else
      if option == "username" then ConnectionRequestUsername
      else if option == "password" then ConnectionRequestPassword
      else ConnectionRequestAuthentication
  }

  lemma OwnerOfLocation(p: Parameter)
    requires SpecOf(p).uci.Some?
    ensures var loc := SpecOf(p).uci.value; Owner(loc.section, loc.option) == p
  {
    assert "username"[0] != "password"[0];
    assert "upgrades_managed"[0] != "retry_multiplier"[0];
  }

  lemma DotSplits(a: string, b: string, c: string, d: string)
    requires IsUciName(a) && IsUciName(b) && IsUciName(c) && IsUciName(d)
    requires a + "." + b == c + "." + d
    ensures a == c && b == d
  {
    var s, t := a + "." + b, c + "." + d;
    assert s[|a|] == '.' && t[|c|] == '.';
    assert |a| == |c|;
    assert a == s[..|a|] && c == t[..|c|];
    assert b == s[|a| + 1..] && d == t[|c| + 1..];
  }

  lemma KeysDetermineLocations(a: UciLocation, b: UciLocation)
    requires HasNames(a) && HasNames(b)
    requires a.config + "." + a.section + "." + a.option == b.config + "." + b.section + "." + b.option
    ensures a == b
  {
    var s, t := a.section + "." + a.option, b.section + "." + b.option;
    var u, v := a.config + "." + a.section + "." + a.option, b.config + "." + b.section + "." + b.option;
    assert u == "tr69." + s && v == "tr69." + t;
    assert s == u[5..] && t == v[5..];
    DotSplits(a.section, a.option, b.section, b.option);
  }

  /** No two parameters of Device.map share a UCI option. */
  lemma DeviceMapKeysAreDistinct()
    ensures KeysAreDistinct(DeviceParameters)
  {
    hide ParameterAt, SpecOf, Owner, HasNames, PathOf;
    forall p, q | IsStored(DeviceParameters, p) && IsStored(DeviceParameters, q) &&
                  UciKey(DeviceParameters(p).value) == UciKey(DeviceParameters(q).value)
      ensures p == q
    {
      PathsAreFound(p);
      PathsAreFound(q);
      var a, b := ParameterAt(p).value, ParameterAt(q).value;
      LocationsAreNames(a);
      LocationsAreNames(b);
      KeysDetermineLocations(SpecOf(a).uci.value, SpecOf(b).uci.value);
      OwnerOfLocation(a);
      OwnerOfLocation(b);
    }
  }
}
