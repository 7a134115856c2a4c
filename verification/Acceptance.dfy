/**
 Which requests the data model of transformer/maps/Device.map accepts, parameter by
 parameter: the reference that the table-driven checks of the transaction are compared with.
 */
module Acceptance {
  import opened Wrappers
  import opened Text
  import opened UciCommands
  import opened DeviceMap
  import opened Validation
  import opened Transaction
  import opened Reading

  // ---------------------------------------------------------------------
  // One parameter.

  predicate IsWritable(p: Parameter) {
    p in {EnableCWMP, URL, Username, Password, PeriodicInformEnable, PeriodicInformInterval, PeriodicInformTime,
          ConnectionRequestUsername, ConnectionRequestPassword, ConnectionRequestAuthentication, UpgradesManaged,
          DefaultActiveNotificationThrottle, CWMPRetryMinimumWaitInterval, CWMPRetryIntervalMultiplier}
  }

  function TypeName(p: Parameter): string {
    match p
    case EnableCWMP | PeriodicInformEnable | UpgradesManaged => "boolean"
    case PeriodicInformInterval | DefaultActiveNotificationThrottle => "unsignedInt"
    case CWMPRetryMinimumWaitInterval | CWMPRetryIntervalMultiplier => "unsignedInt"
    case PeriodicInformTime => "dateTime"
    case _ => "string"
  }

  function UpTo(raw: string, limit: nat): Checked {
    if |raw| <= limit then Good(raw) else Bad("value exceeds maximum length")
  }

  function Between(raw: string, least: nat, greatest: nat): Checked {
    if !IsNumeral(raw) then Bad("expected unsignedInt")
    else if least <= DecimalValue(raw) <= greatest then Good(raw)
    else Bad("value outside allowed range")
  }

  // The words for true and false, in any letter case.
  function TruthValue(raw: string): Checked {
    if Lower(raw) in ["1", "true", "yes", "on"] then Good("true")
    else if Lower(raw) in ["0", "false", "no", "off"] then Good("false")
    else Bad("expected boolean")
  }

  // yyyy-mm-ddThh:mm:ss, and anything after it.
  predicate LooksLikeTime(s: string) {
    && |s| >= 19
    && s[4] == '-' && s[7] == '-' && s[10] == 'T' && s[13] == ':' && s[16] == ':'
    && forall i :: i in {0, 1, 2, 3, 5, 6, 8, 9, 11, 12, 14, 15, 17, 18} ==> IsDigit(s[i])
  }

  // What becomes of a value: the form it is stored in, or the complaint.
  function Judged(p: Parameter, raw: string): Checked {
    match p
    case EnableCWMP | PeriodicInformEnable | UpgradesManaged => TruthValue(raw)
    case URL => if raw == "" then Bad("value is required") else UpTo(raw, 512)
    case Username | Password | ConnectionRequestUsername | ConnectionRequestPassword => UpTo(raw, 256)
    case ParameterKey => UpTo(raw, 32)
    case PeriodicInformInterval => Between(raw, 1, 4294967295)
    case CWMPRetryMinimumWaitInterval => Between(raw, 1, 65535)
    case CWMPRetryIntervalMultiplier => Between(raw, 1000, 65535)
    case DefaultActiveNotificationThrottle => if IsNumeral(raw) then Good(raw) else Bad("expected unsignedInt")
    case PeriodicInformTime => if LooksLikeTime(raw) then Good(raw) else Bad("expected ISO-8601 dateTime")
    case ConnectionRequestAuthentication =>
      if raw == "None" || raw == "Digest" then Good(raw) else Bad("value not in enumeration")
    case _ => Good(raw)
  }

  lemma TimesMatch(s: string)
    ensures MatchesDateTime(s) <==> LooksLikeTime(s)
  {
    if MatchesDateTime(s) {
      assert DATE_TIME_SHAPE[4] == '-' && DATE_TIME_SHAPE[7] == '-' && DATE_TIME_SHAPE[10] == 'T';
      assert DATE_TIME_SHAPE[13] == ':' && DATE_TIME_SHAPE[16] == ':';
      forall i | i in {0, 1, 2, 3, 5, 6, 8, 9, 11, 12, 14, 15, 17, 18} ensures IsDigit(s[i]) {
        assert DATE_TIME_SHAPE[i] == 'd';
      }
    }
  }

  lemma OneRange(number: int, least: int, greatest: int)
    ensures InSomeRange(number, [Range(least, greatest)]) <==> least <= number <= greatest
  {
    var ranges := [Range(least, greatest)];
    if least <= number <= greatest {
      assert ranges[0].min <= number <= ranges[0].max;
    }
  }

  lemma NumeralsAreChecked(spec: ParamSpec, raw: string, least: nat, greatest: nat)
    requires spec.valueType == UnsignedInt && spec.range == Some([Range(least, greatest)])
    requires !spec.required && spec.max.None? && spec.enumeration.None?
    ensures Normalize(spec, raw) == Between(raw, least, greatest)
  {
    hide InSomeRange, DecimalValue, Lower, MatchesDateTime;
    if IsNumeral(raw) {
      OneRange(DecimalValue(raw), least, greatest);
    }
  }

  /** Whole numbers, of which Device.map has none: an optional minus sign, digits, and the range. */
  lemma IntegersAreChecked(spec: ParamSpec, n: nat, least: int, greatest: int)
    requires spec.valueType == Int && spec.range == Some([Range(least, greatest)])
    requires !spec.required && spec.max.None? && spec.enumeration.None?
    ensures Normalize(spec, Decimal(n)) ==
            if least <= n <= greatest then Good(Decimal(n)) else Bad("value outside allowed range")
    ensures Normalize(spec, "-" + Decimal(n)) ==
            if least <= 0 - n <= greatest then Good("-" + Decimal(n)) else Bad("value outside allowed range")
  {
    hide InSomeRange, DecimalValue, Decimal, Lower, MatchesDateTime;
    DecimalReadsBack(n);
    OneRange(n, least, greatest);
    OneRange(0 - n, least, greatest);
    assert ("-" + Decimal(n))[1..] == Decimal(n);
    assert !IsDigit('-');
    assert !IsNumeral("-" + Decimal(n)) by { assert !IsDigit(("-" + Decimal(n))[0]); }
  }

  lemma OthersAreNoIntegers(spec: ParamSpec, raw: string)
    requires spec.valueType == Int && !spec.required && spec.max.None?
    requires !IsNumeral(raw) && !(raw != "" && raw[0] == '-' && IsNumeral(raw[1..]))
    ensures Normalize(spec, raw) == Bad("expected int")
  {
    hide Lower, MatchesDateTime;
  }

  lemma TextsAreChecked(spec: ParamSpec, raw: string, limit: nat)
    requires spec.valueType == String && spec.max == Some(limit) && spec.range.None? && spec.enumeration.None?
    ensures Normalize(spec, raw) == if spec.required && raw == "" then Bad("value is required") else UpTo(raw, limit)
  {
    hide Lower, MatchesDateTime;
  }

  lemma TruthIsChecked(spec: ParamSpec, raw: string)
    requires spec.valueType == Boolean
    requires !spec.required && spec.max.None? && spec.range.None? && spec.enumeration.None?
    ensures Normalize(spec, raw) == TruthValue(raw)
  {
    hide Lower, MatchesDateTime;
  }

  lemma OthersAreChecked(p: Parameter, raw: string)
    requires p in {DefaultActiveNotificationThrottle, PeriodicInformTime, ConnectionRequestAuthentication}
    ensures Normalize(SpecOf(p), raw) == Judged(p, raw)
  {
    hide Lower, MatchesDateTime, LooksLikeTime;
    TimesMatch(raw);
  }

  /** The checks driven by the table come to these. */
  lemma NormalizeIsJudged(p: Parameter, raw: string)
    requires IsWritable(p) || p == ParameterKey
    ensures Normalize(SpecOf(p), raw) == Judged(p, raw)
  {
    hide Normalize, UpTo, Between, TruthValue, LooksLikeTime;
    match p
    case EnableCWMP | PeriodicInformEnable | UpgradesManaged => TruthIsChecked(SpecOf(p), raw);
    case URL => TextsAreChecked(SpecOf(p), raw, 512);
    case Username | Password | ConnectionRequestUsername | ConnectionRequestPassword =>
      TextsAreChecked(SpecOf(p), raw, 256);
    case ParameterKey => TextsAreChecked(SpecOf(p), raw, 32);
    case PeriodicInformInterval => NumeralsAreChecked(SpecOf(p), raw, 1, 4294967295);
    case CWMPRetryMinimumWaitInterval => NumeralsAreChecked(SpecOf(p), raw, 1, 65535);
    case CWMPRetryIntervalMultiplier => NumeralsAreChecked(SpecOf(p), raw, 1000, 65535);
    case DefaultActiveNotificationThrottle | PeriodicInformTime | ConnectionRequestAuthentication =>
      OthersAreChecked(p, raw);
  }

  lemma TableIsDescribed(p: Parameter)
    ensures SpecOf(p).access == ReadWrite && SpecOf(p).uci.Some? <==> IsWritable(p)
    ensures SpecOf(p).valueType.Name() == TypeName(p)
  {
  }

  // ---------------------------------------------------------------------
  // One declared type.

  // No declared type at all, the name alone, or the name after some prefix and a colon.
  ghost predicate DeclaredFits(declared: string, name: string) {
    declared == "" || declared == name || exists prefix :: declared == prefix + ":" + name
  }

  lemma DeclaredTypesAreCompared(spec: ParamSpec, declared: string)
    ensures TypeMatches(spec, declared) <==> DeclaredFits(declared, spec.valueType.Name())
  {
    hide ActualType, DeclaredFits;
    NamesHaveNoColon(spec.valueType);
    NamesAreCompared(declared, spec.valueType.Name());
  }

  lemma NamesAreCompared(declared: string, name: string)
    requires name != "" && ':' !in name
    ensures declared == "" || ActualType(declared) == name <==> DeclaredFits(declared, name)
  {
    hide ActualType;
    if declared == name {
      assert !HasSuffix(declared);
    } else if ActualType(declared) == name {
      NamedLast(declared, name);
    } else if prefix :| declared == prefix + ":" + name {
      LastPart(prefix, name);
    }
  }

  lemma NamedLast(declared: string, name: string)
    requires ActualType(declared) == name && declared != name
    ensures exists prefix :: declared == prefix + ":" + name
  {
    hide AfterLastColon;
    var i: nat :| IsLastPart(declared, name, i);
    assert declared == declared[..i] + ":" + name;
  }

  lemma LastPart(prefix: string, name: string)
    requires name != "" && ':' !in name
    ensures ActualType(prefix + ":" + name) == name
  {
    hide AfterLastColon;
    var declared := prefix + ":" + name;
    assert declared[|prefix|] == ':' && declared[|prefix| + 1..] == name;
    assert declared[|declared| - 1] == name[|name| - 1];
    assert HasSuffix(declared);
    var actual := ActualType(declared);
    var i: nat :| IsLastPart(declared, actual, i);
    assert i < |declared| && declared[i] == ':' && declared[i + 1..] == actual && ':' !in actual;
    LastColonIsOne(declared, i, |prefix|);
  }

  lemma NamesHaveNoColon(t: ValueType)
    ensures t.Name() != "" && ':' !in t.Name() && (t == Int ==> t.Name() == "int")
  {
  }

  lemma LastColonIsOne(s: string, i: nat, j: nat)
    requires i < |s| && j < |s| && s[i] == ':' && s[j] == ':' && ':' !in s[i + 1..] && ':' !in s[j + 1..]
    ensures i == j
  {
    ColonBehind(s, i, j);
    ColonBehind(s, j, i);
  }

  lemma ColonBehind(s: string, i: nat, j: nat)
    requires i < j < |s| ==> s[j] == ':'
    ensures i < j < |s| ==> ':' in s[i + 1..]
  {
    if i < j < |s| {
      assert s[i + 1..][j - i - 1] == ':';
    }
  }

  // ---------------------------------------------------------------------
  // One item, and a whole request.

  ghost predicate FitsAs(item: Item, p: Parameter) {
    PathOf(p) == item.name && IsWritable(p) && DeclaredFits(item.declaredType, TypeName(p)) &&
    Judged(p, item.value).Good?
  }

  ghost predicate ItemFits(item: Item) {
    exists p :: FitsAs(item, p)
  }

  // The form an item is stored in.
  ghost predicate IsStoredAs(item: Item, value: string) {
    exists p :: FitsAs(item, p) && Judged(p, item.value) == Good(value)
  }

  // What is said about an item that does not fit.
  ghost predicate IsComplaint(item: Item, message: string) {
    || (message == "unknown parameter" && forall p :: PathOf(p) != item.name)
    || (exists p :: PathOf(p) == item.name && IsComplaintAbout(item, p, message))
  }

  ghost predicate IsComplaintAbout(item: Item, p: Parameter, message: string) {
    if !IsWritable(p) then message == "parameter is read-only"
    else if !DeclaredFits(item.declaredType, TypeName(p)) then
      message == "type mismatch: expected " + TypeName(p) + ", received " + ActualType(item.declaredType)
    else Judged(p, item.value) == Bad(message)
  }

  // One parameter and one path belong to each other.
  lemma ItemIsStagedAs(item: Item, p: Parameter)
    requires ParameterAt(item.name) == Some(p)
    ensures match StageOne(DeviceParameters, item)
            case Planned(one) => FitsAs(item, p) && |one| == 1 && one[0].path == item.name &&
                                   Judged(p, item.value) == Good(one[0].value)
            case Refused(path, message) => path == item.name && !FitsAs(item, p) && IsComplaintAbout(item, p, message)
  {
    hide ParameterAt, PathOf, SpecOf, Normalize, Judged, TypeMatches, IsWritable, TypeName, DeclaredFits, ActualType, UciKey;
    PathsAreFound(item.name);
    TableIsDescribed(p);
    DeclaredTypesAreCompared(SpecOf(p), item.declaredType);
    if IsWritable(p) {
      NormalizeIsJudged(p, item.value);
    }
  }

  lemma OneParameter(p: Parameter, q: Parameter)
    requires ParameterAt(PathOf(q)) == Some(p)
    ensures p == q
  {
    hide PathOf, ParameterAt;
    PathsAreDistinct(q);
  }

  // The item is staged as its parameter says, or it does not fit and draws a complaint.
  lemma ItemIsStaged(item: Item)
    ensures match StageOne(DeviceParameters, item)
            case Planned(one) => |one| == 1 && one[0].path == item.name && IsStoredAs(item, one[0].value)
            case Refused(path, message) => path == item.name && !ItemFits(item) && IsComplaint(item, message)
  {
    hide ParameterAt, PathOf, SpecOf, Normalize, Judged, TypeMatches, IsWritable, TypeName, DeclaredFits, ActualType, UciKey,
         IsComplaintAbout;
    if ParameterAt(item.name).None? {
      forall p ensures PathOf(p) != item.name {
        PathsAreDistinct(p);
      }
    } else {
      var p := ParameterAt(item.name).value;
      PathsAreFound(item.name);
      forall q | PathOf(q) == item.name ensures q == p {
        OneParameter(p, q);
      }
      hide StageOne;
      ItemIsStagedAs(item, p);
    }
  }

  ghost predicate AllFit(items: seq<Item>) {
    forall i :: 0 <= i < |items| ==> ItemFits(items[i])
  }

  // The first item that does not fit decides.
  ghost predicate NamesFirstMisfit(items: seq<Item>, path: string, message: string) {
    exists i :: 0 <= i < |items| && AllFit(items[..i]) && !ItemFits(items[i]) &&
                path == items[i].name && IsComplaint(items[i], message)
  }

  lemma {:induction false} ItemsAreStaged(items: seq<Item>)
    ensures match StageAll(DeviceParameters, items)
            case Planned(_) => AllFit(items)
            case Refused(path, message) => NamesFirstMisfit(items, path, message)
  {
    hide StageOne, ItemFits, IsComplaint, DeviceParameters, NamesFirstMisfit;
    if items != [] {
      var n := |items| - 1;
      ItemsAreStaged(items[..n]);
      OneMoreItem(items);
      StagedFits(items[n]);
    }
  }

  // The last item decides when all before it fit.
  lemma OneMoreItem(items: seq<Item>)
    requires items != []
    ensures var n := |items| - 1;
            && (forall path, message :: NamesFirstMisfit(items[..n], path, message) ==> NamesFirstMisfit(items, path, message))
            && (forall message :: AllFit(items[..n]) && !ItemFits(items[n]) && IsComplaint(items[n], message) ==>
                  NamesFirstMisfit(items, items[n].name, message))
            && (AllFit(items[..n]) && ItemFits(items[n]) ==> AllFit(items))
  {
    hide ItemFits, IsComplaint;
    var init := items[..|items| - 1];
    forall path, message | NamesFirstMisfit(init, path, message) ensures NamesFirstMisfit(items, path, message) {
      var i :| 0 <= i < |init| && AllFit(init[..i]) && !ItemFits(init[i]) &&
               path == init[i].name && IsComplaint(init[i], message);
      assert items[..i] == init[..i] && items[i] == init[i];
    }
  }

  lemma StagedFits(item: Item)
    ensures match StageOne(DeviceParameters, item)
            case Planned(_) => ItemFits(item)
            case Refused(path, message) => path == item.name && !ItemFits(item) && IsComplaint(item, message)
  {
    hide StageOne, DeviceParameters, IsComplaint, FitsAs;
    ItemIsStaged(item);
  }

  /**
   A request is planned exactly when every item fits and the key has at most 32 bytes; otherwise the
   first item that does not fit is named with its complaint, and the key only after all items.
   */
  lemma RequestIsPlanned(items: seq<Item>, key: string)
    ensures match PlanOf(DeviceParameters, items, key)
            case Planned(_) => AllFit(items) && |key| <= 32
            case Refused(path, message) =>
              || NamesFirstMisfit(items, path, message)
              || (AllFit(items) && |key| > 32 && path == PARAMETER_KEY && message == "value exceeds maximum length")
  {
    hide StageAll, DeviceParameters, AllFit, NamesFirstMisfit;
    ItemsAreStaged(items);
    KeyIsStaged(key);
  }

  lemma KeyIsStaged(key: string)
    ensures match StageParameterKey(DeviceParameters, key)
            case Planned(last) => |key| <= 32 && |last| == 1 && last[0].value == key && last[0].path == PARAMETER_KEY
            case Refused(path, message) =>
              |key| > 32 && path == PARAMETER_KEY && message == "value exceeds maximum length"
  {
    hide ParameterAt, PathOf, Normalize;
    PathsAreDistinct(ParameterKey);
    NormalizeIsJudged(ParameterKey, key);
  }

  lemma MisfitIsNoFit(items: seq<Item>, path: string, message: string)
    requires NamesFirstMisfit(items, path, message)
    ensures !AllFit(items)
  {
    hide ItemFits, IsComplaint;
  }

  /** The same as an equivalence. */
  lemma PlannedExactlyWhenFit(items: seq<Item>, key: string)
    ensures PlanOf(DeviceParameters, items, key).Planned? <==> AllFit(items) && |key| <= 32
  {
    hide PlanOf, DeviceParameters, AllFit, NamesFirstMisfit;
    RequestIsPlanned(items, key);
    var plan := PlanOf(DeviceParameters, items, key);
    if plan.Refused? && NamesFirstMisfit(items, plan.path, plan.message) {
      MisfitIsNoFit(items, plan.path, plan.message);
    }
  }

  // ---------------------------------------------------------------------
  // On a store that works.

  lemma OneStoredForm(item: Item, a: string, b: string)
    requires IsStoredAs(item, a) && IsStoredAs(item, b)
    ensures a == b
  {
    hide PathOf, Judged, ParameterAt, DeclaredFits, IsWritable, TypeName;
    var p :| FitsAs(item, p) && Judged(p, item.value) == Good(a);
    var q :| FitsAs(item, q) && Judged(q, item.value) == Good(b);
    PathsAreDistinct(p);
    PathsAreDistinct(q);
  }

  // Items of one name ask for one stored form.
  ghost predicate ItemsAgree(items: seq<Item>) {
    forall i: nat, j: nat, a, b ::
      (i < |items| && j < |items| && items[i].name == items[j].name && IsStoredAs(items[i], a) && IsStoredAs(items[j], b)) ==>
        a == b
  }

  // Every stored form survives the shell and the read-back.
  ghost predicate ItemsCanBeSent(items: seq<Item>, key: string) {
    Sendable(key) && forall i, a :: 0 <= i < |items| && IsStoredAs(items[i], a) ==> Sendable(a)
  }

  lemma {:induction false} StagedForms(items: seq<Item>)
    requires StageAll(DeviceParameters, items).Planned?
    ensures var ws := StageAll(DeviceParameters, items).staged;
            |ws| == |items| && forall i :: 0 <= i < |ws| ==> ws[i].path == items[i].name && IsStoredAs(items[i], ws[i].value)
  {
    hide StageOne, IsStoredAs;
    if items != [] {
      StagedForms(items[..|items| - 1]);
      ItemIsStaged(items[|items| - 1]);
    }
  }

  // The i-th write is the i-th item in its stored form; the last one is the ParameterKey.
  lemma PlanForms(items: seq<Item>, key: string)
    requires PlanOf(DeviceParameters, items, key).Planned?
    ensures var ws := PlanOf(DeviceParameters, items, key).staged;
            && |ws| == |items| + 1 && ws[|items|].path == PARAMETER_KEY && ws[|items|].value == key
            && forall i :: 0 <= i < |items| ==> ws[i].path == items[i].name && IsStoredAs(items[i], ws[i].value)
  {
    hide StageAll, DeviceParameters, IsStoredAs;
    StagedForms(items);
    KeyIsStaged(key);
  }

  // Two writes go to one option exactly when they go to one path.
  lemma KeysFollowPaths(items: seq<Item>, key: string, i: nat, j: nat)
    requires PlanOf(DeviceParameters, items, key).Planned?
    requires var ws := PlanOf(DeviceParameters, items, key).staged; i < |ws| && j < |ws|
    ensures var ws := PlanOf(DeviceParameters, items, key).staged;
            ws[i].key == ws[j].key <==> ws[i].path == ws[j].path
  {
    hide PlanOf, DeviceParameters, Normalize, UciKey;
    PlanDescribesItems(DeviceParameters, items, key);
    DeviceMapKeysAreDistinct();
    var ws := PlanOf(DeviceParameters, items, key).staged;
    var all := items + [Item(PARAMETER_KEY, key, "")];
    assert Describes(DeviceParameters, all[i], ws[i]) && Describes(DeviceParameters, all[j], ws[j]);
    assert IsStored(DeviceParameters, ws[i].path) && IsStored(DeviceParameters, ws[j].path);
  }

  /** The writes of a plan agree exactly when the items do. */
  lemma PlanAgrees(items: seq<Item>, key: string)
    requires PlanOf(DeviceParameters, items, key).Planned?
    ensures var ws := PlanOf(DeviceParameters, items, key).staged;
            (Consistent(ws) <==> ItemsAgree(items)) && (AllSendable(ws) <==> ItemsCanBeSent(items, key))
  {
    hide PlanOf, DeviceParameters, IsStoredAs, Sendable, PathOf;
    var ws := PlanOf(DeviceParameters, items, key).staged;
    PlanForms(items, key);
    forall i: nat, j: nat | i < |ws| && j < |ws| ensures ws[i].key == ws[j].key <==> ws[i].path == ws[j].path {
      KeysFollowPaths(items, key, i, j);
    }
    forall i: nat, a | i < |items| && IsStoredAs(items[i], a) ensures a == ws[i].value {
      OneStoredForm(items[i], a, ws[i].value);
    }
    forall i: nat | i < |items| ensures items[i].name != PARAMETER_KEY {
      PlannedItemIsWritable(items, key, i);
    }
    if AllSendable(ws) {
      assert Sendable(ws[|items|].value);
    }
    if ItemsCanBeSent(items, key) {
      forall i: nat | i < |ws| ensures Sendable(ws[i].value) {
        assert i < |items| ==> IsStoredAs(items[i], ws[i].value);
      }
    }
    if Consistent(ws) {
      forall i: nat, j: nat, a, b | i < |items| && j < |items| && items[i].name == items[j].name &&
                                    IsStoredAs(items[i], a) && IsStoredAs(items[j], b)
        ensures a == b
      {
        assert ws[i].key == ws[j].key;
      }
    }
    if ItemsAgree(items) {
      forall i: nat, j: nat | i < |ws| && j < |ws| && ws[i].key == ws[j].key ensures ws[i].value == ws[j].value {
        assert ws[i].path == ws[j].path;
      }
    }
  }

  lemma PlannedItemIsWritable(items: seq<Item>, key: string, i: nat)
    requires PlanOf(DeviceParameters, items, key).Planned? && i < |items|
    ensures items[i].name != PARAMETER_KEY
  {
    hide StageAll, DeviceParameters;
    ParameterKeyIsReserved(items, i);
  }

  /** A request that a store without faults takes. */
  ghost predicate IsAcceptable(items: seq<Item>, key: string) {
    AllFit(items) && |key| <= 32 && ItemsAgree(items) && ItemsCanBeSent(items, key)
  }

  lemma WorkingStoreAccepts(view: View, items: seq<Item>, key: string)
    ensures var plan := PlanOf(DeviceParameters, items, key);
            plan.Planned? && UciOutcome(view, plan.staged).result.Accepted? <==> IsAcceptable(items, key)
  {
    hide DeviceParameters, PlanOf, AllFit, ItemsAgree, ItemsCanBeSent, UciOutcome, Consistent, AllSendable;
    PlannedExactlyWhenFit(items, key);
    var plan := PlanOf(DeviceParameters, items, key);
    if plan.Planned? {
      PlanAgrees(items, key);
      AcceptedWhenConsistent(view, plan.staged);
    }
  }

  /**
   The engine on a store that works: accepted exactly when every item fits, items of one name agree, every
   stored form can be sent, and the key can and has at most 32 bytes. A request with an item that does not
   fit is refused with the first such item's name and complaint, and nothing is written.
   */
  method SetOnWorkingStore(engine: Transformer, items: seq<Item>, key: string) returns (r: SetResult)
    requires engine.Valid() && engine.model == DeviceParameters && !engine.mockMode
    requires engine.uci.healthy && NulFree(engine.uci.visible)
    modifies engine, engine.uci
    ensures r.Accepted? <==> IsAcceptable(items, key)
    ensures !AllFit(items) ==> r.Rejected? && NamesFirstMisfit(items, r.path, r.message) && unchanged(engine.uci)
    ensures AllFit(items) && |key| > 32 ==>
              r == Rejected(PARAMETER_KEY, "value exceeds maximum length") && unchanged(engine.uci)
  {
    hide DeviceParameters, PlanOf, AllFit, NamesFirstMisfit, IsAcceptable, UciOutcome, Consistent, AllSendable,
         Applied, Restored, NulFree, PathOf;
    RequestIsPlanned(items, key);
    ghost var plan := PlanOf(DeviceParameters, items, key);
    if plan.Refused? && NamesFirstMisfit(items, plan.path, plan.message) {
      MisfitIsNoFit(items, plan.path, plan.message);
    }
    WorkingStoreAccepts(engine.uci.visible, items, key);
    ghost var how;
    r, how := engine.SetParameterValues(items, key);
  }
}
