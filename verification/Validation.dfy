/** What a written value must satisfy, and the form it is stored in (transformer/transformer.lua:53-107). */
module Validation {
  import opened Wrappers
  import opened Text
  import opened DeviceMap

  datatype Checked = Good(value: string) | Bad(message: string)

  predicate IsTruthy(lower: string) {
    lower == "1" || lower == "true" || lower == "yes" || lower == "on"
  }

  predicate IsFalsy(lower: string) {
    lower == "0" || lower == "false" || lower == "no" || lower == "off"
  }

  predicate IsSignedNumeral(s: string) {
    IsNumeral(s) || (s != "" && s[0] == '-' && IsNumeral(s[1..]))
  }

  // tonumber() on the numerals that the range check is applied to.
  function ToNumber(s: string): Option<int> {
    if IsNumeral(s) then Some(DecimalValue(s))
    else if s != "" && s[0] == '-' && IsNumeral(s[1..]) then Some(0 - DecimalValue(s[1..]))
    else None
  }

  // ^%d%d%d%d%-%d%d%-%d%dT%d%d:%d%d:%d%d, unanchored at the end
  const DATE_TIME_SHAPE := "dddd-dd-ddTdd:dd:dd"

  predicate MatchesDateTime(s: string) {
    |s| >= |DATE_TIME_SHAPE| &&
    forall i :: 0 <= i < |DATE_TIME_SHAPE| ==>
      if DATE_TIME_SHAPE[i] == 'd' then IsDigit(s[i]) else s[i] == DATE_TIME_SHAPE[i]
  }

  function NormalizeByType(t: ValueType, value: string): Checked {
    match t
    case String => Good(value)
    case Boolean =>
      if IsTruthy(Lower(value)) then Good("true")
      else if IsFalsy(Lower(value)) then Good("false")
      else Bad("expected boolean")
    case UnsignedInt => if IsNumeral(value) then Good(value) else Bad("expected unsignedInt")
    case Int => if IsSignedNumeral(value) then Good(value) else Bad("expected int")
    case DateTime => if MatchesDateTime(value) then Good(value) else Bad("expected ISO-8601 dateTime")
  }

  predicate InSomeRange(number: int, ranges: seq<Range>) {
    exists i :: 0 <= i < |ranges| && ranges[i].min <= number <= ranges[i].max
  }

  function Normalize(spec: ParamSpec, raw: string): Checked {
    if spec.required && raw == "" then Bad("value is required")
    else if spec.max.Some? && |raw| > spec.max.value then Bad("value exceeds maximum length")
    else
      var typed := NormalizeByType(spec.valueType, raw);
      if typed.Bad? then typed
      else if spec.range.Some? && ToNumber(typed.value).Some? &&
              !InSomeRange(ToNumber(typed.value).value, spec.range.value) then
        Bad("value outside allowed range")
      else if spec.enumeration.Some? && typed.value !in spec.enumeration.value then
        Bad("value not in enumeration")
      else typed
  }

  predicate HasSuffix(declared: string) {
    ':' in declared && declared[|declared| - 1] != ':'
  }

  // The text after the last colon, where it stands.
  predicate IsLastPart(declared: string, part: string, i: nat) {
    i < |declared| && declared[i] == ':' && declared[i + 1..] == part && ':' !in part
  }

  // What is compared with the table: the declared type after its last colon; all of it when nothing follows a colon.
  function ActualType(declared: string): (r: string)
    ensures if HasSuffix(declared) then exists i :: IsLastPart(declared, r, i) else r == declared
  {
    var suffix := AfterLastColon(declared);
    if suffix == "" then declared else suffix
  }

  function AfterLastColon(s: string): (r: string)
    ensures if ':' in s then exists i :: IsLastPart(s, r, i) else r == s
    ensures r == "" ==> s == "" || s[|s| - 1] == ':'
  {
    if s == "" then ""
    else if s[|s| - 1] == ':' then assert IsLastPart(s, "", |s| - 1); ""
    else
      var init, c := s[..|s| - 1], s[|s| - 1];
      var r := AfterLastColon(init);
      assert init + [c] == s;
      assert ':' in s ==> exists i :: IsLastPart(s, r + [c], i) by {
        if ':' in s {
          var i :| IsLastPart(init, r, i);
          assert IsLastPart(s, r + [c], i);
        }
      }
      r + [c]
  }

  predicate TypeMatches(spec: ParamSpec, declared: string) {
    declared == "" || ActualType(declared) == spec.valueType.Name()
  }

  // ---------------------------------------------------------------------

  /** Storing a normalised value again stores the same value, unless spelling out a boolean has made it too long. */
  lemma NormalizeIsIdempotent(spec: ParamSpec, raw: string)
    requires Normalize(spec, raw).Good?
    ensures var value := Normalize(spec, raw).value;
            Normalize(spec, value) == Good(value) <==> (spec.max.Some? ==> |value| <= spec.max.value)
  {
    hide Lower, MatchesDateTime, DecimalValue;
    BooleanWordsAreLower();
  }

  lemma BooleanWordsAreLower()
    ensures Lower("true") == "true" && Lower("false") == "false"
    ensures "true" != "false" && !IsTruthy("false") && !IsFalsy("true") && IsTruthy("true") && IsFalsy("false")
  {
  }

  // A default that a reader shows for an empty option must not hide an accepted empty value.
  ghost predicate DefaultsNeverMask(model: Model) {
    forall path, raw :: IsStored(model, path) && Normalize(model(path).value, raw) == Good("") ==>
      model(path).value.default.GetOr("") == ""
  }

  lemma DeviceMapDefaultsNeverMask()
    ensures DefaultsNeverMask(DeviceParameters)
  {
    hide ParameterAt;
    forall path, raw | IsStored(DeviceParameters, path) && Normalize(DeviceParameters(path).value, raw) == Good("")
      ensures DeviceParameters(path).value.default.GetOr("") == ""
    {
      SpecDefaultNeverMasks(ParameterAt(path).value, raw);
    }
  }

  lemma SpecDefaultNeverMasks(p: Parameter, raw: string)
    requires SpecOf(p).uci.Some? && Normalize(SpecOf(p), raw) == Good("")
    ensures SpecOf(p).default.GetOr("") == ""
  {
    hide Lower, MatchesDateTime;
    assert |DATE_TIME_SHAPE| == 19;
    assert !MatchesDateTime("") by { ShortTextIsNoDate(""); }
  }

  lemma ShortTextIsNoDate(s: string)
    requires |s| < 19
    ensures !MatchesDateTime(s)
  {
  }
}
