/** Reading parameters, and what a reader sees after a set (transformer/transformer.lua:292-327). */
module Reading {
  import opened Wrappers
  import opened Text
  import opened UciCommands
  import opened DeviceMap
  import opened Validation
  import opened Transaction

  // Answers of the computed parameters, taken from the running system.
  type Getters = Getter -> Option<string>

  type Source = string -> Option<string>

  function UciSource(view: View): Source {
    key => ReadBack(view, key)
  }

  function ReadSpec(spec: ParamSpec, source: Source, getters: Getters, showSecrets: bool): string {
    if spec.secret && !showSecrets then ""
    else if spec.getter.Some? then getters(spec.getter.value).GetOr(spec.default.GetOr(""))
    else if spec.uci.None? then spec.default.GetOr("")
    else
      var value := source(UciKey(spec)).GetOr("");
      if value == "" then spec.default.GetOr("") else value
  }

  function Read(model: Model, source: Source, getters: Getters, path: string, showSecrets: bool): Option<string> {
    match model(path)
    case None => None
    case Some(spec) => Some(ReadSpec(spec, source, getters, showSecrets))
  }

  datatype Value = Value(name: string, value: string, typeName: string)

  function ValueOf(model: Model, source: Source, getters: Getters, path: string, showSecrets: bool): Value
    requires model(path).Some?
  {
    Value(path, Read(model, source, getters, path, showSecrets).value, "xsd:" + model(path).value.valueType.Name())
  }

  function KnownPaths(model: Model, paths: seq<string>): seq<string> {
    if paths == [] then []
    else KnownPaths(model, paths[..|paths| - 1]) +
         (if model(paths[|paths| - 1]).Some? then [paths[|paths| - 1]] else [])
  }

  function UnknownPaths(model: Model, paths: seq<string>): seq<string> {
    if paths == [] then []
    else UnknownPaths(model, paths[..|paths| - 1]) +
         (if model(paths[|paths| - 1]).Some? then [] else [paths[|paths| - 1]])
  }

  lemma {:induction false} KnownPathsAreKnown(model: Model, paths: seq<string>)
    ensures forall p :: p in KnownPaths(model, paths) <==> p in paths && model(p).Some?
    ensures forall p :: p in UnknownPaths(model, paths) <==> p in paths && model(p).None?
  {
    if paths != [] {
      KnownPathsAreKnown(model, paths[..|paths| - 1]);
      assert paths == paths[..|paths| - 1] + [paths[|paths| - 1]];
    }
  }

  /** Known paths are answered in order, the others are listed in order. */
  method GetParameterValues(model: Model, source: Source, getters: Getters, paths: seq<string>, showSecrets: bool)
    returns (values: seq<Value>, invalid: seq<string>)
    ensures |values| == |KnownPaths(model, paths)| && invalid == UnknownPaths(model, paths)
    ensures forall i :: 0 <= i < |values| ==>
              model(KnownPaths(model, paths)[i]).Some? &&
              values[i] == ValueOf(model, source, getters, KnownPaths(model, paths)[i], showSecrets)
  {
    values, invalid := [], [];
    for i := 0 to |paths|
      invariant |values| == |KnownPaths(model, paths[..i])| && invalid == UnknownPaths(model, paths[..i])
      invariant forall j :: 0 <= j < |values| ==>
                  model(KnownPaths(model, paths[..i])[j]).Some? &&
                  values[j] == ValueOf(model, source, getters, KnownPaths(model, paths[..i])[j], showSecrets)
    {
      assert paths[..i + 1][..i] == paths[..i];
      if model(paths[i]).None? {
        invalid := invalid + [paths[i]];
      } else {
        values := values + [ValueOf(model, source, getters, paths[i], showSecrets)];
      }
    }
    assert paths[..|paths|] == paths;
  }

  // ---------------------------------------------------------------------
  // Read your writes, with a frame.

  ghost predicate StoredAreNotComputed(model: Model) {
    forall path :: IsStored(model, path) ==> model(path).value.getter.None?
  }

  // The i-th write of a plan is the normalised value of the i-th item; the last is the ParameterKey.
  ghost predicate Describes(model: Model, item: Item, w: Staged) {
    && IsStored(model, item.name)
    && w.path == item.name
    && w.key == UciKey(model(item.name).value)
    && Normalize(model(item.name).value, item.value) == Good(w.value)
  }

  lemma {:induction false} StagedDescribesItems(model: Model, items: seq<Item>)
    requires StageAll(model, items).Planned?
    ensures var ws := StageAll(model, items).staged;
            |ws| == |items| && forall i :: 0 <= i < |items| ==> Describes(model, items[i], ws[i])
  {
    if items != [] {
      StagedDescribesItems(model, items[..|items| - 1]);
    }
  }

  lemma PlanDescribesItems(model: Model, items: seq<Item>, parameterKey: string)
    requires PlanOf(model, items, parameterKey).Planned?
    ensures var ws := PlanOf(model, items, parameterKey).staged;
            var all := items + [Item(PARAMETER_KEY, parameterKey, "")];
            |ws| == |all| && forall i :: 0 <= i < |all| ==> Describes(model, all[i], ws[i])
  {
    StagedDescribesItems(model, items);
  }

  /** After an accepted set, each written parameter reads as its normalised value. */
  lemma ReadYourWrites(model: Model, view: View, items: seq<Item>, parameterKey: string, getters: Getters, i: nat)
    requires DefaultsNeverMask(model) && StoredAreNotComputed(model)
    requires PlanOf(model, items, parameterKey).Planned?
    requires var ws := PlanOf(model, items, parameterKey).staged; Consistent(ws) && AllSendable(ws) && i < |ws|
    ensures var ws := PlanOf(model, items, parameterKey).staged;
            Read(model, UciSource(Applied(view, ws)), getters, ws[i].path, true) == Some(ws[i].value)
  {
    var ws := PlanOf(model, items, parameterKey).staged;
    var all := items + [Item(PARAMETER_KEY, parameterKey, "")];
    PlanDescribesItems(model, items, parameterKey);
    assert Describes(model, all[i], ws[i]);
    ReadBackMatches(view, ws);
    forall j | 0 <= j < |ws| ensures !EndsWithLineEnd(ws[j].value) {
      assert Sendable(ws[j].value);
    }
    assert IsStored(model, ws[i].path);
  }

  // A stored parameter that a request does not name.
  ghost predicate Untouched(model: Model, items: seq<Item>, path: string) {
    IsStored(model, path) && path != PARAMETER_KEY && forall i :: 0 <= i < |items| ==> items[i].name != path
  }

  /** After an accepted set, every other stored parameter reads as before, secret or not. */
  lemma OthersReadAsBefore(model: Model, view: View, items: seq<Item>, parameterKey: string, getters: Getters,
                           path: string, showSecrets: bool)
    requires KeysAreDistinct(model) && PlanOf(model, items, parameterKey).Planned?
    requires Untouched(model, items, path)
    ensures var ws := PlanOf(model, items, parameterKey).staged;
            Read(model, UciSource(Applied(view, ws)), getters, path, showSecrets) ==
            Read(model, UciSource(view), getters, path, showSecrets)
  {
    var ws := PlanOf(model, items, parameterKey).staged;
    var all := items + [Item(PARAMETER_KEY, parameterKey, "")];
    var key := UciKey(model(path).value);
    PlanDescribesItems(model, items, parameterKey);
    forall i | 0 <= i < |ws| ensures ws[i].key != key {
      assert Describes(model, all[i], ws[i]);
      assert all[i].name != path;
    }
    AppliedOutside(view, ws);
    assert Lookup(view, key) == Lookup(Applied(view, ws), key);
  }

  lemma DeviceMapStoredAreNotComputed()
    ensures StoredAreNotComputed(DeviceParameters)
  {
    hide ParameterAt;
    forall path | IsStored(DeviceParameters, path) ensures DeviceParameters(path).value.getter.None? {
      SpecStoredIsNotComputed(ParameterAt(path).value);
    }
  }

  lemma SpecStoredIsNotComputed(p: Parameter)
    requires SpecOf(p).uci.Some?
    ensures SpecOf(p).getter.None?
  {
  }

  // What an accepted request leaves for the readers of Device.map.
  ghost predicate ReadsBack(before: View, after: View, items: seq<Item>, ws: seq<Staged>, getters: Getters) {
    && (forall i :: 0 <= i < |ws| ==>
          Read(DeviceParameters, UciSource(after), getters, ws[i].path, true) == Some(ws[i].value))
    && (forall path, showSecrets :: Untouched(DeviceParameters, items, path) ==>
          Read(DeviceParameters, UciSource(after), getters, path, showSecrets) ==
          Read(DeviceParameters, UciSource(before), getters, path, showSecrets))
  }

  /** Both facts for Device.map, where none of the side conditions on the table is left. */
  lemma DeviceMapReadsYourWrites(view: View, items: seq<Item>, parameterKey: string, getters: Getters)
    requires PlanOf(DeviceParameters, items, parameterKey).Planned?
    requires var ws := PlanOf(DeviceParameters, items, parameterKey).staged; Consistent(ws) && AllSendable(ws)
    ensures var ws := PlanOf(DeviceParameters, items, parameterKey).staged;
            ReadsBack(view, Applied(view, ws), items, ws, getters)
  {
    hide DeviceParameters, Read, Applied, PlanOf, UciSource;
    var ws := PlanOf(DeviceParameters, items, parameterKey).staged;
    DeviceMapKeysAreDistinct();
    DeviceMapDefaultsNeverMask();
    DeviceMapStoredAreNotComputed();
    var after := Applied(view, ws);
    forall i | 0 <= i < |ws|
      ensures Read(DeviceParameters, UciSource(after), getters, ws[i].path, true) == Some(ws[i].value)
    {
      ReadYourWrites(DeviceParameters, view, items, parameterKey, getters, i);
    }
    forall path, showSecrets | Untouched(DeviceParameters, items, path)
      ensures Read(DeviceParameters, UciSource(after), getters, path, showSecrets) ==
              Read(DeviceParameters, UciSource(view), getters, path, showSecrets)
    {
      OthersReadAsBefore(DeviceParameters, view, items, parameterKey, getters, path, showSecrets);
    }
  }

  /** The engine on Device.map, whatever its commands do: an accepted request reads back, and nothing else moves. */
  method SetAndReadBack(engine: Transformer, items: seq<Item>, parameterKey: string, ghost getters: Getters)
    returns (r: SetResult)
    requires engine.Valid() && engine.model == DeviceParameters && !engine.mockMode
    modifies engine, engine.uci
    ensures r.Accepted? ==>
      var plan := PlanOf(DeviceParameters, items, parameterKey);
      plan.Planned? && ReadsBack(old(engine.uci.visible), engine.uci.visible, items, plan.staged, getters)
  {
    hide DeviceParameters, ReadsBack, Applied;
    ghost var how;
    r, how := engine.SetParameterValues(items, parameterKey);
    if r.Accepted? {
      DeviceMapReadsYourWrites(old(engine.uci.visible), items, parameterKey, getters);
    }
  }

  lemma SecretParameters(p: Parameter)
    ensures SpecOf(p).secret <==> p == Password || p == ConnectionRequestPassword
  {
  }

  /** Without leave to show secrets, the two passwords read as empty and everything else reads as it is. */
  lemma OnlyPasswordsAreHidden(source: Source, getters: Getters, path: string)
    ensures Read(DeviceParameters, source, getters, path, false) ==
            if path == PathOf(Password) || path == PathOf(ConnectionRequestPassword) then Some("")
            else Read(DeviceParameters, source, getters, path, true)
  {
    hide ParameterAt, PathOf, SpecOf;
    PathsAreDistinct(Password);
    PathsAreDistinct(ConnectionRequestPassword);
    SecretParameters(Password);
    SecretParameters(ConnectionRequestPassword);
    if ParameterAt(path).Some? {
      PathsAreFound(path);
      SecretParameters(ParameterAt(path).value);
    }
  }

  /** On Device.map no request item can name the ParameterKey: it is read-only. */
  lemma ParameterKeyIsReserved(items: seq<Item>, i: nat)
    requires StageAll(DeviceParameters, items).Planned? && i < |items|
    ensures items[i].name != PARAMETER_KEY
  {
    hide ParameterAt, PathOf, StageAll;
    PathsAreDistinct(ParameterKey);
    StagedAreWritable(DeviceParameters, items, i);
  }

  /** On Device.map the ParameterKey itself is refused exactly when it is longer than 32 bytes. */
  lemma ParameterKeyLimit(parameterKey: string)
    ensures StageParameterKey(DeviceParameters, parameterKey).Planned? <==> |parameterKey| <= 32
  {
    hide ParameterAt, PathOf, Lower, MatchesDateTime;
    PathsAreDistinct(ParameterKey);
  }

  lemma {:induction false} StagedAreWritable(model: Model, items: seq<Item>, i: nat)
    requires StageAll(model, items).Planned? && i < |items|
    ensures model(items[i].name).Some? && model(items[i].name).value.access == ReadWrite
  {
    if i < |items| - 1 {
      StagedAreWritable(model, items[..|items| - 1], i);
    }
  }
}
