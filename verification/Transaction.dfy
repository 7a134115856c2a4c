/**
 The set transaction of transformer/transformer.lua over a UCI store whose
 commands may fail at any point. `SetParameterValues` is the program; the
 specification is the function pair `PlanOf` (what the request asks for) and
 `Applied`/`Restored` (the two views a caller may be left with).
 */
module Transaction {
  import opened Wrappers
  import opened Text
  import opened Shell
  import opened UciCommands
  import opened DeviceMap
  import opened Validation

  datatype Item = Item(name: string, value: string, declaredType: string)

  datatype Staged = Staged(path: string, key: string, value: string)

  datatype SetResult = Accepted | Rejected(path: string, message: string)

  datatype StageResult = Planned(staged: seq<Staged>) | Refused(path: string, message: string)

  // ---------------------------------------------------------------------
  // Validation of a whole request.

  function StageOne(model: Model, item: Item): StageResult {
    match model(item.name)
    case None => Refused(item.name, "unknown parameter")
    case Some(spec) =>
      if spec.access != ReadWrite || spec.uci.None? then Refused(item.name, "parameter is read-only")
      else if !TypeMatches(spec, item.declaredType) then
        Refused(item.name, "type mismatch: expected " + spec.valueType.Name() + ", received " + ActualType(item.declaredType))
      else
        match Normalize(spec, item.value)
        case Bad(message) => Refused(item.name, message)
        case Good(value) => Planned([Staged(item.name, UciKey(spec), value)])
  }

  // The first bad item decides; otherwise every item is staged, in order.
  function StageAll(model: Model, items: seq<Item>): StageResult {
    if items == [] then Planned([])
    else
      match StageAll(model, items[..|items| - 1])
      case Refused(path, message) => Refused(path, message)
      case Planned(staged) =>
        match StageOne(model, items[|items| - 1])
        case Refused(path, message) => Refused(path, message)
        case Planned(one) => Planned(staged + one)
  }

  function StageParameterKey(model: Model, parameterKey: string): StageResult {
    match model(PARAMETER_KEY)
    case None => Refused(PARAMETER_KEY, "mapping missing")
    case Some(spec) =>
      if spec.uci.None? then Refused(PARAMETER_KEY, "mapping missing")
      else
        match Normalize(spec, parameterKey)
        case Bad(message) => Refused(PARAMETER_KEY, message)
        case Good(value) => Planned([Staged(PARAMETER_KEY, UciKey(spec), value)])
  }

  // Everything one request writes: its items in order, then the ParameterKey.
  function PlanOf(model: Model, items: seq<Item>, parameterKey: string): StageResult {
    match StageAll(model, items)
    case Refused(path, message) => Refused(path, message)
    case Planned(staged) =>
      match StageParameterKey(model, parameterKey)
      case Refused(path, message) => Refused(path, message)
      case Planned(last) => Planned(staged + last)
  }

  // ---------------------------------------------------------------------
  // The two views a request may leave behind.

  function KeysOf(ws: seq<Staged>): set<string> {
    set w | w in ws :: w.key
  }

  function Applied(view: View, ws: seq<Staged>): View {
    if ws == [] then view
    else Applied(view, ws[..|ws| - 1])[ws[|ws| - 1].key := ws[|ws| - 1].value]
  }

  // What a faithful read returns: the output of `uci get` without trailing line ends.
  function ReadBack(view: View, key: string): Option<string> {
    match Lookup(view, key)
    case Some(v) => Some(TrimLineEnds(v))
    case None => None
  }

  // Rolling back writes what was read, so a touched value comes back without its trailing line ends.
  function Restored(view: View, keys: set<string>): View {
    map k | k in view :: if k in keys then TrimLineEnds(view[k]) else view[k]
  }

  // No two writes give one key different values.
  ghost predicate Consistent(ws: seq<Staged>) {
    forall i, j :: 0 <= i < |ws| && 0 <= j < |ws| && ws[i].key == ws[j].key ==> ws[i].value == ws[j].value
  }

  predicate Sendable(value: string) {
    NUL !in value && !EndsWithLineEnd(value)
  }

  ghost predicate AllSendable(ws: seq<Staged>) {
    forall i :: 0 <= i < |ws| ==> Sendable(ws[i].value)
  }

  ghost predicate SameOutside(a: View, b: View, keys: set<string>) {
    forall k :: k !in keys ==> Lookup(a, k) == Lookup(b, k)
  }

  lemma {:induction false} AppliedOutside(view: View, ws: seq<Staged>)
    ensures SameOutside(view, Applied(view, ws), KeysOf(ws))
  {
    if ws != [] {
      AppliedOutside(view, ws[..|ws| - 1]);
      assert ws[|ws| - 1] in ws;
      assert KeysOf(ws[..|ws| - 1]) <= KeysOf(ws);
    }
  }

  /** A key holds the value of its last write. */
  lemma {:induction false} AppliedHoldsLastWrite(view: View, ws: seq<Staged>, k: string) returns (i: nat)
    requires k in KeysOf(ws)
    ensures i < |ws| && ws[i].key == k && Lookup(Applied(view, ws), k) == Some(ws[i].value)
    ensures forall j :: i < j < |ws| ==> ws[j].key != k
  {
    var n := |ws| - 1;
    if ws[n].key == k {
      i := n;
    } else {
      var w :| w in ws && w.key == k;
      assert w in ws[..n];
      i := AppliedHoldsLastWrite(view, ws[..n], k);
    }
  }

  /** Reading every write back succeeds exactly when the writes agree with each other and survive the read. */
  lemma ReadBackMatches(view: View, ws: seq<Staged>)
    ensures (forall i :: 0 <= i < |ws| ==> ReadBack(Applied(view, ws), ws[i].key) == Some(ws[i].value)) <==>
            (Consistent(ws) && forall i :: 0 <= i < |ws| ==> !EndsWithLineEnd(ws[i].value))
  {
    var after := Applied(view, ws);
    if Consistent(ws) && forall i :: 0 <= i < |ws| ==> !EndsWithLineEnd(ws[i].value) {
      forall i | 0 <= i < |ws| ensures ReadBack(after, ws[i].key) == Some(ws[i].value) {
        assert ws[i] in ws;
        var j := AppliedHoldsLastWrite(view, ws, ws[i].key);
      }
    }
    if forall i :: 0 <= i < |ws| ==> ReadBack(after, ws[i].key) == Some(ws[i].value) {
      forall i, j | 0 <= i < |ws| && 0 <= j < |ws| && ws[i].key == ws[j].key ensures ws[i].value == ws[j].value {
        assert ReadBack(after, ws[i].key) == Some(ws[i].value);
        assert ReadBack(after, ws[j].key) == Some(ws[j].value);
      }
    }
  }

  /** Rolling back restores the old view exactly when no touched value ended in a line end. */
  lemma RestoredIsUnchanged(view: View, keys: set<string>)
    ensures Restored(view, keys) == view <==> forall k :: k in keys && k in view ==> !EndsWithLineEnd(view[k])
  {
  }

  /** A rollback that changes what it restores: the option held a line feed at its end. */
  lemma RollbackCanDropLineEnd()
    ensures Restored(map["k" := "v\n"], {"k"}) == map["k" := "v"]
  {
    assert TrimLineEnds("v\n") == "v" by { assert "v\n"[..1] == "v"; }
  }

  // The key that a command is about.
  function Touched(command: Command): set<string> {
    if command.Commit? then {} else {command.key}
  }

  // ---------------------------------------------------------------------
  // The store.

  /**
   The UCI package as readers see it (`visible`, committed values under staged
   ones) and as it would survive a restart (`durable`). Every command is a shell
   line. It may be refused, it may leave its key in any state, and it may even take
   effect and still report a failure; on a `healthy` store none of this happens.
   */
  class UciStore {
    const bin: string
    const healthy: bool
    var visible: View
    var durable: View

    constructor (bin: string, healthy: bool, committed: View, staged: View)
      requires IsBinary(bin)
      ensures this.bin == bin && this.healthy == healthy
      ensures durable == committed && visible == committed + staged
    {
      this.bin := bin;
      this.healthy := healthy;
      visible := committed + staged;
      durable := committed;
    }

    // os.execute(line): `took` records whether the store now shows what the line
    // asks for, `stored` whether a commit has moved the visible values to the durable
    // ones. A set or delete that fails may leave its own key in any state.
    method Execute(line: string) returns (ok: bool, ghost took: bool, ghost stored: bool)
      modifies this
      ensures ok ==> Denotes(line).Some? && took
      ensures took <==> Denotes(line).Some? && visible == After(old(visible), Denotes(line).value)
      ensures SameOutside(old(visible), visible, if Denotes(line).Some? then Touched(Denotes(line).value) else {})
      ensures Denotes(line) == Some(Commit) ==> visible == old(visible)
      ensures durable == if stored then visible else old(durable)
      ensures stored ==> Denotes(line) == Some(Commit)
      ensures Denotes(line) == Some(Commit) && ok ==> stored
      ensures healthy && Denotes(line).Some? ==> ok
    {
      var command := Denotes(line);
      took := false;
      ok := false;
      stored := false;
      if command.Some? {
        var works: bool, reports: bool := *, *;
        if works || healthy {
          visible := After(visible, command.value);
          if command.value.Commit? {
            durable := visible;
            stored := true;
          }
          ok := reports || healthy;
        } else if !command.value.Commit? {
          var debris: Option<string> := *;
          visible := if debris.Some? then visible[command.value.key := debris.value] else visible - {command.value.key};
        }
        took := visible == After(old(visible), command.value);
      }
    }

    // io.popen of `uci -q get`: nil when the key is missing, and possibly when reading fails.
    method Get(key: string) returns (v: Option<string>, ghost faithful: bool)
      ensures faithful <==> v == ReadBack(visible, key)
      ensures v.Some? ==> faithful
      ensures healthy ==> faithful
    {
      var lost: bool := *;
      v := if lost && !healthy then None else ReadBack(visible, key);
      faithful := v == ReadBack(visible, key);
    }
  }

  // ---------------------------------------------------------------------
  // The engine.

  // transformer/transformer.lua:351-378
  method StageRequest(model: Model, items: seq<Item>) returns (r: StageResult)
    ensures r == StageAll(model, items)
  {
    var staged: seq<Staged> := [];
    for i := 0 to |items|
      invariant StageAll(model, items[..i]) == Planned(staged)
    {
      assert items[..i + 1][..i] == items[..i];
      match StageOne(model, items[i]) {
        case Refused(path, message) =>
          StageAllStops(model, items, i + 1);
          return Refused(path, message);
        case Planned(one) =>
          staged := staged + one;
      }
    }
    assert items[..|items|] == items;
    return Planned(staged);
  }

  lemma {:induction false} StageAllStops(model: Model, items: seq<Item>, n: nat)
    requires n <= |items| && StageAll(model, items[..n]).Refused?
    ensures StageAll(model, items) == StageAll(model, items[..n])
  {
    if n == |items| {
      assert items[..n] == items;
    } else {
      assert items[..|items| - 1][..n] == items[..n];
      StageAllStops(model, items[..|items| - 1], n);
    }
  }

  predicate NulFree(view: View) {
    forall k :: k in view ==> NUL !in view[k]
  }

  function FirstNul(ws: seq<Staged>, from: nat): (r: Option<nat>)
    requires from <= |ws|
    ensures r.Some? ==> r.value < |ws|
    ensures r.None? <==> forall i :: from <= i < |ws| ==> NUL !in ws[i].value
    decreases |ws| - from
  {
    if from == |ws| then None
    else if NUL in ws[from].value then Some(from)
    else FirstNul(ws, from + 1)
  }

  function FirstMismatch(view: View, ws: seq<Staged>, from: nat): (r: Option<nat>)
    requires from <= |ws|
    ensures r.Some? ==> r.value < |ws|
    ensures r.None? <==> forall i :: from <= i < |ws| ==> ReadBack(view, ws[i].key) == Some(ws[i].value)
    decreases |ws| - from
  {
    if from == |ws| then None
    else if ReadBack(view, ws[from].key) != Some(ws[from].value) then Some(from)
    else FirstMismatch(view, ws, from + 1)
  }

  const SET_FAILED := "UCI set failed"
  const COMMIT_FAILED := "UCI commit failed"
  const VERIFY_FAILED := "UCI read-back verification failed"

  datatype Outcome = Outcome(result: SetResult, view: View)

  /**
   How a run went: the present options whose first read failed, and whether the
   rollback's writes and deletes took effect, the plan's commit did, and the
   rollback's commit did.
   */
  datatype Course = Course(lost: set<string>, clean: bool, committed: bool, recorded: bool)

  const SMOOTH := Course({}, true, false, false)

  // What the UCI backend does with a plan when every command works.
  function UciOutcome(view: View, ws: seq<Staged>): Outcome {
    match FirstNul(ws, 0)
    case Some(i) => Outcome(Rejected(ws[i].path, SET_FAILED), Restored(view, KeysOf(ws)))
    case None =>
      match FirstMismatch(Applied(view, ws), ws, 0)
      case Some(i) => Outcome(Rejected(ws[i].path, VERIFY_FAILED), Restored(view, KeysOf(ws)))
      case None => Outcome(Accepted, Applied(view, ws))
  }

  // What the file-backed test backend does with a plan when the file can be saved.
  function MockOutcome(view: View, ws: seq<Staged>): Outcome {
    Outcome(Accepted, Applied(view, ws))
  }

  /** With no failing step, a valid request is accepted exactly when its writes agree and can be sent. */
  lemma AcceptedWhenConsistent(view: View, ws: seq<Staged>)
    ensures UciOutcome(view, ws).result.Accepted? <==> Consistent(ws) && AllSendable(ws)
  {
    ReadBackMatches(view, ws);
    if Consistent(ws) && AllSendable(ws) {
      forall i | 0 <= i < |ws| ensures NUL !in ws[i].value && !EndsWithLineEnd(ws[i].value) {
        assert Sendable(ws[i].value);
      }
    }
  }

  /** The two backends agree, in result and in final values, on exactly the same requests. */
  lemma BackendsAgree(view: View, ws: seq<Staged>)
    ensures UciOutcome(view, ws) == MockOutcome(view, ws) <==> Consistent(ws) && AllSendable(ws)
  {
    AcceptedWhenConsistent(view, ws);
  }

  /** One option written twice with different values: the test backend accepts, the UCI backend rolls back. */
  lemma BackendsCanDisagree(view: View, key: string)
    requires key in view && !EndsWithLineEnd(view[key])
    ensures var ws := [Staged("p", key, "1"), Staged("p", key, "2")];
            UciOutcome(view, ws) == Outcome(Rejected("p", VERIFY_FAILED), view) &&
            MockOutcome(view, ws) == Outcome(Accepted, view[key := "2"])
  {
    var ws := [Staged("p", key, "1"), Staged("p", key, "2")];
    var after := view[key := "1"][key := "2"];
    var one := ws[..1];
    assert one == [ws[0]] && one[..0] == [] && Applied(view, []) == view;
    assert Applied(view, one) == view[key := "1"];
    assert Applied(view, ws) == after;
    assert ReadBack(after, key) == Some("2");
    assert "1"[0] != "2"[0];
    assert FirstMismatch(after, ws, 0) == Some(0);
    assert KeysOf(ws) == {key};
    RestoredIsUnchanged(view, KeysOf(ws));
  }

  ghost predicate HasKeys(ws: seq<Staged>) {
    forall i :: 0 <= i < |ws| ==> IsKey(ws[i].key)
  }

  lemma {:induction false} StagedItemsHaveKeys(model: Model, items: seq<Item>)
    requires WellFormed(model) && StageAll(model, items).Planned?
    ensures HasKeys(StageAll(model, items).staged)
  {
    if items != [] {
      StagedItemsHaveKeys(model, items[..|items| - 1]);
      assert model(items[|items| - 1].name).Some?;
    }
  }

  lemma PlanHasKeys(model: Model, items: seq<Item>, parameterKey: string)
    requires WellFormed(model) && PlanOf(model, items, parameterKey).Planned?
    ensures HasKeys(PlanOf(model, items, parameterKey).staged)
  {
    StagedItemsHaveKeys(model, items);
    assert model(PARAMETER_KEY).Some?;
  }

  class Transformer {
    const model: Model
    const mockMode: bool
    const uci: UciStore
    var mockValues: View

    ghost predicate Valid() {
      WellFormed(model) && IsBinary(uci.bin)
    }

    constructor (model: Model, mockMode: bool, uci: UciStore, mockValues: View)
      requires WellFormed(model) && IsBinary(uci.bin)
      ensures Valid() && this.model == model && this.mockMode == mockMode && this.uci == uci
      ensures this.mockValues == mockValues
    {
      this.model := model;
      this.mockMode := mockMode;
      this.uci := uci;
      this.mockValues := mockValues;
    }

    // transformer/transformer.lua:406-416. A present option that cannot be read is recorded as missing.
    method RecordOriginals(ws: seq<Staged>) returns (originals: map<string, Option<string>>, ghost lost: set<string>)
      ensures originals.Keys == KeysOf(ws) && AreOriginals(originals, uci.visible, lost)
      ensures uci.healthy ==> lost == {}
    {
      originals := map[];
      lost := {};
      for i := 0 to |ws|
        invariant originals.Keys == KeysOf(ws[..i]) && AreOriginals(originals, uci.visible, lost)
        invariant uci.healthy ==> lost == {}
      {
        assert ws[..i + 1] == ws[..i] + [ws[i]];
        assert KeysOf(ws[..i + 1]) == KeysOf(ws[..i]) + {ws[i].key};
        if ws[i].key !in originals {
          ghost var exact;
          var v;
          v, exact := uci.Get(ws[i].key);
          originals := originals[ws[i].key := v];
          if !exact {
            lost := lost + {ws[i].key};
          }
        }
      }
      assert ws[..|ws|] == ws;
    }

    ghost predicate AreOriginals(originals: map<string, Option<string>>, view: View, lost: set<string>) {
      lost <= originals.Keys * view.Keys &&
      forall k :: k in originals ==> originals[k] == if k in lost then None else ReadBack(view, k)
    }

    // transformer/transformer.lua:420-433. The keys come in no particular order, and no status is looked at.
    method RestoreOriginals(originals: map<string, Option<string>>) returns (ghost clean: bool, ghost recorded: bool)
      requires Valid() && forall k :: k in originals ==> IsKey(k)
      modifies uci
      ensures clean ==> forall k :: k in originals ==> Lookup(uci.visible, k) == originals[k]
      ensures SameOutside(old(uci.visible), uci.visible, originals.Keys)
      ensures uci.durable == if recorded then uci.visible else old(uci.durable)
      ensures uci.healthy && AllNulFree(originals) ==> clean
      ensures uci.healthy ==> recorded
    {
      clean := RestoreKeys(originals);
      CommitLineDenotesCommit(uci.bin);
      ghost var took;
      var ok;
      ok, took, recorded := uci.Execute(CommitLine(uci.bin));
    }

    ghost predicate AllNulFree(originals: map<string, Option<string>>) {
      forall k :: k in originals && originals[k].Some? ==> NUL !in originals[k].value
    }

    // The loop over pairs(originals).
    method RestoreKeys(originals: map<string, Option<string>>) returns (ghost clean: bool)
      requires Valid() && forall k :: k in originals ==> IsKey(k)
      modifies uci
      ensures clean ==> forall k :: k in originals ==> Lookup(uci.visible, k) == originals[k]
      ensures SameOutside(old(uci.visible), uci.visible, originals.Keys)
      ensures uci.durable == old(uci.durable)
      ensures uci.healthy && AllNulFree(originals) ==> clean
    {
      clean := true;
      var remaining := originals.Keys;
      while remaining != {}
        invariant remaining <= originals.Keys && uci.durable == old(uci.durable)
        invariant clean ==> forall k :: k in originals && k !in remaining ==> Lookup(uci.visible, k) == originals[k]
        invariant SameOutside(old(uci.visible), uci.visible, originals.Keys)
        invariant uci.healthy && AllNulFree(originals) ==> clean
        decreases |remaining|
      {
        var key :| key in remaining;
        remaining := remaining - {key};
        ghost var took := RestoreKey(key, originals[key]);
        clean := clean && took;
      }
    }

    // Back to the original value, or away with the key if it had none.
    method RestoreKey(key: string, original: Option<string>) returns (ghost took: bool)
      requires Valid() && IsKey(key)
      modifies uci
      ensures took ==> Lookup(uci.visible, key) == original
      ensures SameOutside(old(uci.visible), uci.visible, {key}) && uci.durable == old(uci.durable)
      ensures uci.healthy && (original.Some? ==> NUL !in original.value) ==> took
    {
      var ok;
      ghost var stored;
      match original {
        case None =>
          DeleteLineDenotesDelete(uci.bin, key);
          ok, took, stored := uci.Execute(DeleteLine(uci.bin, key));
        case Some(v) =>
          SetLineDenotesSet(uci.bin, key, v);
          ok, took, stored := uci.Execute(SetLine(uci.bin, key, v));
      }
    }

    // A rollback whose steps take effect leaves `Restored`, but without the options that could not be read at first.
    lemma RollbackRestores(before: View, now: View, originals: map<string, Option<string>>, lost: set<string>)
      requires AreOriginals(originals, before, lost) && forall k :: k in originals ==> Lookup(now, k) == originals[k]
      requires SameOutside(before, now, originals.Keys)
      ensures now == Restored(before, originals.Keys) - lost
    {
      var r := Restored(before, originals.Keys) - lost;
      forall k ensures Lookup(now, k) == Lookup(r, k) {
        if k in originals {
          assert originals[k] == if k in lost then None else ReadBack(before, k);
        } else {
          assert Lookup(before, k) == Lookup(now, k);
        }
      }
      LookupsDetermine(now, r);
    }

    // That is the old view, as a reader sees it, exactly when every first read worked.
    lemma LossShows(before: View, keys: set<string>, lost: set<string>)
      requires lost <= keys * before.Keys
      ensures Restored(before, keys) - lost == Restored(before, keys) <==> lost == {}
    {
      if k :| k in lost {
        assert k in Restored(before, keys) && k !in Restored(before, keys) - lost;
      } else {
        assert Restored(before, keys) - {} == Restored(before, keys);
      }
    }

    lemma LookupsDetermine(a: View, b: View)
      requires forall k :: Lookup(a, k) == Lookup(b, k)
      ensures a == b
    {
      forall k ensures k in a <==> k in b {
        assert Lookup(a, k) == Lookup(b, k);
      }
      forall k | k in a ensures a[k] == b[k] {
        assert Lookup(a, k) == Lookup(b, k);
      }
    }

    // A refused set or a failed read-back names its item's path; a failed commit names none.
    ghost predicate NamesFailure(ws: seq<Staged>, r: SetResult) {
      r.Rejected? ==>
        (r.path == "" && r.message == "UCI commit failed") ||
        ((r.message == "UCI set failed" || r.message == "UCI read-back verification failed") &&
         exists i :: 0 <= i < |ws| && ws[i].path == r.path)
    }

    // What a caller may find after SetInUci, by its result and by how the run went.
    twostate predicate Settled(ws: seq<Staged>, r: SetResult, how: Course)
      reads this, uci
    {
      && SameOutside(old(uci.visible), uci.visible, KeysOf(ws)) && NamesFailure(ws, r)
      && (r.Accepted? ==>
            uci.visible == Applied(old(uci.visible), ws) && uci.durable == uci.visible && Consistent(ws) && AllSendable(ws))
      && how.lost <= KeysOf(ws) * old(uci.visible).Keys
      && (r.Rejected? && how.clean ==> uci.visible == Restored(old(uci.visible), KeysOf(ws)) - how.lost)
      && (r.Rejected? && how.clean ==>
            (uci.visible == Restored(old(uci.visible), KeysOf(ws)) <==> how.lost == {}))
      && (r.Rejected? ==>
            uci.durable == if how.recorded then uci.visible
                           else if how.committed then Applied(old(uci.visible), ws)
                           else old(uci.durable))
      && (uci.healthy && NulFree(old(uci.visible)) ==>
            how.lost == {} && how.clean && uci.durable == uci.visible &&
            Outcome(r, uci.visible) == UciOutcome(old(uci.visible), ws))
    }

    /**
     transformer/transformer.lua:347-492. For every request and every outcome of
     every command: acceptance means the whole plan is in force and durable;
     rejection means no write of the plan is, provided the rollback's own writes took
     effect, and none will be after a restart, provided its commit did as well. The
     old values are then back, except that every option whose first read failed is gone.
     */
    method SetParameterValues(items: seq<Item>, parameterKey: string) returns (r: SetResult, ghost how: Course)
      requires Valid()
      modifies this, uci
      ensures mockMode ==> uci.visible == old(uci.visible) && uci.durable == old(uci.durable)
      ensures !mockMode ==> mockValues == old(mockValues)
      ensures match PlanOf(model, items, parameterKey)
              case Refused(path, message) =>
                r == Rejected(path, message) && unchanged(this) && unchanged(uci)
              case Planned(ws) =>
                if mockMode then
                  Outcome(r, mockValues) == MockOutcome(old(mockValues), ws) || (r.Rejected? && unchanged(this))
                else Settled(ws, r, how)
    {
      how := SMOOTH;
      var plan := StageRequest(model, items);
      if plan.Refused? {
        return Rejected(plan.path, plan.message), SMOOTH;
      }
      var last := StageParameterKey(model, parameterKey);
      if last.Refused? {
        return Rejected(last.path, last.message), SMOOTH;
      }
      var ws := plan.staged + last.staged;
      PlanHasKeys(model, items, parameterKey);
      if mockMode {
        r := SetInMock(ws);
      } else {
        r, how := SetInUci(ws);
      }
    }

    // transformer/transformer.lua:392-405
    method SetInMock(ws: seq<Staged>) returns (r: SetResult)
      modifies this
      ensures Outcome(r, mockValues) == MockOutcome(old(mockValues), ws) ||
              (r == Rejected("", "cannot replace mock database") && unchanged(this))
    {
      var candidate := mockValues;
      for i := 0 to |ws|
        invariant candidate == Applied(mockValues, ws[..i])
      {
        assert ws[..i + 1][..i] == ws[..i];
        candidate := candidate[ws[i].key := ws[i].value];
      }
      assert ws[..|ws|] == ws;
      var saved: bool := *;
      if !saved {
        return Rejected("", "cannot replace mock database");
      }
      mockValues := candidate;
      return Accepted;
    }

    // transformer/transformer.lua:406-491
    method SetInUci(ws: seq<Staged>) returns (r: SetResult, ghost how: Course)
      requires Valid() && HasKeys(ws)
      modifies uci
      ensures Settled(ws, r, how)
    {
      hide UciOutcome, Applied, Restored, KeysOf, Sendable, ReadBack, AreOriginals;
      ghost var before, stable := uci.visible, uci.durable;
      how := SMOOTH;
      var originals;
      ghost var lost;
      originals, lost := RecordOriginals(ws);
      var failed := SendWrites(ws);
      if failed.Some? {
        how := Undo(before, originals, lost, false, ws);
        assert FirstNul(ws, 0) == failed ==>
          UciOutcome(before, ws) == Outcome(Rejected(ws[failed.value].path, SET_FAILED), Restored(before, KeysOf(ws)))
          by { FailedSet(before, ws); }
        return Rejected(ws[failed.value].path, SET_FAILED), how;
      }
      AppliedOutside(before, ws);
      CommitLineDenotesCommit(uci.bin);
      var ok;
      ghost var took, committed;
      ok, took, committed := uci.Execute(CommitLine(uci.bin));
      if !ok {
        how := Undo(before, originals, lost, committed, ws);
        return Rejected("", COMMIT_FAILED), how;
      }
      failed := VerifyWrites(ws);
      if failed.Some? {
        assert FirstMismatch(Applied(before, ws), ws, 0) == failed ==>
          UciOutcome(before, ws) == Outcome(Rejected(ws[failed.value].path, VERIFY_FAILED), Restored(before, KeysOf(ws)))
          by { FailedVerification(before, ws); }
        how := Undo(before, originals, lost, committed, ws);
        return Rejected(ws[failed.value].path, VERIFY_FAILED), how;
      }
      VerifiedPlan(before, ws);
      return Accepted, Course(lost, true, true, false);
    }

    lemma FailedSet(before: View, ws: seq<Staged>)
      ensures FirstNul(ws, 0).Some? ==>
        UciOutcome(before, ws) ==
        Outcome(Rejected(ws[FirstNul(ws, 0).value].path, SET_FAILED), Restored(before, KeysOf(ws)))
    {
    }

    lemma FailedVerification(before: View, ws: seq<Staged>)
      requires forall j :: 0 <= j < |ws| ==> NUL !in ws[j].value
      ensures FirstMismatch(Applied(before, ws), ws, 0).Some? ==>
        UciOutcome(before, ws) ==
        Outcome(Rejected(ws[FirstMismatch(Applied(before, ws), ws, 0).value].path, VERIFY_FAILED),
                Restored(before, KeysOf(ws)))
    {
    }

    lemma VerifiedPlan(before: View, ws: seq<Staged>)
      requires forall j :: 0 <= j < |ws| ==> NUL !in ws[j].value
      requires forall j :: 0 <= j < |ws| ==> ReadBack(Applied(before, ws), ws[j].key) == Some(ws[j].value)
      ensures Consistent(ws) && AllSendable(ws) && UciOutcome(before, ws) == Outcome(Accepted, Applied(before, ws))
    {
    }

    // transformer/transformer.lua:438-458: stop at the first set that reports a failure.
    method SendWrites(ws: seq<Staged>) returns (failed: Option<nat>)
      requires Valid() && HasKeys(ws)
      modifies uci
      ensures failed.None? ==> uci.visible == Applied(old(uci.visible), ws)
      ensures failed.None? ==> forall j :: 0 <= j < |ws| ==> NUL !in ws[j].value
      ensures uci.durable == old(uci.durable)
      ensures failed.Some? ==> failed.value < |ws| && SameOutside(old(uci.visible), uci.visible, KeysOf(ws)) &&
                               (uci.healthy ==> FirstNul(ws, 0) == failed)
    {
      hide Denotes, SetLine, FirstNul, KeysOf, IsKey, SameOutside;
      ghost var before := uci.visible;
      for i := 0 to |ws|
        invariant uci.visible == Applied(before, ws[..i]) && uci.durable == old(uci.durable)
        invariant forall j :: 0 <= j < i ==> NUL !in ws[j].value
      {
        assert ws[..i + 1][..i] == ws[..i];
        SetLineDenotesSet(uci.bin, ws[i].key, ws[i].value);
        var ok;
        ghost var took, stored;
        ghost var now := uci.visible;
        ok, took, stored := uci.Execute(SetLine(uci.bin, ws[i].key, ws[i].value));
        SetLineTouches(ws[i].key, ws[i].value, now, uci.visible);
        if !ok {
          PrefixOutside(before, ws, i);
          DebrisOutside(before, Applied(before, ws[..i]), uci.visible, ws, i);
          FirstNulIs(ws, i);
          return Some(i);
        }
      }
      assert ws[..|ws|] == ws;
      return None;
    }

    // transformer/transformer.lua:466-486
    method VerifyWrites(ws: seq<Staged>) returns (failed: Option<nat>)
      ensures failed.None? ==> forall j :: 0 <= j < |ws| ==> ReadBack(uci.visible, ws[j].key) == Some(ws[j].value)
      ensures failed.Some? ==> failed.value < |ws| && (uci.healthy ==> FirstMismatch(uci.visible, ws, 0) == failed)
    {
      for i := 0 to |ws|
        invariant forall j :: 0 <= j < i ==> ReadBack(uci.visible, ws[j].key) == Some(ws[j].value)
      {
        ghost var exact;
        var applied;
        applied, exact := uci.Get(ws[i].key);
        if applied != Some(ws[i].value) {
          FirstMismatchIs(uci.visible, ws, i);
          return Some(i);
        }
      }
      return None;
    }

    method Undo(ghost before: View, originals: map<string, Option<string>>, ghost lost: set<string>,
                ghost committed: bool, ghost ws: seq<Staged>)
      returns (ghost how: Course)
      requires Valid() && HasKeys(ws) && originals.Keys == KeysOf(ws) && AreOriginals(originals, before, lost)
      requires SameOutside(before, uci.visible, KeysOf(ws))
      modifies uci
      ensures how.lost == lost && how.committed == committed
      ensures how.clean ==> uci.visible == Restored(before, KeysOf(ws)) - lost
      ensures how.clean ==> (uci.visible == Restored(before, KeysOf(ws)) <==> lost == {})
      ensures SameOutside(before, uci.visible, KeysOf(ws))
      ensures uci.durable == if how.recorded then uci.visible else old(uci.durable)
      ensures uci.healthy && NulFree(before) ==> how.clean
      ensures uci.healthy ==> how.recorded
    {
      forall k | k in originals ensures IsKey(k) {
        var w :| w in ws && w.key == k;
      }
      ghost var clean, recorded := RestoreOriginals(originals);
      if clean {
        RollbackRestores(before, uci.visible, originals, lost);
        LossShows(before, KeysOf(ws), lost);
      }
      how := Course(lost, clean, committed, recorded);
    }

    // What a failed write may leave behind is at its own key.
    lemma DebrisOutside(before: View, now: View, later: View, ws: seq<Staged>, i: nat)
      requires i < |ws| && SameOutside(before, now, KeysOf(ws)) && SameOutside(now, later, {ws[i].key})
      ensures SameOutside(before, later, KeysOf(ws))
    {
      assert ws[i] in ws;
    }

    // A set line touches its key, or nothing.
    lemma SetLineTouches(key: string, value: string, now: View, later: View)
      requires IsKey(key)
      requires var d := Denotes(SetLine(uci.bin, key, value));
               SameOutside(now, later, if d.Some? then Touched(d.value) else {})
      requires Valid()
      ensures SameOutside(now, later, {key})
    {
      hide Denotes, SetLine;
      SetLineDenotesSet(uci.bin, key, value);
    }

    lemma PrefixOutside(before: View, ws: seq<Staged>, n: nat)
      requires n <= |ws|
      ensures SameOutside(before, Applied(before, ws[..n]), KeysOf(ws))
    {
      AppliedOutside(before, ws[..n]);
      assert KeysOf(ws[..n]) <= KeysOf(ws);
    }

    lemma FirstNulIs(ws: seq<Staged>, i: nat)
      requires i < |ws| && forall j :: 0 <= j < i ==> NUL !in ws[j].value
      ensures NUL in ws[i].value ==> FirstNul(ws, 0) == Some(i)
    {
      ScanToNul(ws, 0, i);
    }

    lemma {:induction false} ScanToNul(ws: seq<Staged>, from: nat, i: nat)
      requires from <= i < |ws| && forall j :: from <= j < i ==> NUL !in ws[j].value
      ensures NUL in ws[i].value ==> FirstNul(ws, from) == Some(i)
      decreases i - from
    {
      if from < i {
        ScanToNul(ws, from + 1, i);
      }
    }

    lemma FirstMismatchIs(view: View, ws: seq<Staged>, i: nat)
      requires i < |ws| && forall j :: 0 <= j < i ==> ReadBack(view, ws[j].key) == Some(ws[j].value)
      ensures ReadBack(view, ws[i].key) != Some(ws[i].value) ==> FirstMismatch(view, ws, 0) == Some(i)
    {
      ScanToMismatch(view, ws, 0, i);
    }

    lemma {:induction false} ScanToMismatch(view: View, ws: seq<Staged>, from: nat, i: nat)
      requires from <= i < |ws| && forall j :: from <= j < i ==> ReadBack(view, ws[j].key) == Some(ws[j].value)
      ensures ReadBack(view, ws[i].key) != Some(ws[i].value) ==> FirstMismatch(view, ws, from) == Some(i)
      decreases i - from
    {
      if from < i {
        ScanToMismatch(view, ws, from + 1, i);
      }
    }
  }
}
