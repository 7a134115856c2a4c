/**
 The daemon of src/Tr069Daemon.cpp. One thread owns the configuration and the
 listener and runs the methods below; `OtherThreads` stands for everything else
 that can happen between two of its steps: request flags raised from other
 threads, and other programs writing UCI options. Ghost fields record what has
 been asked for, so that the class invariant `Inv` can speak about whole runs.
 */
module Daemon {
  import opened Wrappers
  import opened Text
  import opened UciCommands
  import opened DeviceMap
  import opened Transaction
  import opened Reading
  import opened RuntimeConfig
  import CwmpSession

  datatype WakeReason = Stop | Periodic | ConnectionRequest | Reload | Reconnect | InformNow

  type SessionOutcome = CwmpSession.SessionOutcome

  const M_REBOOT := "M Reboot"

  // One call of session.run: what it reported to the ACS, and what came of it.
  datatype SessionRecord = SessionRecord(events: seq<string>, outcome: SessionOutcome)

  predicate Delivers(r: SessionRecord) {
    r.outcome.success && M_REBOOT in r.events
  }

  // Some Reboot has been returned by a session, and no later successful session carried "M Reboot".
  ghost predicate Owed(history: seq<SessionRecord>) {
    exists i :: 0 <= i < |history| && history[i].outcome.rebootRequested &&
                forall j :: i < j < |history| ==> !Delivers(history[j])
  }

  lemma OwedAfter(history: seq<SessionRecord>, r: SessionRecord)
    ensures Owed(history + [r]) <==> r.outcome.rebootRequested || (Owed(history) && !Delivers(r))
  {
    var h, n := history + [r], |history|;
    if r.outcome.rebootRequested {
      assert h[n].outcome.rebootRequested;
    } else if Owed(history) && !Delivers(r) {
      var i :| 0 <= i < n && history[i].outcome.rebootRequested && forall j :: i < j < n ==> !Delivers(history[j]);
      assert h[i].outcome.rebootRequested;
      assert forall j :: i < j < n + 1 ==> !Delivers(h[j]);
    }
    if Owed(h) && !r.outcome.rebootRequested {
      var i :| 0 <= i < n + 1 && h[i].outcome.rebootRequested && forall j :: i < j < n + 1 ==> !Delivers(h[j]);
      assert i < n && history[i].outcome.rebootRequested;
      assert !Delivers(h[n]);
      forall j | i < j < n ensures !Delivers(history[j]) {
        assert h[j] == history[j];
      }
    }
  }

  // ---------------------------------------------------------------------
  // The pure steps.

  // src/Tr069Daemon.cpp:166-171: what a read-back makes of the configuration.
  function Updated(previous: DaemonConfig, read: DaemonConfig, initial: bool): DaemonConfig {
    if !initial && read.acsUrl == "" && previous.acsUrl != "" then read.(acsUrl := previous.acsUrl) else read
  }

  predicate ConnectionChanged(a: DaemonConfig, b: DaemonConfig) {
    a.connectionRequestEnable != b.connectionRequestEnable || !ListenerEqual(a.listener, b.listener)
  }

  function EventsAfter(wake: WakeReason): seq<string> {
    match wake
    case ConnectionRequest => ["6 CONNECTION REQUEST"]
    case Periodic => ["2 PERIODIC"]
    case InformNow => ["2 PERIODIC"]
    case _ => ["4 VALUE CHANGE"]
  }

  // src/Tr069Daemon.cpp:274-277
  function BootEvents(config: DaemonConfig): seq<string> {
    (if config.bootstrapDone then [] else ["0 BOOTSTRAP"]) + ["1 BOOT"] +
    (if config.pendingRebootEvent then [M_REBOOT] else [])
  }

  // Which codes a start reports: the first of them on the first start only, the last for an owed reboot, no others.
  ghost predicate TellsBoot(events: seq<string>, bootstrapDone: bool, pending: bool) {
    && ("M Reboot" in events <==> pending)
    && ("0 BOOTSTRAP" in events <==> !bootstrapDone)
    && "1 BOOT" in events
    && (forall i :: 0 <= i < |events| ==> events[i] in {"0 BOOTSTRAP", "1 BOOT", "M Reboot"})
    && (forall i, j :: 0 <= i < |events| && 0 <= j < |events| && events[i] == events[j] ==> i == j)
  }

  lemma BootReportsPending(config: DaemonConfig)
    ensures TellsBoot(BootEvents(config), config.bootstrapDone, config.pendingRebootEvent)
  {
    assert "0 BOOTSTRAP"[0] != M_REBOOT[0] && "1 BOOT"[0] != M_REBOOT[0] && "0 BOOTSTRAP"[0] != "1 BOOT"[0];
  }

  /** No two kinds of wake-up share a code, but the timer and requestInformNow. */
  lemma EventsTellWake(wake: WakeReason)
    ensures EventsAfter(wake) == ["6 CONNECTION REQUEST"] <==> wake == ConnectionRequest
    ensures EventsAfter(wake) == ["2 PERIODIC"] <==> wake == Periodic || wake == InformNow
    ensures EventsAfter(wake) in {["6 CONNECTION REQUEST"], ["2 PERIODIC"], ["4 VALUE CHANGE"]}
    ensures M_REBOOT !in EventsAfter(wake)
  {
    assert "6 CONNECTION REQUEST"[0] != "2 PERIODIC"[0] && "6 CONNECTION REQUEST"[0] != "4 VALUE CHANGE"[0];
    assert "2 PERIODIC"[0] != "4 VALUE CHANGE"[0];
    FirstCharacters("6 CONNECTION REQUEST", "2 PERIODIC", "4 VALUE CHANGE");
  }

  lemma FirstCharacters(a: string, b: string, c: string)
    requires a != "" && b != "" && c != "" && a[0] != b[0] && a[0] != c[0] && b[0] != c[0]
    requires a[0] != M_REBOOT[0] && b[0] != M_REBOOT[0] && c[0] != M_REBOOT[0]
    ensures [a] != [b] && [a] != [c] && [b] != [c]
    ensures M_REBOOT !in [a] && M_REBOOT !in [b] && M_REBOOT !in [c]
  {
    assert [a][0] != [b][0] && [a][0] != [c][0] && [b][0] != [c][0];
  }

  type Snapshot = map<string, Option<string>>

  function SourceOf(s: Snapshot): Source {
    key => if key in s then s[key] else None
  }

  // Every setting read so far still reads the same, unless its key has been written since.
  ghost predicate FreshFor(raw: Snapshot, uci: View, written: set<string>, done: set<Setting>) {
    forall s :: s in done && SettingKey(s) !in written ==> At(SourceOf(raw), s) == At(UciSource(uci), s)
  }

  lemma StillFresh(raw: Snapshot, done: set<Setting>, before: View, was: set<string>, after: View, now: set<string>)
    requires FreshFor(raw, before, was, done) && was <= now
    requires forall k :: k !in now ==> Lookup(after, k) == Lookup(before, k)
    ensures FreshFor(raw, after, now, done)
  {
  }

  // One more setting has been read, or its reading has failed and its key counts as written.
  lemma ReadOneMore(raw: Snapshot, done: set<Setting>, uci: View, before: set<string>, written: set<string>, s: Setting,
                    value: Option<string>)
    requires FreshFor(raw, uci, before, done) && before <= written
    requires value == ReadBack(uci, SettingKey(s)) || SettingKey(s) in written
    ensures FreshFor(raw[SettingKey(s) := value], uci, written, done + {s})
  {
    hide SettingKey, ReadBack;
  }

  lemma PendingIsRead(raw: Snapshot, uci: View, written: set<string>)
    requires FreshFor(raw, uci, written, Settings()) && SettingKey(PendingReboot) !in written
    ensures At(SourceOf(raw), PendingReboot) == At(UciSource(uci), PendingReboot)
  {
  }

  /** Two reads of one store give one configuration, and installing the second changes nothing. */
  lemma SecondRefreshIsQuiet(previous: DaemonConfig, first: Snapshot, second: Snapshot, uci: View, platform: Platform,
                             initial: bool)
    requires FreshFor(first, uci, {}, Settings()) && FreshFor(second, uci, {}, Settings())
    ensures var once := Updated(previous, Decode(SourceOf(first), platform), initial);
            Updated(once, Decode(SourceOf(second), platform), false) == once
  {
    hide Decode, FreshFor, Settings;
    OneStoreOneReading(first, second, uci, platform);
    SameReadIsQuiet(previous, Decode(SourceOf(first), platform), initial);
  }

  lemma OneStoreOneReading(first: Snapshot, second: Snapshot, uci: View, platform: Platform)
    requires FreshFor(first, uci, {}, Settings()) && FreshFor(second, uci, {}, Settings())
    ensures Decode(SourceOf(first), platform) == Decode(SourceOf(second), platform)
  {
    hide Decode, SettingKey, Settings;
    forall s | s in Settings() ensures At(SourceOf(first), s) == At(SourceOf(second), s) {
      assert At(SourceOf(first), s) == At(UciSource(uci), s);
    }
    DecodeDependsOnSettings(SourceOf(first), SourceOf(second), platform);
  }

  lemma SameReadIsQuiet(previous: DaemonConfig, read: DaemonConfig, initial: bool)
    ensures var once := Updated(previous, read, initial); Updated(once, read, false) == once
  {
    var once := Updated(previous, read, initial);
    assert once.acsUrl == read.acsUrl ==> once == read;
  }

  // No setting is among the keys.
  ghost predicate NoSettingIn(keys: set<string>) {
    forall s :: s in Settings() ==> SettingKey(s) !in keys
  }

  lemma NothingWritten(raw: Snapshot, uci: View, later: View, written: set<string>, since: set<string>)
    requires FreshFor(raw, uci, written, Settings()) && NoSettingIn(written) && NoSettingIn(since)
    requires forall k :: k !in since ==> Lookup(later, k) == Lookup(uci, k)
    ensures FreshFor(raw, later, {}, Settings())
  {
    hide SettingKey, Settings;
    forall s | s in Settings() ensures At(SourceOf(raw), s) == At(UciSource(later), s) {
      assert Lookup(later, SettingKey(s)) == Lookup(uci, SettingKey(s));
    }
  }

  // A configuration is what a read says, up to a preserved ACS URL and the daemon's own two flags.
  ghost predicate Matches(config: DaemonConfig, read: DaemonConfig) {
    && config == read.(acsUrl := config.acsUrl, bootstrapDone := config.bootstrapDone,
                       pendingRebootEvent := config.pendingRebootEvent)
    && (read.acsUrl != "" ==> config.acsUrl == read.acsUrl)
  }

  lemma UpdatedMatches(previous: DaemonConfig, read: DaemonConfig, initial: bool)
    ensures var now := Updated(previous, read, initial);
            && Matches(now, read)
            && now.pendingRebootEvent == read.pendingRebootEvent
            && (!initial && previous.acsUrl != "" ==> now.acsUrl != "")
  {
  }

  /** Everything comes from the read-back, but an ACS URL that is gone at run time: the one before stays. */
  lemma OnlyUrlIsKept(previous: DaemonConfig, read: DaemonConfig, initial: bool)
    ensures var now := Updated(previous, read, initial);
            now == read.(acsUrl := now.acsUrl) &&
            now.acsUrl == if initial || read.acsUrl != "" then read.acsUrl else previous.acsUrl
  {
  }

  lemma SameConnection(a: DaemonConfig, b: DaemonConfig)
    ensures ConnectionChanged(a, b) <==>
            a.connectionRequestEnable != b.connectionRequestEnable || a.listener != b.listener
    ensures ConnectionChanged(a, b) <==> ConnectionChanged(b, a)
  {
  }

  lemma DecodedPending(source: Source, platform: Platform)
    ensures Decode(source, platform).pendingRebootEvent == GetBool(At(source, PendingReboot), false)
  {
  }

  lemma FlagsAreExempt(config: DaemonConfig, read: DaemonConfig, bootstrap: bool, pending: bool)
    requires Matches(config, read)
    ensures Matches(config.(bootstrapDone := bootstrap, pendingRebootEvent := pending), read)
  {
  }

  predicate OnlyFlagsDiffer(a: DaemonConfig, b: DaemonConfig) {
    a == b.(bootstrapDone := a.bootstrapDone, pendingRebootEvent := a.pendingRebootEvent)
  }

  lemma FlagTexts()
    ensures TrimLineEnds("1") == "1" && TrimLineEnds("0") == "0"
    ensures GetBool(Some("1"), false) && !GetBool(Some("0"), false)
    ensures SettingKey(BootstrapDone) != SettingKey(PendingReboot)
  {
  }

  function FlagText(value: bool): string {
    if value then "1" else "0"
  }

  // How often each kind of wake-up was requested, or has been served.
  datatype Tally = Tally(connection: nat, reload: nat, reconnect: nat, informNow: nat)

  function One(b: bool): nat {
    if b then 1 else 0
  }

  class Tr069Daemon {
    const platform: Platform
    const readsWork: bool // no read of an option ever fails
    const flagWritesWork: bool // nor any write of the daemon's own flags
    const socketsWork: bool // every listener can be opened

    var uci: View
    var config: DaemonConfig
    var listener: Option<ListenerConfig>
    var events: seq<string>
    var stop: bool
    var connectionRequested: bool
    var reloadRequested: bool
    var reconnectRequested: bool
    var informNowRequested: bool

    ghost var snapshot: Snapshot // what each setting read when config was last read
    ghost var written: set<string> // keys written since the start of the last refresh, or misread by it
    ghost var stale: set<string> // the same since the last requestReload, if that was later
    ghost var asked: Tally
    ghost var paid: Tally
    ghost var history: seq<SessionRecord>
    ghost var booted: bool // no pass of the loop since the start or the last reboot in mock mode
    ghost var restarts: nat

    constructor (platform: Platform, readsWork: bool, flagWritesWork: bool, socketsWork: bool, uci: View)
      ensures this.platform == platform && this.uci == uci
      ensures this.readsWork == readsWork && this.flagWritesWork == flagWritesWork && this.socketsWork == socketsWork
      ensures history == [] && listener.None? && asked == paid == Tally(0, 0, 0, 0)
      ensures !stop && !connectionRequested && !reloadRequested && !reconnectRequested && !informNowRequested
      ensures Survives() <==> (Works() ==> !StoredPending())
    {
      this.platform := platform;
      this.readsWork, this.flagWritesWork, this.socketsWork := readsWork, flagWritesWork, socketsWork;
      this.uci := uci;
      hide Decode;
      config := Decode(SourceOf(map[]), platform);
      listener := None;
      events := [];
      stop, connectionRequested, reloadRequested, reconnectRequested, informNowRequested :=
        false, false, false, false, false;
      snapshot, written, stale := map[], {}, {};
      asked, paid := Tally(0, 0, 0, 0), Tally(0, 0, 0, 0);
      history, restarts, booted := [], 0, false;
    }

    predicate Works() {
      readsWork && flagWritesWork
    }

    // -------------------------------------------------------------------
    // Invariants.

    // No reload is lost: what was read stays current up to the keys written since,
    // and while no reload is pending those were all written after the last request.
    ghost predicate Fresh()
      reads this
    {
      FreshFor(snapshot, uci, written, Settings()) && NoneMissed()
    }

    ghost predicate NoneMissed()
      reads this
    {
      !reloadRequested ==> written <= stale
    }

    // The configuration is what the snapshot says.
    ghost predicate Reflects()
      reads this
    {
      Matches(config, Decode(SourceOf(snapshot), platform))
    }

    // Installing what was read once more would change nothing.
    ghost predicate Installed()
      reads this
    {
      Updated(config, Decode(SourceOf(snapshot), platform), false) == config
    }

    // A live listener is what the configuration says, and there is one whenever it can be.
    ghost predicate ListenerAgrees()
      reads this
    {
      if listener.Some? then config.connectionRequestEnable && listener.value == config.listener
      else socketsWork ==> !config.connectionRequestEnable
    }

    // Every served wake-up, and every one still pending, goes back to a request of its own.
    ghost predicate PaidFor()
      reads this
    {
      && paid.connection + One(connectionRequested) <= asked.connection
      && paid.reload + One(reloadRequested) <= asked.reload
      && paid.reconnect + One(reconnectRequested) <= asked.reconnect
      && paid.informNow + One(informNowRequested) <= asked.informNow
    }

    ghost predicate StoredPending()
      reads this
    {
      GetBool(At(UciSource(uci), PendingReboot), false)
    }

    // All of these. They hold throughout the loop, but between taking a reload and serving it.
    ghost predicate Ready()
      reads this
    {
      Fresh() && Reflects() && ListenerAgrees() && PaidFor()
    }

    ghost predicate Steady()
      reads this
    {
      Ready() && (readsWork ==> config.pendingRebootEvent == StoredPending())
    }

    // What a restart of the process finds: UCI remembers whether a reboot still has to be reported.
    ghost predicate Survives()
      reads this
    {
      PaidFor() && (Works() ==> StoredPending() == Owed(history))
    }

    // "M Reboot" is about to be reported exactly when a reboot is owed and no pass has gone by since the boot.
    ghost predicate ReportsOwed()
      reads this
    {
      Works() ==> (M_REBOOT in events <==> Owed(history) && booted)
    }

    /** The invariant of every loop top. */
    ghost predicate Inv()
      reads this
    {
      Steady() && Survives() && ReportsOwed()
    }

    /** What `Fresh` means to an operator: after a reload with no later write, the daemon runs on the stored settings. */
    lemma NoReloadIsLost()
      requires Fresh() && Reflects() && !reloadRequested
      requires forall s :: s in Settings() ==> SettingKey(s) !in stale
      ensures Matches(config, Decode(UciSource(uci), platform))
    {
      hide Decode, Matches, SettingKey;
      DecodeDependsOnSettings(SourceOf(snapshot), UciSource(uci), platform);
    }

    // -------------------------------------------------------------------
    // Other threads and other programs.

    twostate predicate OthersActed()
      reads this
    {
      && (old(stop) ==> stop)
      && (old(connectionRequested) ==> connectionRequested)
      && (old(reconnectRequested) ==> reconnectRequested)
      && (old(informNowRequested) ==> informNowRequested)
      && (old(reloadRequested) ==> reloadRequested)
      && (old(NoneMissed()) ==> NoneMissed())
      && old(written) <= written && (forall k :: k !in written ==> Lookup(uci, k) == Lookup(old(uci), k))
      && (readsWork && SettingKey(PendingReboot) in written ==> SettingKey(PendingReboot) in old(written))
      && asked.connection - One(connectionRequested) >= old(asked.connection - One(connectionRequested))
      && asked.reload - One(reloadRequested) >= old(asked.reload - One(reloadRequested))
      && asked.reconnect - One(reconnectRequested) >= old(asked.reconnect - One(reconnectRequested))
      && asked.informNow - One(informNowRequested) >= old(asked.informNow - One(informNowRequested))
      && Lookup(uci, SettingKey(PendingReboot)) == Lookup(old(uci), SettingKey(PendingReboot))
    }

    method RequestStop()
      modifies `stop
      ensures stop
    {
      stop := true;
    }

    method TriggerConnectionRequest()
      modifies `connectionRequested, `asked
      ensures connectionRequested && asked == old(asked).(connection := old(asked).connection + 1)
    {
      connectionRequested := true;
      asked := asked.(connection := asked.connection + 1);
    }

    method RequestReload()
      modifies `reloadRequested, `asked, `stale
      ensures reloadRequested && stale == {} && asked == old(asked).(reload := old(asked).reload + 1)
    {
      reloadRequested := true;
      stale := {};
      asked := asked.(reload := asked.reload + 1);
    }

    method RequestReconnect()
      modifies `reconnectRequested, `asked
      ensures reconnectRequested && asked == old(asked).(reconnect := old(asked).reconnect + 1)
    {
      reconnectRequested := true;
      asked := asked.(reconnect := asked.reconnect + 1);
    }

    method RequestInformNow()
      modifies `informNowRequested, `asked
      ensures informNowRequested && asked == old(asked).(informNow := old(asked).informNow + 1)
    {
      informNowRequested := true;
      asked := asked.(informNow := asked.informNow + 1);
    }

    // Any program may write or delete any option, except that nobody else owns the pending flag.
    method ExternalWrite(key: string, value: string)
      requires key != SettingKey(PendingReboot)
      modifies `uci, `written, `stale
      ensures uci == old(uci)[key := value] && written == old(written) + {key} && stale == old(stale) + {key}
    {
      uci := uci[key := value];
      written := written + {key};
      stale := stale + {key};
    }

    // The transformer's rollback deletes options, for one.
    method ExternalDelete(key: string)
      requires key != SettingKey(PendingReboot)
      modifies `uci, `written, `stale
      ensures uci == old(uci) - {key} && written == old(written) + {key} && stale == old(stale) + {key}
    {
      uci := uci - {key};
      written := written + {key};
      stale := stale + {key};
    }

    method OneRequest()
      modifies `stale, `asked, `stop, `connectionRequested, `reloadRequested, `reconnectRequested, `informNowRequested
      ensures OthersActed()
    {
      hide SettingKey;
      var choice: int := *;
      if choice == 0 {
        RequestStop();
      } else if choice == 1 {
        TriggerConnectionRequest();
      } else if choice == 2 {
        RequestReload();
      } else if choice == 3 {
        RequestReconnect();
      } else {
        RequestInformNow();
      }
    }

    method OneWrite()
      modifies `uci, `written, `stale
      ensures OthersActed()
    {
      hide SettingKey;
      var key: string, value: Option<string> := *, *;
      if key != SettingKey(PendingReboot) {
        if value.Some? {
          ExternalWrite(key, value.value);
        } else {
          ExternalDelete(key);
        }
      }
    }

    method OneAction()
      modifies `uci, `written, `stale, `asked
      modifies `stop, `connectionRequested, `reloadRequested, `reconnectRequested, `informNowRequested
      ensures OthersActed()
    {
      hide SettingKey;
      var request: bool := *;
      if request {
        OneRequest();
      } else {
        OneWrite();
      }
    }

    // Any number of actions, in any order.
    method OtherThreads()
      modifies `uci, `written, `stale, `asked
      modifies `stop, `connectionRequested, `reloadRequested, `reconnectRequested, `informNowRequested
      ensures OthersActed()
    {
      var actions: nat :| 0 <= actions;
      for i := 0 to actions
        invariant OthersActed()
      {
        OneAction();
      }
    }

    // -------------------------------------------------------------------
    // The daemon thread.

    // src/Tr069Daemon.cpp:103-158: one option after the other, with the world going on in between.
    method ReadConfig() returns (read: DaemonConfig, ghost taken: Snapshot)
      modifies `uci, `written, `stale, `asked
      modifies `stop, `connectionRequested, `reloadRequested, `reconnectRequested, `informNowRequested
      ensures OthersActed()
      ensures read == Decode(SourceOf(taken), platform)
      ensures FreshFor(taken, uci, written, Settings())
    {
      hide SettingKey, Decode, FreshFor, At, Settings;
      var raw: Snapshot := map[];
      var left := Settings();
      assert Settings() - left == {};
      assert FreshFor(raw, uci, written, {}) by { NothingRead(raw, uci, written); }
      while left != {}
        invariant left <= Settings() && OthersActed()
        invariant FreshFor(raw, uci, written, Settings() - left)
        decreases |left|
      {
        ghost var done := Settings() - left;
        var s :| s in left;
        left := left - {s};
        assert Settings() - left == done + {s};
        var value := ReadSetting(raw, done, s);
        raw := raw[SettingKey(s) := value];
      }
      assert Settings() - {} == Settings();
      WaitALittle(raw, Settings());
      read := Decode(SourceOf(raw), platform);
      taken := raw;
    }

    // One `uci get`: nothing for an absent option, and possibly nothing for a present one.
    method ReadOption(key: string) returns (value: Option<string>)
      modifies `written, `stale
      ensures || (value == ReadBack(uci, key) && unchanged(this))
              || (!readsWork && value.None? && written == old(written) + {key} && stale == old(stale) + {key})
    {
      value := ReadBack(uci, key);
      var failed: bool := *;
      if failed && !readsWork {
        value := None;
        written, stale := written + {key}, stale + {key};
      }
    }

    // One setting, after other threads had a chance to act.
    method ReadSetting(ghost raw: Snapshot, ghost done: set<Setting>, s: Setting) returns (value: Option<string>)
      requires FreshFor(raw, uci, written, done)
      modifies `uci, `written, `stale, `asked
      modifies `stop, `connectionRequested, `reloadRequested, `reconnectRequested, `informNowRequested
      ensures OthersActed()
      ensures FreshFor(raw[SettingKey(s) := value], uci, written, done + {s})
    {
      hide SettingKey, FreshFor;
      WaitALittle(raw, done);
      ghost var before := written;
      value := ReadOption(SettingKey(s));
      ReadOneMore(raw, done, uci, before, written, s, value);
    }

    lemma NothingRead(raw: Snapshot, uci: View, written: set<string>)
      ensures FreshFor(raw, uci, written, {})
    {
    }

    // Other threads act between two reads.
    method WaitALittle(ghost raw: Snapshot, ghost done: set<Setting>)
      requires FreshFor(raw, uci, written, done)
      modifies `uci, `written, `stale, `asked
      modifies `stop, `connectionRequested, `reloadRequested, `reconnectRequested, `informNowRequested
      ensures OthersActed()
      ensures FreshFor(raw, uci, written, done)
    {
      hide SettingKey, FreshFor;
      ghost var before, was := uci, written;
      OtherThreads();
      StillFresh(raw, done, before, was, uci, written);
    }

    // src/Tr069Daemon.cpp:202-222; the socket may fail to open.
    method RestartConnectionRequestServer()
      modifies `listener, `restarts
      ensures ListenerAgrees() && restarts == old(restarts) + 1
      ensures !config.connectionRequestEnable ==> listener.None?
    {
      restarts := restarts + 1;
      listener := None;
      if !config.connectionRequestEnable {
        return;
      }
      var started: bool := *;
      if started || socketsWork {
        listener := Some(config.listener);
      }
    }

    // src/Tr069Daemon.cpp:160-200
    method RefreshConfig(initial: bool) returns (changed: bool)
      requires !initial ==> ListenerAgrees()
      modifies `config, `listener, `restarts, `snapshot
      modifies `uci, `written, `stale, `asked
      modifies `stop, `connectionRequested, `reloadRequested, `reconnectRequested, `informNowRequested
      ensures Fresh() && Reflects() && Installed()
      ensures config == Updated(old(config), Decode(SourceOf(snapshot), platform), initial)
      ensures changed <==> initial || config != old(config)
      ensures !initial ==> ListenerAgrees() && (old(config).acsUrl != "" ==> config.acsUrl != "")
      ensures initial || !ConnectionChanged(old(config), config) ==>
                listener == old(listener) && restarts == old(restarts)
      ensures !initial && old(Fresh() && Installed() && NoSettingIn(written)) && NoSettingIn(written) ==>
                !changed && listener == old(listener) && restarts == old(restarts)
      ensures readsWork ==> config.pendingRebootEvent == StoredPending()
      ensures FlagsKept() && (old(PaidFor()) ==> PaidFor())
      ensures StoredPending() == old(StoredPending())
    {
      hide Decode, FreshFor, At, GetBool, Settings, Matches, Updated, ConnectionChanged, SettingKey, NoSettingIn;
      ghost var before, was, since := snapshot, uci, written;
      ghost var current := Fresh();
      var read;
      ghost var taken;
      read, taken := ReadSettings();
      SameReading(before, was, since, taken, current);
      changed := Install(read, taken, initial);
    }

    lemma NoneInNothing()
      ensures NoSettingIn({})
    {
    }

    // Nothing written since the last read, and nothing meanwhile: the same configuration is read again.
    lemma SameReading(before: Snapshot, was: View, since: set<string>, taken: Snapshot, current: bool)
      requires current ==> FreshFor(before, was, since, Settings())
      requires FreshFor(taken, uci, written, Settings())
      requires forall k :: k !in written ==> Lookup(uci, k) == Lookup(was, k)
      ensures current && NoSettingIn(since) && NoSettingIn(written) ==>
                Decode(SourceOf(before), platform) == Decode(SourceOf(taken), platform)
    {
      hide Decode, FreshFor, Settings, NoSettingIn;
      if current && NoSettingIn(since) && NoSettingIn(written) {
        NothingWritten(before, was, uci, since, written);
        assert NoSettingIn({}) by { NoneInNothing(); }
        NothingWritten(taken, uci, uci, written, {});
        OneStoreOneReading(before, taken, uci, platform);
      }
    }

    /**
     Two refreshes in a row, the first one of any kind (after an initial one the listener is
     started). `during` are the keys written during the first, `count` and `live` the restarts
     and the listener after it. When no setting is written meanwhile, the second reports no
     change and leaves both as they are.
     */
    method RefreshTwice(initial: bool)
      returns (first: bool, second: bool, ghost during: set<string>, ghost count: nat, ghost live: Option<ListenerConfig>)
      requires !initial ==> ListenerAgrees()
      modifies `config, `listener, `restarts, `snapshot
      modifies `uci, `written, `stale, `asked
      modifies `stop, `connectionRequested, `reloadRequested, `reconnectRequested, `informNowRequested
      ensures NoSettingIn(during) && NoSettingIn(written) ==> !second && restarts == count && listener == live
    {
      hide Decode, FreshFor, Matches, Updated, ConnectionChanged, NoSettingIn, At, GetBool, SettingKey, Settings;
      first := RefreshConfig(initial);
      if initial {
        RestartConnectionRequestServer();
      }
      during, count, live := written, restarts, listener;
      second := RefreshConfig(false);
    }

    // src/Tr069Daemon.cpp:161-167: from here on, only later writes count as stale.
    method ReadSettings() returns (read: DaemonConfig, ghost taken: Snapshot)
      modifies `uci, `written, `stale, `asked
      modifies `stop, `connectionRequested, `reloadRequested, `reconnectRequested, `informNowRequested
      ensures read == Decode(SourceOf(taken), platform)
      ensures FreshFor(taken, uci, written, Settings()) && NoneMissed()
      ensures forall k :: k !in written ==> Lookup(uci, k) == Lookup(old(uci), k)
      ensures readsWork ==> read.pendingRebootEvent == StoredPending()
      ensures StoredPending() == old(StoredPending())
      ensures FlagsKept()
      ensures old(PaidFor()) ==> PaidFor()
    {
      hide SettingKey, Decode, FreshFor, At, GetBool, Settings;
      written, stale := {}, {};
      read, taken := ReadConfig();
      PendingUnchanged(old(uci), uci);
      if readsWork {
        PendingIsRead(taken, uci, written);
      }
      DecodedPending(SourceOf(taken), platform);
    }

    // src/Tr069Daemon.cpp:167-200, after the read
    method Install(read: DaemonConfig, ghost taken: Snapshot, initial: bool) returns (changed: bool)
      requires read == Decode(SourceOf(taken), platform)
      requires !initial ==> ListenerAgrees()
      modifies `config, `listener, `restarts, `snapshot
      ensures snapshot == taken && config == Updated(old(config), read, initial)
      ensures changed <==> initial || config != old(config)
      ensures !initial ==> ListenerAgrees() && (old(config).acsUrl != "" ==> config.acsUrl != "")
      ensures initial || !ConnectionChanged(old(config), config) ==> listener == old(listener) && restarts == old(restarts)
      ensures Matches(config, read) && config.pendingRebootEvent == read.pendingRebootEvent
      ensures Updated(config, read, false) == config
      ensures !initial && Updated(old(config), read, false) == old(config) ==>
                !changed && listener == old(listener) && restarts == old(restarts)
    {
      hide Decode, Matches, Updated, RuntimeEqual, ConnectionChanged;
      var previous := config;
      var updated := Updated(previous, read, initial);
      var connectionChanged := ConnectionChanged(updated, previous);
      changed := initial || !RuntimeEqual(updated, previous) || updated.bootstrapDone != previous.bootstrapDone ||
                 updated.pendingRebootEvent != previous.pendingRebootEvent;
      ComparisonIsComplete(updated, previous);
      UpdatedMatches(previous, read, initial);
      SameReadIsQuiet(previous, read, initial);
      SameConnection(updated, previous);
      config := updated;
      snapshot := taken;
      if !initial && connectionChanged {
        RestartConnectionRequestServer();
      }
    }

    lemma PendingUnchanged(before: View, after: View)
      requires Lookup(after, SettingKey(PendingReboot)) == Lookup(before, SettingKey(PendingReboot))
      ensures At(UciSource(after), PendingReboot) == At(UciSource(before), PendingReboot)
    {
    }

    // Requests that were pending stay pending.
    ghost predicate OthersActedAfter(reload: bool, stopped: bool, connection: bool, reconnect: bool, inform: bool)
      reads this
    {
      && (reload ==> reloadRequested) && (stopped ==> stop) && (connection ==> connectionRequested)
      && (reconnect ==> reconnectRequested) && (inform ==> informNowRequested)
    }

    twostate predicate FlagsKept()
      reads this
    {
      OthersActedAfter(old(reloadRequested), old(stop), old(connectionRequested), old(reconnectRequested),
                       old(informNowRequested))
    }

    // -------------------------------------------------------------------
    // Waiting.

    // Time passes; nothing that the daemon relies on is disturbed.
    method Idle()
      requires Ready()
      modifies `uci, `written, `stale, `asked
      modifies `stop, `connectionRequested, `reloadRequested, `reconnectRequested, `informNowRequested
      ensures Ready() && FlagsKept() && StoredPending() == old(StoredPending())
    {
      hide SettingKey, FreshFor, Settings, At, GetBool, Matches, Decode;
      ghost var before, was := uci, written;
      OtherThreads();
      PendingUnchanged(before, uci);
      StillFresh(snapshot, Settings(), before, was, uci, written);
    }

    // refreshConfig(false), as the loop uses it.
    method RefreshAtRunTime() returns (changed: bool)
      requires ListenerAgrees() && PaidFor()
      modifies `config, `listener, `restarts, `snapshot
      modifies `uci, `written, `stale, `asked
      modifies `stop, `connectionRequested, `reloadRequested, `reconnectRequested, `informNowRequested
      ensures Steady() && FlagsKept() && StoredPending() == old(StoredPending())
      ensures (changed <==> config != old(config)) && (old(config).acsUrl != "" ==> config.acsUrl != "")
    {
      hide Fresh, Reflects, Installed, Updated, ConnectionChanged, NoSettingIn, Decode;
      changed := RefreshConfig(false);
    }

    predicate Wake()
      reads this
    {
      stop || connectionRequested || reloadRequested || reconnectRequested || informNowRequested
    }

    predicate IsPeriodic()
      reads this
    {
      config.enableCwmp && config.acsUrl != "" && config.periodicEnable
    }

    // src/Tr069Daemon.cpp:232-244: the untimed wait ends only when some thread has raised a flag.
    method AwaitSignal() returns (signaled: bool)
      requires Ready()
      modifies `uci, `written, `stale, `asked
      modifies `stop, `connectionRequested, `reloadRequested, `reconnectRequested, `informNowRequested
      ensures Ready() && FlagsKept() && StoredPending() == old(StoredPending())
      ensures if signaled then Wake() else IsPeriodic() && !old(Wake())
    {
      hide FreshFor, Settings, At, GetBool, SettingKey, Matches, Decode;
      Idle();
      if IsPeriodic() {
        signaled := Wake();
      } else {
        if !Wake() {
          var who: int := *;
          if who == 0 {
            TriggerConnectionRequest();
          } else if who == 1 {
            RequestReload();
          } else if who == 2 {
            RequestReconnect();
          } else if who == 3 {
            RequestInformNow();
          } else {
            RequestStop();
          }
        }
        signaled := true;
      }
    }

    // exchange(false) on one of the flags, after other threads had a chance to act.

    method TakeConnectionRequest() returns (taken: bool)
      requires Ready()
      modifies `uci, `written, `stale, `asked, `paid
      modifies `stop, `connectionRequested, `reloadRequested, `reconnectRequested, `informNowRequested
      ensures Ready() && StoredPending() == old(StoredPending())
      ensures OthersActedAfter(old(reloadRequested), old(stop), false, old(reconnectRequested), old(informNowRequested))
      ensures !connectionRequested && (old(connectionRequested) ==> taken)
      ensures paid == if taken then old(paid).(connection := old(paid).connection + 1) else old(paid)
    {
      hide FreshFor, Settings, At, GetBool, SettingKey, Matches, Decode;
      Idle();
      taken := connectionRequested;
      connectionRequested := false;
      if taken {
        paid := paid.(connection := paid.connection + 1);
      }
    }

    method TakeReconnect() returns (taken: bool)
      requires Ready()
      modifies `uci, `written, `stale, `asked, `paid
      modifies `stop, `connectionRequested, `reloadRequested, `reconnectRequested, `informNowRequested
      ensures Ready() && StoredPending() == old(StoredPending())
      ensures OthersActedAfter(old(reloadRequested), old(stop), old(connectionRequested), false, old(informNowRequested))
      ensures !reconnectRequested && (old(reconnectRequested) ==> taken)
      ensures paid == if taken then old(paid).(reconnect := old(paid).reconnect + 1) else old(paid)
    {
      hide FreshFor, Settings, At, GetBool, SettingKey, Matches, Decode;
      Idle();
      taken := reconnectRequested;
      reconnectRequested := false;
      if taken {
        paid := paid.(reconnect := paid.reconnect + 1);
      }
    }

    method TakeInformNow() returns (taken: bool)
      requires Ready()
      modifies `uci, `written, `stale, `asked, `paid
      modifies `stop, `connectionRequested, `reloadRequested, `reconnectRequested, `informNowRequested
      ensures Ready() && StoredPending() == old(StoredPending())
      ensures OthersActedAfter(old(reloadRequested), old(stop), old(connectionRequested), old(reconnectRequested), false)
      ensures !informNowRequested && (old(informNowRequested) ==> taken)
      ensures paid == if taken then old(paid).(informNow := old(paid).informNow + 1) else old(paid)
    {
      hide FreshFor, Settings, At, GetBool, SettingKey, Matches, Decode;
      Idle();
      taken := informNowRequested;
      informNowRequested := false;
      if taken {
        paid := paid.(informNow := paid.informNow + 1);
      }
    }

    // Taking the reload request opens the window that the next RefreshConfig closes.
    method TakeReload() returns (taken: bool)
      requires Ready()
      modifies `uci, `written, `stale, `asked, `paid
      modifies `stop, `connectionRequested, `reloadRequested, `reconnectRequested, `informNowRequested
      ensures ListenerAgrees() && PaidFor() && StoredPending() == old(StoredPending()) && (!taken ==> Ready())
      ensures OthersActedAfter(false, old(stop), old(connectionRequested), old(reconnectRequested), old(informNowRequested))
      ensures !reloadRequested && (old(reloadRequested) ==> taken)
      ensures paid == if taken then old(paid).(reload := old(paid).reload + 1) else old(paid)
    {
      hide FreshFor, Settings, At, GetBool, SettingKey, Matches, Decode;
      Idle();
      taken := reloadRequested;
      reloadRequested := false;
      if taken {
        paid := paid.(reload := paid.reload + 1);
      }
    }

    // The reason that a set of pending requests allows, in the fixed priority order.
    predicate Allowed(wake: WakeReason, stopped: bool, connection: bool, reconnect: bool, inform: bool, reload: bool) {
      match wake
      case Stop => true
      case ConnectionRequest => !stopped
      case Reconnect => !stopped && !connection
      case InformNow => !stopped && !connection && !reconnect
      case Reload => !stopped && !connection && !reconnect && !inform
      case Periodic => !stopped && !connection && !reconnect && !inform && !reload
    }

    function PaidAfter(t: Tally, wake: WakeReason): Tally {
      match wake
      case ConnectionRequest => t.(connection := t.connection + 1)
      case Reconnect => t.(reconnect := t.reconnect + 1)
      case InformNow => t.(informNow := t.informNow + 1)
      case Reload => t.(reload := t.reload + 1)
      case _ => t
    }

    // What holds when waiting has ended for this reason: the priority order of the
    // requests found at entry is respected, the reason's own request is taken, and
    // every other one is left standing.
    twostate predicate WokenBy(wake: WakeReason)
      reads this
    {
      && Allowed(wake, old(stop), old(connectionRequested), old(reconnectRequested), old(informNowRequested), old(reloadRequested))
      && (wake == Stop ==> stop)
      && paid == PaidAfter(old(paid), wake)
      && (wake == ConnectionRequest ==> !connectionRequested)
      && (wake == Reconnect ==> !reconnectRequested)
      && (wake == InformNow ==> !informNowRequested)
      && OthersActedAfter(wake != Reload && old(reloadRequested), old(stop),
                          wake != ConnectionRequest && old(connectionRequested),
                          wake != Reconnect && old(reconnectRequested), wake != InformNow && old(informNowRequested))
      && (old(config).acsUrl != "" ==> config.acsUrl != "")
      && (wake != Reload ==> config == old(config) && listener == old(listener))
    }

    // A connection request or an inform is paid for by its own wake-up alone, and the timer needs neither.
    twostate predicate PaysFor(wake: WakeReason)
      reads this
    {
      && (paid.connection > old(paid).connection <==> wake == ConnectionRequest)
      && (paid.informNow > old(paid).informNow <==> wake == InformNow)
      && (wake == Periodic ==> IsPeriodic() && paid == old(paid))
    }

    // src/Tr069Daemon.cpp:253-259
    method TakeRest() returns (found: bool, wake: WakeReason)
      requires Steady()
      modifies `uci, `written, `stale, `asked, `paid, `config, `listener, `restarts, `snapshot
      modifies `stop, `connectionRequested, `reloadRequested, `reconnectRequested, `informNowRequested
      ensures Steady() && StoredPending() == old(StoredPending())
      ensures wake == InformNow || wake == Reload || wake == Periodic
      ensures (found <==> wake != Periodic) && paid == PaidAfter(old(paid), wake)
      ensures old(informNowRequested) ==> wake == InformNow
      ensures old(reloadRequested) ==> wake != Periodic
      ensures wake == InformNow ==> !informNowRequested
      ensures OthersActedAfter(wake != Reload && old(reloadRequested), old(stop), old(connectionRequested),
                               old(reconnectRequested), wake != InformNow && old(informNowRequested))
      ensures old(config).acsUrl != "" ==> config.acsUrl != ""
      ensures wake != Reload ==> config == old(config) && listener == old(listener)
    {
      hide Ready, PaidFor, ListenerAgrees, StoredPending;
      var inform := TakeInformNow();
      if inform {
        return true, InformNow;
      }
      var reload := TakeReload();
      if reload {
        var changed := RefreshAtRunTime();
        return true, Reload;
      }
      return false, Periodic;
    }

    // src/Tr069Daemon.cpp:246-259: the first request found, in the fixed order.
    method TakeInOrder() returns (found: bool, wake: WakeReason)
      requires Steady()
      modifies `uci, `written, `stale, `asked, `paid, `config, `listener, `restarts, `snapshot
      modifies `stop, `connectionRequested, `reloadRequested, `reconnectRequested, `informNowRequested
      ensures Steady() && StoredPending() == old(StoredPending())
      ensures WokenBy(wake) && (found <==> wake != Periodic)
    {
      hide Ready, PaidFor, ListenerAgrees, StoredPending;
      Idle();
      if stop {
        return true, Stop;
      }
      var connection := TakeConnectionRequest();
      if connection {
        return true, ConnectionRequest;
      }
      var reconnect := TakeReconnect();
      if reconnect {
        return true, Reconnect;
      }
      found, wake := TakeRest();
    }

    /**
     src/Tr069Daemon.cpp:230-262. The measure of the loop admits a single pass, so
     the endless loop is left in its first one; a periodic wake-up needs CWMP, an
     ACS URL and periodic informs to be on.
     */
    method WaitForNextInform() returns (wake: WakeReason)
      requires Steady()
      modifies `uci, `written, `stale, `asked, `paid, `config, `listener, `restarts, `snapshot
      modifies `stop, `connectionRequested, `reloadRequested, `reconnectRequested, `informNowRequested
      ensures Steady() && StoredPending() == old(StoredPending())
      ensures WokenBy(wake) && PaysFor(wake)
      ensures wake == Periodic ==> old(config.enableCwmp && config.acsUrl != "" && config.periodicEnable)
    {
      hide Ready, PaidFor, ListenerAgrees, StoredPending;
      var done := false;
      wake := Stop;
      while !done
        invariant Steady() && StoredPending() == old(StoredPending())
        invariant if done then WokenBy(wake) && (wake == Periodic ==> old(IsPeriodic())) else unchanged(this)
        decreases !done
      {
        var signaled := AwaitSignal();
        var found;
        found, wake := TakeInOrder();
        done := found || !signaled;
      }
    }

    // -------------------------------------------------------------------
    // The main loop.

    // uci_.set and uci_.commit on one of the daemon's own flags; src/Tr069Daemon.cpp:299-300, 309-310, 324-325.
    method PersistFlag(flag: Setting, value: bool) returns (ok: bool)
      requires Fresh() && (flag == BootstrapDone || flag == PendingReboot)
      modifies `uci, `written, `stale
      ensures Fresh() && (flagWritesWork ==> ok)
      ensures flag == BootstrapDone ==> StoredPending() == old(StoredPending())
      ensures flag == PendingReboot && flagWritesWork ==> StoredPending() == value
      ensures uci == old(uci) || uci == old(uci)[SettingKey(flag) := if value then "1" else "0"]
      ensures ok ==> uci == old(uci)[SettingKey(flag) := if value then "1" else "0"]
    {
      hide SettingKey, Settings;
      FlagTexts();
      ok := *;
      ok := ok || flagWritesWork;
      var took: bool := *;
      if ok || took {
        written := written + {SettingKey(flag)};
        stale := stale + {SettingKey(flag)};
        uci := uci[SettingKey(flag) := FlagText(value)];
      }
      StillFresh(snapshot, Settings(), old(uci), old(written), uci, written);
    }

    // One of the daemon's own flags, in memory and then in UCI.
    method SetOwnFlag(flag: Setting, value: bool)
      requires Ready()
      requires flag == BootstrapDone || flag == PendingReboot
      modifies `uci, `written, `stale, `config
      ensures Ready()
      ensures OnlyFlagsDiffer(config, old(config))
      ensures flag == BootstrapDone ==>
                config.pendingRebootEvent == old(config).pendingRebootEvent && StoredPending() == old(StoredPending())
      ensures config.bootstrapDone == if flag == BootstrapDone then value else old(config).bootstrapDone
      ensures uci == old(uci) || uci == old(uci)[SettingKey(flag) := if value then "1" else "0"]
      ensures flagWritesWork ==> uci == old(uci)[SettingKey(flag) := if value then "1" else "0"]
      ensures flag == PendingReboot ==> config.pendingRebootEvent == value && (flagWritesWork ==> StoredPending() == value)
    {
      hide Fresh, At, GetBool, SettingKey, Matches, Decode, StoredPending;
      if flag == BootstrapDone {
        FlagsAreExempt(config, Decode(SourceOf(snapshot), platform), value, config.pendingRebootEvent);
        config := config.(bootstrapDone := value);
      } else {
        FlagsAreExempt(config, Decode(SourceOf(snapshot), platform), config.bootstrapDone, value);
        config := config.(pendingRebootEvent := value);
      }
      assert Fresh() && StoredPending() == old(StoredPending()) by { SameStore(); }
      var ok := PersistFlag(flag, value);
    }

    twostate lemma SameStore()
      requires unchanged(`uci) && unchanged(`written) && unchanged(`stale) && unchanged(`snapshot) && unchanged(`reloadRequested)
      ensures Fresh() == old(Fresh()) && StoredPending() == old(StoredPending())
    {
    }

    // src/Tr069Daemon.cpp:295-315
    method CloseSession(outcome: SessionOutcome)
      requires Inv()
      modifies `uci, `written, `stale, `config, `history
      ensures history == old(history) + [SessionRecord(events, outcome)]
      ensures Ready()
      ensures OnlyFlagsDiffer(config, old(config))
      ensures config.bootstrapDone == (old(config).bootstrapDone || outcome.success)
      ensures config.pendingRebootEvent == (old(config).pendingRebootEvent && !Delivers(SessionRecord(events, outcome)))
      ensures flagWritesWork && outcome.success && !old(config).bootstrapDone ==>
                Lookup(uci, SettingKey(BootstrapDone)) == Some("1")
      ensures Works() ==>
                config.pendingRebootEvent == StoredPending() &&
                StoredPending() == (Owed(old(history)) && !Delivers(SessionRecord(events, outcome)))
    {
      hide Fresh, At, GetBool, SettingKey, Matches, Decode, StoredPending, Owed;
      history := history + [SessionRecord(events, outcome)];
      assert Fresh() && StoredPending() == old(StoredPending()) by { SameStore(); }
      assert SettingKey(BootstrapDone) != SettingKey(PendingReboot) by { FlagTexts(); }
      if outcome.success && !config.bootstrapDone {
        SetOwnFlag(BootstrapDone, true);
      }
      if outcome.success && config.pendingRebootEvent && M_REBOOT in events {
        SetOwnFlag(PendingReboot, false);
      }
    }

    /**
     src/Tr069Daemon.cpp:322-341. In mock mode the loop goes on at once, with both boot
     events; otherwise `alive` is false when the scheduled reboot has already ended the process.
     */
    method RebootPart() returns (alive: bool, again: bool)
      requires Ready() && (Works() ==> Owed(history))
      modifies `uci, `written, `stale, `asked, `config, `listener, `restarts, `snapshot, `events, `booted
      modifies `stop, `connectionRequested, `reloadRequested, `reconnectRequested, `informNowRequested
      ensures Survives() && Ready()
      ensures old(config).acsUrl != "" ==> config.acsUrl != ""
      ensures again <==> old(config).mockMode
      ensures again ==> alive && Inv() && booted && events == ["1 BOOT", M_REBOOT]
    {
      hide FreshFor, Settings, At, GetBool, SettingKey, Matches, Decode, Updated, ConnectionChanged, Owed;
      SetOwnFlag(PendingReboot, true);
      alive, again := true, false;
      if config.mockMode {
        RebootInMock();
        again := true;
      } else {
        alive := *;
      }
    }

    // src/Tr069Daemon.cpp:335-340
    method RebootInMock()
      requires Ready() && Survives() && (Works() ==> Owed(history))
      modifies `uci, `written, `stale, `asked, `config, `listener, `restarts, `snapshot, `events, `booted
      modifies `stop, `connectionRequested, `reloadRequested, `reconnectRequested, `informNowRequested
      ensures Inv() && booted && events == ["1 BOOT", M_REBOOT]
      ensures old(config).acsUrl != "" ==> config.acsUrl != ""
    {
      hide FreshFor, Settings, At, GetBool, SettingKey, Matches, Decode, Updated, ConnectionChanged, Owed;
      var changed := RefreshAtRunTime();
      Idle();
      events := ["1 BOOT", M_REBOOT];
      booted := true;
    }

    /**
     src/Tr069Daemon.cpp:291-341: a session and what follows from its outcome. `mock` is
     the mode in force when the outcome is handled, after the refresh that a download brings.
     */
    method SessionPart(outcome: SessionOutcome) returns (alive: bool, again: bool, ghost mock: bool)
      requires Inv()
      modifies `uci, `written, `stale, `asked, `config, `history, `listener, `restarts, `snapshot, `events, `booted
      modifies `stop, `connectionRequested, `reloadRequested, `reconnectRequested, `informNowRequested
      ensures Survives() && Ready()
      ensures history == old(history) + [SessionRecord(old(events), outcome)]
      ensures old(config).acsUrl != "" ==> config.acsUrl != ""
      ensures again <==> outcome.rebootRequested && mock
      ensures outcome.download.None? ==> mock == old(config).mockMode
      ensures again ==> alive && Inv() && booted && events == ["1 BOOT", M_REBOOT]
      ensures !alive ==> outcome.rebootRequested && !mock
    {
      hide Fresh, Reflects, PaidFor, ListenerAgrees, StoredPending, Owed, Delivers;
      Idle();
      OwedAfter(history, SessionRecord(events, outcome));
      CloseSession(outcome);
      if outcome.download.Some? {
        Idle();
        var changed := RefreshAtRunTime();
      }
      mock := config.mockMode;
      alive, again := true, false;
      if outcome.rebootRequested {
        alive, again := RebootPart();
      }
    }

    /**
     The process is killed when the session is over and no flag has been written yet: UCI is
     one session behind. A restart finds what it should exactly when that session changed
     nothing about the owed reboot; otherwise a Reboot just answered is forgotten, or one
     just reported is reported again.
     */
    method KilledAfterSession(outcome: SessionOutcome)
      requires Inv() && Works()
      modifies `uci, `written, `stale, `asked, `history
      modifies `stop, `connectionRequested, `reloadRequested, `reconnectRequested, `informNowRequested
      ensures history == old(history) + [SessionRecord(old(events), outcome)]
      ensures StoredPending() == Owed(old(history))
      ensures Owed(history) <==> outcome.rebootRequested || (Owed(old(history)) && !Delivers(SessionRecord(old(events), outcome)))
      ensures Survives() <==> (Owed(history) <==> Owed(old(history)))
    {
      hide Fresh, Reflects, ListenerAgrees, At, GetBool, SettingKey, Owed, Delivers;
      Idle();
      OwedAfter(history, SessionRecord(events, outcome));
      history := history + [SessionRecord(events, outcome)];
    }

    predicate CanRunSession()
      reads this
    {
      config.enableCwmp && config.acsUrl != ""
    }

    // src/Tr069Daemon.cpp:342-351: a reload asked for during the session is not waited for.
    method AfterSession() returns (wake: WakeReason)
      requires Survives() && Ready()
      modifies `uci, `written, `stale, `asked, `paid, `config, `listener, `restarts, `snapshot
      modifies `stop, `connectionRequested, `reloadRequested, `reconnectRequested, `informNowRequested
      ensures Steady() && Survives() && (wake == Stop ==> stop)
      ensures PaysFor(wake)
      ensures old(config).acsUrl != "" ==> config.acsUrl != ""
      ensures (old(reloadRequested) ==> wake == Reload) && (wake != Reload ==> config == old(config))
    {
      hide FreshFor, Settings, At, GetBool, SettingKey, Matches, Decode, Updated, ConnectionChanged, Owed;
      var reloadDuringSession := TakeReload();
      var changed := RefreshAtRunTime();
      if reloadDuringSession || changed {
        return Reload;
      }
      if stop {
        return Stop;
      }
      wake := WaitForNextInform();
    }

    /**
     One pass of the loop of src/Tr069Daemon.cpp:279-356. A session runs exactly
     when CWMP is enabled and an ACS URL is known, and it reports the pending events.
     The boot events come back exactly after a Reboot handled in mock mode (`again`);
     every other pass leaves the event of its wake-up: a connection request taken in
     this pass, the timer or requestInformNow, or else a change of values.
     */
    method LoopPass(outcome: SessionOutcome) returns (running: bool, ghost wake: WakeReason, ghost again: bool, ghost mock: bool)
      requires Inv() && !stop
      modifies `uci, `written, `stale, `asked, `paid, `config, `history, `listener, `restarts, `snapshot, `events, `booted
      modifies `stop, `connectionRequested, `reloadRequested, `reconnectRequested, `informNowRequested
      ensures Survives() && (running ==> Inv())
      ensures again <==> old(CanRunSession()) && outcome.rebootRequested && mock
      ensures outcome.download.None? ==> mock == old(config).mockMode
      ensures again ==> running && booted && events == ["1 BOOT", "M Reboot"]
      ensures running && !again ==> !booted && M_REBOOT !in events
      ensures running && !again ==> (events == ["6 CONNECTION REQUEST"] <==> paid.connection > old(paid).connection)
      ensures running && !again ==>
                (events == ["2 PERIODIC"] <==> paid.informNow > old(paid).informNow || wake == Periodic)
      ensures running && !again ==> events in {["6 CONNECTION REQUEST"], ["2 PERIODIC"], ["4 VALUE CHANGE"]}
      ensures wake == Periodic ==>
                config.enableCwmp && config.acsUrl != "" && config.periodicEnable && paid == old(paid)
      ensures !running ==> stop || (outcome.rebootRequested && !mock)
      ensures !old(CanRunSession()) ==> WokenBy(wake) && (running <==> wake != Stop) && history == old(history)
      ensures old(CanRunSession()) ==> history == old(history) + [SessionRecord(old(events), outcome)]
      ensures old(config).acsUrl != "" ==> config.acsUrl != ""
    {
      hide Fresh, Reflects, Matches, StoredPending, PaidFor, Owed, EventsAfter, PaidAfter, Allowed;
      var reason;
      mock := config.mockMode;
      if !config.enableCwmp || config.acsUrl == "" {
        reason := WaitForNextInform();
      } else {
        var alive, next;
        alive, next, mock := SessionPart(outcome);
        if !alive || next {
          return alive, Stop, next, mock;
        }
        reason := AfterSession();
      }
      if reason == Stop {
        return false, Stop, false, mock;
      }
      SetEvents(reason);
      EventsTellWake(reason);
      return true, reason, false, mock;
    }

    method SetEvents(wake: WakeReason)
      requires Steady() && Survives()
      modifies `events, `booted
      ensures Inv() && !booted && events == EventsAfter(wake) && M_REBOOT !in events
    {
      hide FreshFor, Settings, At, GetBool, SettingKey, Matches, Decode, Owed, EventsAfter;
      EventsTellWake(wake);
      events := EventsAfter(wake);
      booted := false;
    }

    // Nothing but UCI is left of the process before.
    method StartOver()
      requires Survives()
      modifies `listener, `stop, `connectionRequested, `reloadRequested, `reconnectRequested, `informNowRequested
      ensures Survives() && listener.None?
    {
      hide At, GetBool, SettingKey, Owed;
      stop, connectionRequested, reloadRequested := false, false, false;
      reconnectRequested, informNowRequested := false, false;
      listener := None;
    }

    // src/Tr069Daemon.cpp:270-271
    method FirstRefresh()
      requires PaidFor()
      modifies `config, `listener, `restarts, `snapshot
      modifies `uci, `written, `stale, `asked
      modifies `stop, `connectionRequested, `reloadRequested, `reconnectRequested, `informNowRequested
      ensures Steady() && StoredPending() == old(StoredPending())
    {
      hide FreshFor, Settings, At, GetBool, SettingKey, Matches, Decode, Updated, ConnectionChanged, NoSettingIn, Installed;
      var changed := RefreshConfig(true);
      RestartConnectionRequestServer();
    }

    // src/Tr069Daemon.cpp:270-277
    method Boot()
      requires Survives()
      modifies this
      ensures Inv() && booted && history == old(history)
      ensures TellsBoot(events, config.bootstrapDone, config.pendingRebootEvent)
    {
      hide FreshFor, Settings, At, GetBool, SettingKey, Matches, Decode, Owed, BootEvents;
      StartOver();
      FirstRefresh();
      BootReportsPending(config);
      events := BootEvents(config);
      booted := true;
    }

    /**
     A process from its start through any number of passes, whose sessions end as
     `outcomes` says. The invariant holds at its last loop top, hence, every prefix
     being a run, at all of them. It makes all its passes unless it is stopped or reboots.
     */
    method Run(outcomes: seq<SessionOutcome>) returns (running: bool, ghost passes: nat)
      requires Survives()
      modifies this
      ensures Survives() && (running ==> Inv())
      ensures passes <= |outcomes| && (running ==> passes == |outcomes|)
      ensures !running ==> stop || (passes > 0 && outcomes[passes - 1].rebootRequested)
      ensures |history| <= |old(history)| + passes
      ensures |old(history)| <= |history| && history[..|old(history)|] == old(history)
    {
      hide Steady, ReportsOwed, Survives;
      Boot();
      running := true;
      passes := 0;
      for pass := 0 to |outcomes|
        invariant Survives() && (running ==> Inv())
        invariant passes <= pass && (running ==> passes == pass)
        invariant !running ==> stop || (passes > 0 && outcomes[passes - 1].rebootRequested)
        invariant |history| <= |old(history)| + passes
        invariant |old(history)| <= |history| && history[..|old(history)|] == old(history)
      {
        running := running && !stop;
        if running {
          ghost var wake, again, mock;
          running, wake, again, mock := LoopPass(outcomes[pass]);
          passes := passes + 1;
        }
      }
    }

    /**
     A report that goes missing: the process starts with a reboot to report, its first
     session fails, and no later session asks for a reboot. However many of them
     succeed, "M Reboot" is never reported, and the reboot stays owed.
     */
    method LoseReport(outcomes: seq<SessionOutcome>) returns (running: bool)
      requires Survives() && Works() && StoredPending()
      requires |outcomes| > 0 && !outcomes[0].success
      requires forall i :: 0 <= i < |outcomes| ==> !outcomes[i].rebootRequested
      modifies this
      ensures Owed(history) && (running ==> Inv() && M_REBOOT !in events)
      ensures running || stop
    {
      hide Steady, Owed, StoredPending;
      Boot();
      running := true;
      for pass := 0 to |outcomes|
        invariant Survives() && Works() && Owed(history) && (running ==> Inv())
        invariant running || stop
        invariant if pass == 0 then running else running ==> !booted && M_REBOOT !in events
      {
        running := running && !stop;
        if running {
          ghost var wake, again, mock;
          OwedAfter(history, SessionRecord(events, outcomes[pass]));
          running, wake, again, mock := LoopPass(outcomes[pass]);
        }
      }
    }

    /**
     Many processes, one after the other, each ended at any of its loop tops: across
     restarts UCI still knows whether a reboot is owed.
     */
    method Lives(lives: seq<seq<SessionOutcome>>)
      requires Survives()
      modifies this
      ensures Survives()
      ensures |old(history)| <= |history| && history[..|old(history)|] == old(history)
    {
      hide Survives;
      for life := 0 to |lives|
        invariant Survives()
        invariant |old(history)| <= |history| && history[..|old(history)|] == old(history)
      {
        ghost var passes;
        var running;
        running, passes := Run(lives[life]);
      }
    }
  }
}
