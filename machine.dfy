/** The AutoWiFi state machine on values: a snapshot of everything the
    object and the platform around it hold, and what `checkForDeviceReset`,
    `connect`, `handleDisconnected` and `loop` make of it. The class in
    module Device is proved to follow these functions. */
module Machine {
  import opened Storage
  import opened Credentials
  import opened BootLoop
  import opened Connection
  import opened Provisioning

  /** Work handed to a separate FreeRTOS task, to run after its delay. */
  datatype Task = BootResetTask | RestartTask(delayMs: nat)

  /** Calls into the radio, the beacon, the OTA library and the chip, in
      the order they are made. */
  datatype Effect =
    | WiFiBegin(ssid: string, password: string)       // WiFi.begin
    | SoftAp(ssid: string, password: string)          // WiFi.softAP
    | BeaconBegin                                     // handler registered, _beacon.begin()
    | BeaconLoop                                      // _beacon.loop()
    | OtaBegin(hostName: string, password: string)    // ArduinoOTA set-up and begin()
    | OtaHandle                                       // ArduinoOTA.handle()
    | Restart(delayMs: nat)                           // ESP.restart(), after a blocking delay

  /** Delay `handleDisconnected` waits before restarting. */
  const ReconnectRestartDelayMs := 10000

  /** The object's fields, the store, the pending deferred tasks, the calls
      made so far, and whether the chip has been restarted (after which
      nothing of this process runs any more). */
  datatype Snapshot = Snapshot(
    state: State,
    otaState: OtaState,
    store: Store,
    tasks: seq<Task>,
    effects: seq<Effect>,
    restarted: bool)

  /** Calls `startAccessPoint` makes: none when the gate refuses, the soft
      AP request, and on success the handler registration. */
  function AccessPointEffects(ap: (string, string), softApOk: bool): (e: seq<Effect>)
    ensures e == [] <==> !Usable(ap)
    ensures BeaconBegin in e <==> AccessPointState(ap, softApOk) == ApMode
  {
    if !Usable(ap) then []
    else if !softApOk then [SoftAp(ap.0, ap.1)]
    else [SoftAp(ap.0, ap.1), BeaconBegin]
  }

  /** Calls `setupOTA` makes. */
  function OtaEffects(ota: (string, string)): (e: seq<Effect>)
    ensures e != [] <==> OtaSetupState(ota) == OtaInitialized
  {
    if Usable(ota) then [OtaBegin(ota.0, ota.1)] else []
  }

  /** `checkForDeviceReset` on a running process. */
  function ResetCheck(d: Snapshot, clearOk: bool): (r: Snapshot)
    requires !d.restarted
    ensures r.restarted <==> StoredBootCount(d.store) + 1 >= BootLoopThreshold
    ensures r.store == CheckBoot(d.store, clearOk).final
    ensures r.state == d.state && r.otaState == d.otaState
    // the restart path schedules no deferred reset: the restart does not return
    ensures r.restarted ==> r.tasks == d.tasks && r.effects == d.effects + [Restart(0)]
    ensures !r.restarted ==>
              r.tasks == d.tasks + [BootResetTask] && r.effects == d.effects &&
              StoredBootCount(r.store) == StoredBootCount(d.store) + 1
  {
    var b := CheckBoot(d.store, clearOk);
    if b.wiped then d.(store := b.final, effects := d.effects + [Restart(0)], restarted := true)
    else d.(store := b.final, tasks := d.tasks + [BootResetTask])
  }

  /** The pending tasks with every boot reset taken out, the others kept
      in order. */
  function WithoutResets(tasks: seq<Task>): (r: seq<Task>)
    ensures forall t :: t in r <==> t in tasks && t != BootResetTask
    ensures |r| <= |tasks|
  {
    if tasks == [] then []
    else
      var rest := WithoutResets(tasks[..|tasks| - 1]);
      if tasks[|tasks| - 1] == BootResetTask then rest else rest + [tasks[|tasks| - 1]]
  }

  /** Dropping the resets forgets one more reset at the end. */
  lemma WithoutResetsDropsLatest(tasks: seq<Task>)
    ensures WithoutResets(tasks + [BootResetTask]) == WithoutResets(tasks)
  {
    assert (tasks + [BootResetTask])[..|tasks|] == tasks;
  }

  /** The scheduler runs every pending `bootResetTask` while the caller
      blocks: each writes 0 to the counter, so the store takes that one
      value. */
  function RunPendingResets(s: Snapshot): (r: Snapshot)
    ensures r.store == ResetBootCount(s.store) && StoredBootCount(r.store) == 0
    ensures BootResetTask !in r.tasks
    ensures forall t :: t in r.tasks <==> t in s.tasks && t != BootResetTask
    ensures r.state == s.state && r.otaState == s.otaState && r.effects == s.effects && r.restarted == s.restarted
  {
    s.(store := ResetBootCount(s.store), tasks := WithoutResets(s.tasks))
  }

  /** Whether `connect` blocks past the 4 s grace window after its boot
      check: it does on the station path when the join wait is longer than
      `BootResetDelayMs`. A wait of exactly 4 s is taken to end first. */
  predicate JoinOutlastsGrace(store: Store, link: nat -> bool)
  {
    HasWiFiCredentials(WiFiCredentials(store)) && JoinWaitMs(link) > BootResetDelayMs
  }

  /** Whether a `connect` on this store runs the boot reset it spawned
      before it returns: the check does not restart, and the join outlasts
      the grace window. */
  predicate ConnectRunsReset(store: Store, link: nat -> bool)
  {
    StoredBootCount(store) + 1 < BootLoopThreshold && JoinOutlastsGrace(store, link)
  }

  /** `connect`: the boot check first, then the access point or the
      station, then OTA only when the station link is up. `link` is the link
      status at each poll of the bounded join wait. */
  function ConnectSpec(d: Snapshot, clearOk: bool, softApOk: bool, link: nat -> bool): (r: Snapshot)
    requires !d.restarted
    // the boot check always runs, and its restart ends the call
    ensures r.restarted <==> StoredBootCount(d.store) + 1 >= BootLoopThreshold
    ensures r.restarted ==> r == ResetCheck(d, clearOk)
    // a connect that returns within the grace window leaves the counter one
    // higher and its reset pending
    ensures !r.restarted && !JoinOutlastsGrace(d.store, link) ==>
              StoredBootCount(r.store) == StoredBootCount(d.store) + 1 &&
              r.store == CheckBoot(d.store, clearOk).final &&
              r.tasks == d.tasks + [BootResetTask]
    // a longer join wait lets every pending reset run before it returns
    ensures !r.restarted && JoinOutlastsGrace(d.store, link) ==>
              StoredBootCount(r.store) == 0 &&
              r.store == ResetBootCount(CheckBoot(d.store, clearOk).final) &&
              r.tasks == WithoutResets(d.tasks)
    // a connect that carries on never writes the credentials
    ensures !r.restarted ==>
              WiFiCredentials(r.store) == WiFiCredentials(d.store) &&
              ApCredentials(r.store) == ApCredentials(d.store) &&
              OtaCredentials(r.store) == OtaCredentials(d.store)
    // the route: the access point exactly when a station credential is empty
    ensures !r.restarted && !HasWiFiCredentials(WiFiCredentials(d.store)) ==>
              r.state == AccessPointState(ApCredentials(d.store), softApOk) &&
              r.effects == d.effects + AccessPointEffects(ApCredentials(d.store), softApOk)
    ensures !r.restarted && HasWiFiCredentials(WiFiCredentials(d.store)) ==>
              (r.state == WifiConnected <==> Joined(link)) && r.state != ApMode &&
              r.effects ==
                d.effects + [WiFiBegin(WiFiCredentials(d.store).0, WiFiCredentials(d.store).1)] +
                (if Joined(link) then OtaEffects(OtaCredentials(d.store)) else [])
    // OTA changes only when the station link is up
    ensures r.otaState != d.otaState ==> !r.restarted && r.state == WifiConnected
    ensures !r.restarted && r.state == WifiConnected ==>
              r.otaState == OtaSetupState(OtaCredentials(d.store))
  {
    var booted := ResetCheck(d, clearOk);
    if booted.restarted then booted
    else
      BootCheckKeepsCredentials(d.store, clearOk);
      ResetKeepsCredentials(booted.store);
      WithoutResetsDropsLatest(d.tasks);
      Route(booted, softApOk, link)
  }

  /** The part of `connect` after the boot check, on the store the check
      left: the access point or the station, then OTA. */
  function Route(booted: Snapshot, softApOk: bool, link: nat -> bool): (r: Snapshot)
    ensures r.restarted == booted.restarted
    ensures r.state == ConnectState(WiFiCredentials(booted.store), ApCredentials(booted.store), softApOk, Joined(link))
    ensures r.otaState != booted.otaState ==> r.state == WifiConnected
    ensures !JoinOutlastsGrace(booted.store, link) ==> r.store == booted.store && r.tasks == booted.tasks
    ensures JoinOutlastsGrace(booted.store, link) ==>
              r.store == ResetBootCount(booted.store) && r.tasks == WithoutResets(booted.tasks)
  {
    StartOta(ChooseNetwork(booted, softApOk, link))
  }

  /** The access point when a station credential is empty, the join
      otherwise. A join wait longer than the grace window runs the pending
      resets on the way. */
  function ChooseNetwork(booted: Snapshot, softApOk: bool, link: nat -> bool): (r: Snapshot)
    ensures r.restarted == booted.restarted && r.otaState == booted.otaState
    ensures r.state == ConnectState(WiFiCredentials(booted.store), ApCredentials(booted.store), softApOk, Joined(link))
    ensures !HasWiFiCredentials(WiFiCredentials(booted.store)) ==>
              r.effects == booted.effects + AccessPointEffects(ApCredentials(booted.store), softApOk)
    ensures HasWiFiCredentials(WiFiCredentials(booted.store)) ==>
              r.effects == booted.effects + [WiFiBegin(WiFiCredentials(booted.store).0, WiFiCredentials(booted.store).1)]
    ensures !JoinOutlastsGrace(booted.store, link) ==> r.store == booted.store && r.tasks == booted.tasks
    ensures JoinOutlastsGrace(booted.store, link) ==>
              r.store == ResetBootCount(booted.store) && r.tasks == WithoutResets(booted.tasks)
  {
    var wifi := WiFiCredentials(booted.store);
    var ap := ApCredentials(booted.store);
    var state := ConnectState(wifi, ap, softApOk, Joined(link));
    if !HasWiFiCredentials(wifi) then
      booted.(state := state, effects := booted.effects + AccessPointEffects(ap, softApOk))
    else
      var joined := booted.(state := state, effects := booted.effects + [WiFiBegin(wifi.0, wifi.1)]);
      if JoinWaitMs(link) > BootResetDelayMs then RunPendingResets(joined) else joined
  }

  /** `setupOTA` once the station link is up; nothing otherwise. */
  function StartOta(s: Snapshot): (r: Snapshot)
    ensures r.store == s.store && r.tasks == s.tasks && r.state == s.state && r.restarted == s.restarted
    ensures s.state == WifiConnected ==>
              r.otaState == OtaSetupState(OtaCredentials(s.store)) &&
              r.effects == s.effects + OtaEffects(OtaCredentials(s.store))
    ensures s.state != WifiConnected ==> r == s
  {
    if s.state == WifiConnected then
      s.(otaState := OtaSetupState(OtaCredentials(s.store)), effects := s.effects + OtaEffects(OtaCredentials(s.store)))
    else s
  }

  /** A boot check that does not wipe leaves the three credential pairs as
      they were. */
  lemma BootCheckKeepsCredentials(store: Store, clearOk: bool)
    requires !CheckBoot(store, clearOk).wiped
    ensures WiFiCredentials(CheckBoot(store, clearOk).final) == WiFiCredentials(store)
    ensures ApCredentials(CheckBoot(store, clearOk).final) == ApCredentials(store)
    ensures OtaCredentials(CheckBoot(store, clearOk).final) == OtaCredentials(store)
  {
  }

  /** A join that never comes up blocks for the full 10 s, so below the
      threshold the counter is back at 0 when `connect` returns and the
      next boot check cannot wipe. */
  lemma FailedJoinForgives(d: Snapshot, clearOk: bool, softApOk: bool, link: nat -> bool)
    requires !d.restarted
    requires StoredBootCount(d.store) + 1 < BootLoopThreshold
    requires HasWiFiCredentials(WiFiCredentials(d.store)) && !Joined(link)
    ensures !ConnectSpec(d, clearOk, softApOk, link).restarted
    ensures StoredBootCount(ConnectSpec(d, clearOk, softApOk, link).store) == 0
    ensures !CheckBoot(ConnectSpec(d, clearOk, softApOk, link).store, clearOk).wiped
  {
    assert JoinWaitMs(link) == ConnectTimeoutMs;
  }

  /** Whether the reconnect of `handleDisconnected` leaves the device not
      connected, so that it blocks for 10 s and restarts. */
  predicate ReconnectFails(d: Snapshot, clearOk: bool, softApOk: bool, link: nat -> bool)
    requires !d.restarted
  {
    var c := ConnectSpec(d, clearOk, softApOk, link);
    !c.restarted && c.state == NotConnected
  }

  /** `handleDisconnected`: connect again, and restart after 10 s when that
      still leaves the device not connected. The 10 s blocking delay
      outlasts the 4 s grace window, so any reset still pending (the access
      point path returns at once) writes 0 to the counter before the chip
      restarts. */
  function HandleDisconnectedSpec(d: Snapshot, clearOk: bool, softApOk: bool, link: nat -> bool): (r: Snapshot)
    requires !d.restarted
    ensures !ReconnectFails(d, clearOk, softApOk, link) ==> r == ConnectSpec(d, clearOk, softApOk, link)
    ensures r.state == ConnectSpec(d, clearOk, softApOk, link).state
    ensures r.restarted <==>
              ConnectSpec(d, clearOk, softApOk, link).restarted ||
              ConnectSpec(d, clearOk, softApOk, link).state == NotConnected
    // the process never carries on disconnected
    ensures !r.restarted ==> r.state != NotConnected
    // a failed reconnect restarts with the counter back at 0 and no reset pending
    ensures ReconnectFails(d, clearOk, softApOk, link) ==>
              r.store == ResetBootCount(CheckBoot(d.store, clearOk).final) &&
              StoredBootCount(r.store) == 0 && r.tasks == WithoutResets(d.tasks) &&
              r.effects == ConnectSpec(d, clearOk, softApOk, link).effects + [Restart(ReconnectRestartDelayMs)]
    ensures ReconnectFails(d, clearOk, softApOk, link) ==>
              WiFiCredentials(r.store) == WiFiCredentials(d.store) &&
              ApCredentials(r.store) == ApCredentials(d.store) &&
              OtaCredentials(r.store) == OtaCredentials(d.store)
  {
    var c := ConnectSpec(d, clearOk, softApOk, link);
    if !c.restarted && c.state == NotConnected then
      WithoutResetsDropsLatest(d.tasks);
      ResetKeepsCredentials(c.store);
      RestartAfterFailure(c)
    else c
  }

  /** The 10 s blocking delay after a failed reconnect, during which any
      pending reset runs, then the restart. */
  function RestartAfterFailure(c: Snapshot): (r: Snapshot)
    ensures r.restarted && r.state == c.state && r.otaState == c.otaState
    ensures r.effects == c.effects + [Restart(ReconnectRestartDelayMs)]
    ensures BootResetTask in c.tasks ==> r.store == ResetBootCount(c.store) && r.tasks == WithoutResets(c.tasks)
    ensures BootResetTask !in c.tasks ==> r.store == c.store && r.tasks == c.tasks
  {
    var settled := if BootResetTask in c.tasks then RunPendingResets(c) else c;
    settled.(effects := c.effects + [Restart(ReconnectRestartDelayMs)], restarted := true)
  }

  /** A failed reconnect leaves a reset pending exactly when its own
      `connect` did not already run it, so the restart path writes the
      counter once either way. */
  lemma ReconnectSettlesOnce(d: Snapshot, clearOk: bool, softApOk: bool, link: nat -> bool)
    requires !d.restarted
    ensures ReconnectFails(d, clearOk, softApOk, link) ==>
              (BootResetTask in ConnectSpec(d, clearOk, softApOk, link).tasks <==> !ConnectRunsReset(d.store, link))
  {
  }

  /** The store a failed reconnect hands to the next process is the one a
      boot check followed by its deferred reset leaves: for the boot-loop
      detector this lifetime counts as one that outlived the grace window. */
  lemma FailedReconnectOutlivesGrace(d: Snapshot, clearOk: bool, softApOk: bool, link: nat -> bool)
    requires !d.restarted
    requires ReconnectFails(d, clearOk, softApOk, link)
    ensures HandleDisconnectedSpec(d, clearOk, softApOk, link).store ==
              AfterLifetime(d.store, Boot(clearOk, true))
  {
    assert !ResetCheck(d, clearOk).restarted;
  }

  /** `loop`: one branch per call. `linkUp` is what `WiFi.status()` reports
      now; the other parameters serve the reconnect. */
  function TickSpec(d: Snapshot, linkUp: bool, clearOk: bool, softApOk: bool, link: nat -> bool): (r: Snapshot)
    requires !d.restarted
    // access point mode only services the beacon
    ensures d.state == ApMode ==> r == d.(effects := d.effects + [BeaconLoop])
    // a healthy station link only services OTA, and only once it is initialised
    ensures d.state == WifiConnected && linkUp ==>
              r == d.(effects := d.effects + if d.otaState == OtaInitialized then [OtaHandle] else [])
    // every other tick is a reconnect
    ensures d.state == NotConnected || (d.state == WifiConnected && !linkUp) ==>
              r == HandleDisconnectedSpec(d, clearOk, softApOk, link)
    // only a reconnect touches the store
    ensures r.store != d.store ==> TickBranch(d.state, d.otaState, linkUp) == Reconnect
  {
    match TickBranch(d.state, d.otaState, linkUp)
    case ServiceBeacon => d.(effects := d.effects + [BeaconLoop])
    case Reconnect => HandleDisconnectedSpec(d, clearOk, softApOk, link)
    case ServiceOta => d.(effects := d.effects + [OtaHandle])
    case Idle => d
  }

  /** A reconnect from `loop` runs the boot check again, so the persisted
      counter also counts reconnects, not only process starts. A reconnect
      that returns within the grace window leaves it one higher with a
      reset pending; a longer join, and a failed reconnect, leave it at 0
      with no reset pending. */
  lemma ReconnectCountsAsBoot(d: Snapshot, linkUp: bool, clearOk: bool, softApOk: bool, link: nat -> bool)
    requires !d.restarted
    requires TickBranch(d.state, d.otaState, linkUp) == Reconnect
    requires StoredBootCount(d.store) + 1 < BootLoopThreshold
    ensures var r := TickSpec(d, linkUp, clearOk, softApOk, link);
            !r.restarted && !JoinOutlastsGrace(d.store, link) ==>
              StoredBootCount(r.store) == StoredBootCount(d.store) + 1 &&
              r.tasks == d.tasks + [BootResetTask]
    ensures var r := TickSpec(d, linkUp, clearOk, softApOk, link);
            r.restarted || JoinOutlastsGrace(d.store, link) ==>
              StoredBootCount(r.store) == 0 && r.tasks == WithoutResets(d.tasks)
  {
  }

  /** No boot reset pending means the counter reads 0. Every `connect`
      that carries on leaves it so, and the later steps keep it. */
  predicate ResetsSettled(s: Snapshot)
  {
    BootResetTask !in s.tasks ==> StoredBootCount(s.store) == 0
  }

  lemma ConnectSettlesResets(d: Snapshot, clearOk: bool, softApOk: bool, link: nat -> bool)
    requires !d.restarted
    ensures !ConnectSpec(d, clearOk, softApOk, link).restarted ==>
              ResetsSettled(ConnectSpec(d, clearOk, softApOk, link))
  {
  }

  lemma TickKeepsResetsSettled(d: Snapshot, linkUp: bool, clearOk: bool, softApOk: bool, link: nat -> bool)
    requires !d.restarted && ResetsSettled(d)
    ensures !TickSpec(d, linkUp, clearOk, softApOk, link).restarted ==>
              ResetsSettled(TickSpec(d, linkUp, clearOk, softApOk, link))
  {
    if TickBranch(d.state, d.otaState, linkUp) == Reconnect {
      ConnectSettlesResets(d, clearOk, softApOk, link);
    }
  }

  /** The provisioning handler's restart: it fires 5 s after the request,
      so after every reset spawned before the request. With no reset
      pending when it fires, the process it ends hands on a counter of 0,
      and the boot check of the next process cannot wipe the credentials
      the handler may just have saved. */
  lemma ProvisioningRestartForgiven(s: Snapshot, msg: Message, clearOk: bool)
    requires ResetsSettled(s) && BootResetTask !in s.tasks
    ensures StoredBootCount(HandleMessage(msg, s.store).store) == 0
    ensures !CheckBoot(HandleMessage(msg, s.store).store, clearOk).wiped
  {
    assert BootNs != WifiNs;
  }
}
