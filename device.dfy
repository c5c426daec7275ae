/** The `AutoWiFi` object: its two state fields, the persistent store it
    reads and writes in place, the deferred tasks it spawns and the calls it
    makes into the platform. Every method is proved to follow the value
    model of module Machine (or, for the handler, module Provisioning). */
module Device {
  import opened Storage
  import opened Credentials
  import opened BootLoop
  import opened Provisioning
  import opened Connection
  import opened Machine

  class AutoWiFi {
    var state: State
    var otaState: OtaState
    /** The persistent store; it outlives the object across restarts. */
    var store: Store
    /** Every durable write, in order. */
    ghost var commits: seq<Store>
    /** Deferred tasks spawned and not yet run. */
    var tasks: seq<Task>
    /** Calls made into the radio, the beacon, OTA and the chip. */
    var effects: seq<Effect>
    /** `ESP.restart()` was called: the process is over. */
    var restarted: bool

    /** The whole observable state as a value. */
    function View(): Snapshot
      reads this
    {
      Snapshot(state, otaState, store, tasks, effects, restarted)
    }

    /** A fresh object over the store as the last process left it. */
    constructor (persisted: Store)
      ensures View() == Snapshot(NotConnected, OtaNotConnected, persisted, [], [], false)
      ensures commits == []
    {
      state := NotConnected;
      otaState := OtaNotConnected;
      store := persisted;
      commits := [];
      tasks := [];
      effects := [];
      restarted := false;
    }

    /** One atomic, durable write of the store. */
    method Commit(s: Store)
      requires !restarted
      modifies this`store, this`commits
      ensures store == s && commits == old(commits) + [s]
    {
      store := s;
      commits := commits + [s];
    }

    /** `getIP`: the station address, the soft AP address, or 0.0.0.0. */
    function GetIP(localIP: IPAddress, softApIP: IPAddress): (ip: IPAddress)
      reads this
      ensures state == NotConnected ==> ip == Unspecified
      ensures state == WifiConnected ==> ip == localIP
      ensures state == ApMode ==> ip == softApIP
    {
      match state
      case WifiConnected => localIP
      case ApMode => softApIP
      case NotConnected => Unspecified
    }

    /** `setCredentials`: one atomic write of two string entries. */
    method SetCredentials(ns: string, key1: string, val1: string, key2: string, val2: string)
      requires !restarted
      modifies this`store, this`commits
      ensures store == PutPair(old(store), ns, key1, val1, key2, val2)
      ensures commits == old(commits) + [store]
      ensures key1 != key2 ==> GetPair(store, ns, key1, key2) == (val1, val2)
    {
      Commit(PutPair(store, ns, key1, val1, key2, val2));
    }

    method SetAccessPointCredentials(ssid: string, password: string)
      requires !restarted
      modifies this`store, this`commits
      ensures store == PutApCredentials(old(store), ssid, password)
      ensures commits == old(commits) + [store]
      ensures ApCredentials(store) == (ssid, password)
      ensures WiFiCredentials(store) == WiFiCredentials(old(store))
      ensures OtaCredentials(store) == OtaCredentials(old(store))
    {
      SetCredentials(ApNs, SsidKey, ssid, PasswordKey, password);
      ApCredentialsRoundTrip(old(store), ssid, password);
    }

    method SetOTACredentials(hostName: string, password: string)
      requires !restarted
      modifies this`store, this`commits
      ensures store == PutOtaCredentials(old(store), hostName, password)
      ensures commits == old(commits) + [store]
      ensures OtaCredentials(store) == (hostName, password)
      ensures WiFiCredentials(store) == WiFiCredentials(old(store))
      ensures ApCredentials(store) == ApCredentials(old(store))
    {
      SetCredentials(OtaNs, HostNameKey, hostName, PasswordKey, password);
      OtaCredentialsRoundTrip(old(store), hostName, password);
    }

    method SetWiFiCredentials(ssid: string, password: string)
      requires !restarted
      modifies this`store, this`commits
      ensures store == PutWiFiCredentials(old(store), ssid, password)
      ensures commits == old(commits) + [store]
      ensures WiFiCredentials(store) == (ssid, password)
      ensures ApCredentials(store) == ApCredentials(old(store))
      ensures OtaCredentials(store) == OtaCredentials(old(store))
    {
      SetCredentials(WifiNs, SsidKey, ssid, PasswordKey, password);
      WiFiCredentialsRoundTrip(old(store), ssid, password);
    }

    /** `checkForDeviceReset`: read-increment-write of the boot counter;
        at the threshold, clear `wifi` and `boot` and restart whatever the
        clear returned; below it, spawn the deferred reset. */
    method CheckForDeviceReset(clearOk: bool)
      requires !restarted
      modifies this`store, this`commits, this`tasks, this`effects, this`restarted
      ensures View() == ResetCheck(old(View()), clearOk)
      ensures commits == old(commits) + BootWrites(old(store), clearOk)
    {
      ghost var check := CheckBoot(store, clearOk);
      var bootCount := GetInt(store, BootNs, BootCountKey, 0);
      bootCount := bootCount + 1;
      Commit(PutInt(store, BootNs, BootCountKey, bootCount));
      assert store == check.incremented;
      if bootCount >= BootLoopThreshold {
        if clearOk {
          Commit(Clear(store, {WifiNs, BootNs}));
        }
        assert store == check.final;
        effects := effects + [Restart(0)];
        restarted := true;
        return;
      }
      tasks := tasks + [BootResetTask];
    }

    /** The scheduler runs pending deferred task `i`: `bootResetTask`
        writes 0 to the counter; the handler's restart task restarts. The
        restart fires 5 s after its request, so never before a 4 s reset
        spawned earlier. */
    method RunTask(i: nat)
      requires !restarted && i < |tasks|
      requires tasks[i].RestartTask? ==> BootResetTask !in tasks[..i]
      modifies this`store, this`commits, this`tasks, this`effects, this`restarted
      ensures tasks == old(tasks[..i] + tasks[i + 1..])
      ensures old(tasks[i]) == BootResetTask ==>
                store == ResetBootCount(old(store)) && commits == old(commits) + [store] &&
                effects == old(effects) && !restarted
      ensures old(tasks[i]).RestartTask? ==>
                store == old(store) && commits == old(commits) &&
                effects == old(effects) + [Restart(old(tasks[i]).delayMs)] && restarted
    {
      var task := tasks[i];
      tasks := tasks[..i] + tasks[i + 1..];
      match task
      case BootResetTask =>
        Commit(PutInt(store, BootNs, BootCountKey, 0));
      case RestartTask(delayMs) =>
        effects := effects + [Restart(delayMs)];
        restarted := true;
    }

    /** The scheduler runs every pending `bootResetTask` while the caller
        blocks past the grace window. They all write the same 0, so the
        commit log records that value once. */
    method SettleResets()
      requires !restarted && BootResetTask in tasks
      modifies this`store, this`commits, this`tasks
      ensures View() == RunPendingResets(old(View()))
      ensures commits == old(commits) + [store]
    {
      Commit(PutInt(store, BootNs, BootCountKey, 0));
      tasks := WithoutResets(tasks);
    }

    /** `connectToWiFi`: ask the radio to join, then wait for the link.
        While the wait blocks, the scheduler runs the resets that fall due:
        all those pending once the wait passes the 4 s grace window. */
    method ConnectToWiFi(ssid: string, password: string, link: nat -> bool) returns (s: State)
      requires !restarted
      modifies this`effects, this`store, this`commits, this`tasks
      ensures effects == old(effects) + [WiFiBegin(ssid, password)]
      ensures s == WifiConnected <==> LinkUpWithin(link)
      ensures s != ApMode
      ensures JoinWaitMs(link) > BootResetDelayMs && BootResetTask in old(tasks) ==>
                store == ResetBootCount(old(store)) && tasks == WithoutResets(old(tasks)) &&
                commits == old(commits) + [store]
      ensures JoinWaitMs(link) <= BootResetDelayMs || BootResetTask !in old(tasks) ==>
                store == old(store) && tasks == old(tasks) && commits == old(commits)
    {
      effects := effects + [WiFiBegin(ssid, password)];
      var connected, elapsedMs := WaitForWiFiConnection(link);
      if elapsedMs > BootResetDelayMs && BootResetTask in tasks {
        SettleResets();
      }
      s := if connected then WifiConnected else NotConnected;
    }

    /** `startAccessPoint`: refuse unless the stored access point
        credentials pass the gate and the radio starts the soft AP; then
        register the provisioning handler and start the beacon. */
    method StartAccessPoint(softApOk: bool) returns (s: State)
      requires !restarted
      modifies this`effects
      ensures s == AccessPointState(ApCredentials(store), softApOk)
      ensures effects == old(effects) + AccessPointEffects(ApCredentials(store), softApOk)
    {
      var (ssid, password) := ApCredentials(store);
      if ssid == "" || |password| < MinPasswordLength {
        return NotConnected;
      }
      effects := effects + [SoftAp(ssid, password)];
      if !softApOk {
        return NotConnected;
      }
      effects := effects + [BeaconBegin];
      return ApMode;
    }

    /** `setupOTA`: start the OTA listener when the stored OTA credentials
        pass the gate. */
    method SetupOTA() returns (o: OtaState)
      requires !restarted
      modifies this`effects
      ensures o == OtaSetupState(OtaCredentials(store))
      ensures effects == old(effects) + OtaEffects(OtaCredentials(store))
    {
      var (hostName, password) := OtaCredentials(store);
      if hostName == "" || |password| < MinPasswordLength {
        return OtaNotConnected;
      }
      effects := effects + [OtaBegin(hostName, password)];
      return OtaInitialized;
    }

    /** `connect`. `clearOk` is the result of the boot check's clear,
        `softApOk` the result of `WiFi.softAP`, `link` the link status at
        each poll of the join wait. */
    method Connect(clearOk: bool, softApOk: bool, link: nat -> bool) returns (s: State)
      requires !restarted
      modifies this
      ensures View() == ConnectSpec(old(View()), clearOk, softApOk, link)
      ensures commits ==
                old(commits) + BootWrites(old(store), clearOk) +
                if ConnectRunsReset(old(store), link) then [store] else []
      ensures !restarted ==> s == state
    {
      CheckForDeviceReset(clearOk);
      if restarted {
        // ESP.restart() does not return
        return state;
      }
      BootCheckKeepsCredentials(old(store), clearOk);
      RouteAfterBootCheck(softApOk, link);
      s := state;
    }

    /** The part of `connect` after the boot check: the access point or
        the station, then OTA once the station link is up. */
    method RouteAfterBootCheck(softApOk: bool, link: nat -> bool)
      requires !restarted && BootResetTask in tasks
      modifies this`state, this`otaState, this`effects, this`store, this`commits, this`tasks
      ensures View() == Route(old(View()), softApOk, link)
      ensures commits == old(commits) + if JoinOutlastsGrace(old(store), link) then [store] else []
    {
      ReachNetwork(softApOk, link);
      if state == WifiConnected {
        otaState := SetupOTA();
      }
    }

    /** The access point when a station credential is empty, the join
        otherwise. */
    method ReachNetwork(softApOk: bool, link: nat -> bool)
      requires !restarted && BootResetTask in tasks
      modifies this`state, this`effects, this`store, this`commits, this`tasks
      ensures View() == ChooseNetwork(old(View()), softApOk, link)
      ensures commits == old(commits) + if JoinOutlastsGrace(old(store), link) then [store] else []
    {
      var (ssid, password) := WiFiCredentials(store);
      if ssid == "" || password == "" {
        state := StartAccessPoint(softApOk);
      } else {
        state := ConnectToWiFi(ssid, password, link);
      }
    }

    /** `handleDisconnected`: reconnect, and restart after 10 s when that
        fails. Resets still pending (the access point path returns at once)
        run during the 10 s blocking delay, before the restart. */
    method HandleDisconnected(clearOk: bool, softApOk: bool, link: nat -> bool)
      requires !restarted
      modifies this
      ensures View() == HandleDisconnectedSpec(old(View()), clearOk, softApOk, link)
      ensures commits ==
                old(commits) + BootWrites(old(store), clearOk) +
                if ConnectRunsReset(old(store), link) || ReconnectFails(old(View()), clearOk, softApOk, link)
                then [store] else []
    {
      ghost var d := View();
      ghost var boot := commits + BootWrites(store, clearOk);
      ReconnectSettlesOnce(d, clearOk, softApOk, link);
      var _ := Connect(clearOk, softApOk, link);
      if !restarted && state == NotConnected {
        assert ReconnectFails(d, clearOk, softApOk, link);
        assert commits == boot + if ConnectRunsReset(d.store, link) then [store] else [];
        RestartAfterFailedReconnect();
        assert commits == boot + [store];
      } else {
        assert !ReconnectFails(d, clearOk, softApOk, link);
      }
    }

    /** The tail of a failed `handleDisconnected`: the 10 s blocking delay,
        during which any pending reset runs, then the restart. */
    method RestartAfterFailedReconnect()
      requires !restarted
      modifies this`store, this`commits, this`tasks, this`effects, this`restarted
      ensures View() == RestartAfterFailure(old(View()))
      ensures commits == old(commits) + if BootResetTask in old(tasks) then [store] else []
    {
      if BootResetTask in tasks {
        SettleResets();
      }
      effects := effects + [Restart(ReconnectRestartDelayMs)];
      restarted := true;
    }

    /** `loop`: one tick. `linkUp` is what `WiFi.status()` reports. */
    method Loop(linkUp: bool, clearOk: bool, softApOk: bool, link: nat -> bool)
      requires !restarted
      modifies this
      ensures View() == TickSpec(old(View()), linkUp, clearOk, softApOk, link)
      ensures TickBranch(old(state), old(otaState), linkUp) != Reconnect ==> commits == old(commits)
      ensures TickBranch(old(state), old(otaState), linkUp) == Reconnect ==>
                commits ==
                  old(commits) + BootWrites(old(store), clearOk) +
                  if ConnectRunsReset(old(store), link) || ReconnectFails(old(View()), clearOk, softApOk, link)
                  then [store] else []
    {
      if state == ApMode {
        effects := effects + [BeaconLoop];
      } else if state == NotConnected || !linkUp {
        HandleDisconnected(clearOk, softApOk, link);
      } else if otaState == OtaInitialized {
        effects := effects + [OtaHandle];
      }
    }

    /** The provisioning handler the beacon calls with each request while
        the device is in access point mode. */
    method OnMessage(msg: Message) returns (reply: string)
      requires !restarted
      modifies this`store, this`commits, this`tasks
      ensures reply == HandleMessage(msg, old(store)).reply
      ensures store == HandleMessage(msg, old(store)).store
      ensures tasks ==
                old(tasks) + if HandleMessage(msg, old(store)).restartScheduled
                             then [RestartTask(RestartDelayMs)] else []
      ensures commits == old(commits) + if reply == SavedReply then [store] else []
    {
      if Property(msg, RestartProperty) == "true" {
        tasks := tasks + [RestartTask(RestartDelayMs)];
        return RestartReply;
      }
      var ssid := Property(msg, SsidProperty);
      var password := Property(msg, PasswordProperty);
      if ssid == "" || password == "" {
        return MissingReply;
      }
      SetWiFiCredentials(ssid, password);
      return SavedReply;
    }
  }
}
